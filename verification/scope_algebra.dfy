/**
 Row-level-security scopes and their intersection under impersonation (auth/impersonation.go).
 A scope denotes a set of resources; a scope list permits what some allow scope matches and no deny
 scope matches; a payload holds one list per resource kind and the row-level scope ids.
 */
module ScopeAlgebra {
  import opened Base

  datatype Scope = Scope(id: string, tags: map<string, string>, agents: seq<string>, names: seq<string>, deny: bool)

  const UNRESTRICTED := Scope("", map[], [], [], false)

  datatype Resource = Resource(id: string, tags: map<string, string>, agent: string, name: string)

  /** How a name in a scope is compared with a resource's name; the database decides. */
  type NameTest = (string, string) -> bool

  const LITERAL: NameTest := (pattern: string, name: string) => pattern == name

  // ---------------------------------------------------------------- what scopes mean

  predicate TagsMatch(tags: map<string, string>, x: Resource) {
    forall k :: k in tags ==> k in x.tags && x.tags[k] == tags[k]
  }

  /** Empty fields are unrestricted. */
  predicate MatchesBy(like: NameTest, s: Scope, x: Resource) {
    && (s.id == "" || s.id == x.id)
    && TagsMatch(s.tags, x)
    && (s.agents == [] || x.agent in s.agents)
    && (s.names == [] || exists p :: p in s.names && like(p, x.name))
  }

  predicate Matches(s: Scope, x: Resource) {
    MatchesBy(LITERAL, s, x)
  }

  predicate AnyMatchBy(like: NameTest, scopes: seq<Scope>, x: Resource) {
    exists s :: s in scopes && MatchesBy(like, s, x)
  }

  predicate PermitsBy(like: NameTest, scopes: seq<Scope>, x: Resource) {
    && (exists s :: s in scopes && !s.deny && MatchesBy(like, s, x))
    && (forall s :: s in scopes && s.deny ==> !MatchesBy(like, s, x))
  }

  predicate AnyMatch(scopes: seq<Scope>, x: Resource) {
    AnyMatchBy(LITERAL, scopes, x)
  }

  predicate Permits(scopes: seq<Scope>, x: Resource) {
    PermitsBy(LITERAL, scopes, x)
  }

  // ---------------------------------------------------------------- intersecting two scopes

  predicate Conflict(a: map<string, string>, b: map<string, string>) {
    exists k :: k in a && k in b && a[k] != b[k]
  }

  /** The elements of `xs` that also occur in `ys`. */
  function Common(xs: seq<string>, ys: seq<string>): (r: seq<string>)
    ensures forall x :: x in r <==> x in xs && x in ys
  {
    if xs == [] then []
    else (if xs[0] in ys then [xs[0]] else []) + Common(xs[1..], ys)
  }

  /** An empty list restricts nothing. */
  function Narrow(xs: seq<string>, ys: seq<string>): seq<string> {
    if xs == [] then ys else if ys == [] then xs else Common(xs, ys)
  }

  /** Both lists restrict, and they share nothing. */
  predicate Disjoint(xs: seq<string>, ys: seq<string>) {
    xs != [] && ys != [] && Common(xs, ys) == []
  }

  function IntersectScope(a: Scope, b: Scope): Option<Scope> {
    if (a.id != "" && b.id != "" && a.id != b.id) || Conflict(a.tags, b.tags)
       || Disjoint(a.agents, b.agents) || Disjoint(a.names, b.names)
    then None
    else Some(Scope(if a.id != "" then a.id else b.id, a.tags + b.tags,
                    Narrow(a.agents, b.agents), Narrow(a.names, b.names), a.deny || b.deny))
  }

  lemma MergedTags(a: map<string, string>, b: map<string, string>, x: Resource)
    ensures Conflict(a, b) ==> !(TagsMatch(a, x) && TagsMatch(b, x))
    ensures !Conflict(a, b) ==> (TagsMatch(a + b, x) <==> TagsMatch(a, x) && TagsMatch(b, x))
  {
    if !Conflict(a, b) && TagsMatch(a + b, x) {
      forall k | k in a ensures k in x.tags && x.tags[k] == a[k] {
        assert k in a + b;
      }
    }
  }

  lemma NarrowExact(xs: seq<string>, ys: seq<string>, v: string)
    ensures Disjoint(xs, ys) ==> !((xs == [] || v in xs) && (ys == [] || v in ys))
    ensures !Disjoint(xs, ys) ==>
              (Narrow(xs, ys) == [] || v in Narrow(xs, ys) <==> (xs == [] || v in xs) && (ys == [] || v in ys))
  {
  }

  lemma LiteralNames(s: Scope, x: Resource)
    ensures Matches(s, x) <==>
            && (s.id == "" || s.id == x.id) && TagsMatch(s.tags, x)
            && (s.agents == [] || x.agent in s.agents) && (s.names == [] || x.name in s.names)
  {
    if s.names != [] && x.name in s.names { assert LITERAL(x.name, x.name); }
  }

  /** The intersection of two scopes matches exactly what both match; a rejected pair shares nothing. */
  lemma IntersectScopeExact(a: Scope, b: Scope, x: Resource)
    ensures IntersectScope(a, b).Some? ==>
              (Matches(IntersectScope(a, b).value, x) <==> Matches(a, x) && Matches(b, x))
    ensures IntersectScope(a, b).None? ==> !(Matches(a, x) && Matches(b, x))
    ensures IntersectScope(a, b).Some? ==> (IntersectScope(a, b).value.deny <==> a.deny || b.deny)
  {
    MergedTags(a.tags, b.tags, x);
    NarrowExact(a.agents, b.agents, x.agent);
    NarrowExact(a.names, b.names, x.name);
    LiteralNames(a, x);
    LiteralNames(b, x);
    if IntersectScope(a, b).Some? { LiteralNames(IntersectScope(a, b).value, x); }
  }

  /** However names are compared, the intersection never matches more than both scopes. */
  lemma IntersectScopeSound(like: NameTest, a: Scope, b: Scope, x: Resource)
    requires IntersectScope(a, b).Some? && MatchesBy(like, IntersectScope(a, b).value, x)
    ensures MatchesBy(like, a, x) && MatchesBy(like, b, x)
  {
    var r := IntersectScope(a, b).value;
    MergedTags(a.tags, b.tags, x);
    NarrowExact(a.agents, b.agents, x.agent);
    if a.names != [] || b.names != [] {
      var p :| p in r.names && like(p, x.name);
      assert a.names != [] ==> p in a.names;
      assert b.names != [] ==> p in b.names;
    }
  }

  ghost predicate Subset(xs: seq<string>, ys: seq<string>) {
    forall v :: v in xs ==> v in ys
  }

  /** One side names nothing, or one list of names contains the other. */
  ghost predicate NamesNest(a: Scope, b: Scope) {
    a.names == [] || b.names == [] || Subset(a.names, b.names) || Subset(b.names, a.names)
  }

  /** The scopes share nothing, whatever their names are. */
  predicate Incompatible(a: Scope, b: Scope) {
    (a.id != "" && b.id != "" && a.id != b.id) || Conflict(a.tags, b.tags) || Disjoint(a.agents, b.agents)
  }

  /** The intersection matches `x` exactly when both scopes do; a rejected pair does not share `x`. */
  ghost predicate ExactAt(like: NameTest, a: Scope, b: Scope, x: Resource) {
    match IntersectScope(a, b)
    case Some(s) => MatchesBy(like, s, x) <==> MatchesBy(like, a, x) && MatchesBy(like, b, x)
    case None => !(MatchesBy(like, a, x) && MatchesBy(like, b, x))
  }

  /** However names are compared, nothing is lost as long as the names nest. */
  lemma IntersectScopeExactWhenNamesNest(like: NameTest, a: Scope, b: Scope, x: Resource)
    requires Incompatible(a, b) || NamesNest(a, b)
    ensures ExactAt(like, a, b, x)
  {
    MergedTags(a.tags, b.tags, x);
    NarrowExact(a.agents, b.agents, x.agent);
    if IntersectScope(a, b).Some? && MatchesBy(like, IntersectScope(a, b).value, x) {
      IntersectScopeSound(like, a, b, x);
    }
    if MatchesBy(like, a, x) && MatchesBy(like, b, x) { NestedNamesMeet(like, a, b, x); }
  }

  lemma NestedNamesMeet(like: NameTest, a: Scope, b: Scope, x: Resource)
    requires MatchesBy(like, a, x) && MatchesBy(like, b, x) && NamesNest(a, b)
    ensures !Disjoint(a.names, b.names)
    ensures Narrow(a.names, b.names) == [] || exists p :: p in Narrow(a.names, b.names) && like(p, x.name)
  {
    if a.names != [] && b.names != [] {
      var p :| p in (if Subset(a.names, b.names) then a.names else b.names) && like(p, x.name);
      assert p in Common(a.names, b.names);
    }
  }

  /** The comparison that knows two patterns, each of which fits every name. */
  function EitherOf(p: string, q: string): NameTest {
    (pattern: string, name: string) => pattern == p || pattern == q
  }

  /** A resource that both scopes would match but for its name. */
  function Shared(a: Scope, b: Scope): Resource {
    Resource(if a.id != "" then a.id else b.id, a.tags + b.tags,
             if Narrow(a.agents, b.agents) == [] then "" else Narrow(a.agents, b.agents)[0], "")
  }

  /** Each side names something that the other does not: some comparison makes the intersection lose a resource. */
  lemma CrossedNamesLose(a: Scope, b: Scope, p: string, q: string)
    requires !Incompatible(a, b) && p in a.names && p !in b.names && q in b.names && q !in a.names
    ensures !ExactAt(EitherOf(p, q), a, b, Shared(a, b))
  {
    var like, x := EitherOf(p, q), Shared(a, b);
    assert TagsMatch(a.tags + b.tags, x);
    MergedTags(a.tags, b.tags, x);
    NarrowExact(a.agents, b.agents, x.agent);
    assert like(p, x.name) && like(q, x.name);
    assert MatchesBy(like, a, x) && MatchesBy(like, b, x);
  }

  /**
   Two scopes are intersected exactly under every comparison of names precisely when they clash or their names nest.
   */
  lemma ExactForEveryComparisonIff(a: Scope, b: Scope)
    ensures (forall like, x :: ExactAt(like, a, b, x)) <==> Incompatible(a, b) || NamesNest(a, b)
  {
    if Incompatible(a, b) || NamesNest(a, b) {
      forall like, x { IntersectScopeExactWhenNamesNest(like, a, b, x); }
    } else {
      var p :| p in a.names && p !in b.names;
      var q :| q in b.names && q !in a.names;
      CrossedNamesLose(a, b, p, q);
    }
  }

  /** With a comparison that knows a wildcard, a pair can be rejected although both match a resource. */
  lemma WildcardNamesAreLost(like: NameTest, name: string)
    requires name != "*" && like("*", name) && like(name, name)
    ensures var a, b := UNRESTRICTED.(names := ["*"]), UNRESTRICTED.(names := [name]);
            var x := Resource("", map[], "", name);
            IntersectScope(a, b).None? && MatchesBy(like, a, x) && MatchesBy(like, b, x)
  {
    assert "*" in ["*"] && name in [name];
    assert Common(["*"], [name]) == [];
  }

  /** Intersects two scopes by merging the tag maps key by key, in any order of the keys. */
  method MergeTags(a: map<string, string>, b: map<string, string>) returns (merged: Option<map<string, string>>)
    ensures merged == if Conflict(a, b) then None else Some(a + b)
  {
    var result: map<string, string> := map[];
    var todo := a.Keys;
    while todo != {}
      invariant todo <= a.Keys && result.Keys == a.Keys - todo
      invariant forall k :: k in result ==> result[k] == a[k]
      decreases todo
    {
      var k :| k in todo;
      result, todo := result[k := a[k]], todo - {k};
    }
    todo := b.Keys;
    while todo != {}
      invariant todo <= b.Keys && result.Keys == a.Keys + (b.Keys - todo)
      invariant forall k :: k in result ==> result[k] == if k in b && k !in todo then b[k] else a[k]
      invariant forall k :: k in a && k in b && k !in todo ==> a[k] == b[k]
      decreases todo
    {
      var k :| k in todo;
      if k in result && result[k] != b[k] {
        return None;
      }
      result, todo := result[k := b[k]], todo - {k};
    }
    assert result == a + b;
    return Some(result);
  }

  method IntersectScopes(a: Scope, b: Scope) returns (r: Option<Scope>)
    ensures r == IntersectScope(a, b)
  {
    var result := UNRESTRICTED;
    if a.id != "" && b.id != "" {
      if a.id != b.id {
        return None;
      }
      result := result.(id := a.id);
    } else if a.id != "" {
      result := result.(id := a.id);
    } else if b.id != "" {
      result := result.(id := b.id);
    }
    var merged := MergeTags(a.tags, b.tags);
    if merged.None? {
      return None;
    }
    result := result.(tags := merged.value);
    if a.agents == [] {
      result := result.(agents := b.agents);
    } else if b.agents == [] {
      result := result.(agents := a.agents);
    } else {
      result := result.(agents := Common(a.agents, b.agents));
      if result.agents == [] {
        return None;
      }
    }
    if a.names == [] {
      result := result.(names := b.names);
    } else if b.names == [] {
      result := result.(names := a.names);
    } else {
      result := result.(names := Common(a.names, b.names));
      if result.names == [] {
        return None;
      }
    }
    return Some(result.(deny := a.deny || b.deny));
  }

  // ---------------------------------------------------------------- intersecting lists

  function IntersectWith(r: Scope, impersonated: seq<Scope>): seq<Scope> {
    if impersonated == [] then []
    else
      var front, s := impersonated[..|impersonated| - 1], IntersectScope(r, impersonated[|impersonated| - 1]);
      IntersectWith(r, front) + if s.Some? then [s.value] else []
  }

  /** Every actual scope with every impersonated one; incompatible pairs drop out. */
  function IntersectScopeList(actual: seq<Scope>, impersonated: seq<Scope>): seq<Scope> {
    if actual == [] then []
    else
      IntersectScopeList(actual[..|actual| - 1], impersonated) + IntersectWith(actual[|actual| - 1], impersonated)
  }

  function Allows(scopes: seq<Scope>): seq<Scope> {
    if scopes == [] then []
    else Allows(scopes[..|scopes| - 1]) + if scopes[|scopes| - 1].deny then [] else [scopes[|scopes| - 1]]
  }

  function Denies(scopes: seq<Scope>): seq<Scope> {
    if scopes == [] then []
    else Denies(scopes[..|scopes| - 1]) + if scopes[|scopes| - 1].deny then [scopes[|scopes| - 1]] else []
  }

  function IntersectPermissioned(actual: seq<Scope>, impersonated: seq<Scope>): seq<Scope> {
    IntersectScopeList(Allows(actual), Allows(impersonated)) + Denies(actual) + Denies(impersonated)
  }

  lemma {:induction false} SplitElements(scopes: seq<Scope>)
    ensures forall s :: s in Allows(scopes) <==> s in scopes && !s.deny
    ensures forall s :: s in Denies(scopes) <==> s in scopes && s.deny
  {
    if scopes != [] {
      SplitElements(scopes[..|scopes| - 1]);
      assert scopes == scopes[..|scopes| - 1] + [scopes[|scopes| - 1]];
    }
  }

  /** `s` comes from `r` and one of the impersonated scopes. */
  ghost predicate ComesFrom(r: Scope, impersonated: seq<Scope>, s: Scope) {
    exists i :: i in impersonated && IntersectScope(r, i) == Some(s)
  }

  lemma {:induction false} IntersectWithElements(r: Scope, impersonated: seq<Scope>, s: Scope)
    ensures s in IntersectWith(r, impersonated) <==> ComesFrom(r, impersonated, s)
  {
    if impersonated != [] {
      var front, last := impersonated[..|impersonated| - 1], impersonated[|impersonated| - 1];
      IntersectWithElements(r, front, s);
      assert impersonated == front + [last];
      if s in IntersectWith(r, impersonated) && s !in IntersectWith(r, front) {
        assert last in impersonated && IntersectScope(r, last) == Some(s);
      }
    }
  }

  ghost predicate ComesFromSome(actual: seq<Scope>, impersonated: seq<Scope>, s: Scope) {
    exists r :: r in actual && ComesFrom(r, impersonated, s)
  }

  lemma ComesFromSplit(front: seq<Scope>, last: Scope, impersonated: seq<Scope>, s: Scope)
    ensures ComesFromSome(front + [last], impersonated, s) <==>
            ComesFromSome(front, impersonated, s) || ComesFrom(last, impersonated, s)
  {
    assert forall r :: r in front + [last] <==> r in front || r == last;
  }

  lemma {:induction false} IntersectListElements(actual: seq<Scope>, impersonated: seq<Scope>, s: Scope)
    ensures s in IntersectScopeList(actual, impersonated) <==> ComesFromSome(actual, impersonated, s)
  {
    if actual != [] {
      var front, last := actual[..|actual| - 1], actual[|actual| - 1];
      IntersectListElements(front, impersonated, s);
      IntersectWithElements(last, impersonated, s);
      ComesFromSplit(front, last, impersonated, s);
      assert actual == front + [last];
    }
  }

  /** However names are compared, the cartesian product matches no more than both lists. */
  lemma IntersectListSound(like: NameTest, actual: seq<Scope>, impersonated: seq<Scope>, x: Resource)
    requires AnyMatchBy(like, IntersectScopeList(actual, impersonated), x)
    ensures AnyMatchBy(like, actual, x) && AnyMatchBy(like, impersonated, x)
  {
    var s :| s in IntersectScopeList(actual, impersonated) && MatchesBy(like, s, x);
    IntersectListElements(actual, impersonated, s);
    var r :| r in actual && ComesFrom(r, impersonated, s);
    var i :| i in impersonated && IntersectScope(r, i) == Some(s);
    IntersectScopeSound(like, r, i, x);
  }

  ghost predicate PairsExactAt(like: NameTest, actual: seq<Scope>, impersonated: seq<Scope>, x: Resource) {
    forall r, i :: r in actual && i in impersonated ==> ExactAt(like, r, i, x)
  }

  /** The cartesian product matches what both lists match, as far as each pair does. */
  lemma IntersectListExactBy(like: NameTest, actual: seq<Scope>, impersonated: seq<Scope>, x: Resource)
    requires PairsExactAt(like, actual, impersonated, x)
    ensures AnyMatchBy(like, IntersectScopeList(actual, impersonated), x) <==>
            AnyMatchBy(like, actual, x) && AnyMatchBy(like, impersonated, x)
  {
    if AnyMatchBy(like, IntersectScopeList(actual, impersonated), x) {
      IntersectListSound(like, actual, impersonated, x);
    }
    if AnyMatchBy(like, actual, x) && AnyMatchBy(like, impersonated, x) {
      var r :| r in actual && MatchesBy(like, r, x);
      var i :| i in impersonated && MatchesBy(like, i, x);
      assert ExactAt(like, r, i, x);
      IntersectListElements(actual, impersonated, IntersectScope(r, i).value);
      assert IntersectScope(r, i).value in IntersectScopeList(actual, impersonated);
    }
  }

  lemma LiteralPairsExact(actual: seq<Scope>, impersonated: seq<Scope>, x: Resource)
    ensures PairsExactAt(LITERAL, actual, impersonated, x)
  {
    forall r, i | r in actual && i in impersonated { IntersectScopeExact(r, i, x); }
  }

  /** The cartesian product matches what both lists match. */
  lemma IntersectListExact(actual: seq<Scope>, impersonated: seq<Scope>, x: Resource)
    ensures AnyMatch(IntersectScopeList(actual, impersonated), x) <==> AnyMatch(actual, x) && AnyMatch(impersonated, x)
  {
    LiteralPairsExact(actual, impersonated, x);
    IntersectListExactBy(LITERAL, actual, impersonated, x);
  }

  lemma PermitsSplit(like: NameTest, scopes: seq<Scope>, x: Resource)
    ensures PermitsBy(like, scopes, x) <==> AnyMatchBy(like, Allows(scopes), x) && !AnyMatchBy(like, Denies(scopes), x)
  {
    SplitElements(scopes);
  }

  /** The intersected list permits what its products match and neither side denies. */
  lemma IntersectPermissionedSplit(like: NameTest, actual: seq<Scope>, impersonated: seq<Scope>, x: Resource)
    ensures PermitsBy(like, IntersectPermissioned(actual, impersonated), x) <==>
            && AnyMatchBy(like, IntersectScopeList(Allows(actual), Allows(impersonated)), x)
            && !AnyMatchBy(like, Denies(actual), x) && !AnyMatchBy(like, Denies(impersonated), x)
  {
    var allow := IntersectScopeList(Allows(actual), Allows(impersonated));
    SplitElements(actual);
    SplitElements(impersonated);
    forall s | s in allow ensures !s.deny { IntersectListElements(Allows(actual), Allows(impersonated), s); }
    assert forall s :: s in IntersectPermissioned(actual, impersonated) <==>
                         s in allow || s in Denies(actual) || s in Denies(impersonated);
  }

  /** However names are compared, the intersected list permits no more than both lists permit. */
  lemma IntersectPermissionedSound(like: NameTest, actual: seq<Scope>, impersonated: seq<Scope>, x: Resource)
    requires PermitsBy(like, IntersectPermissioned(actual, impersonated), x)
    ensures PermitsBy(like, actual, x) && PermitsBy(like, impersonated, x)
  {
    IntersectPermissionedSplit(like, actual, impersonated, x);
    IntersectListSound(like, Allows(actual), Allows(impersonated), x);
    PermitsSplit(like, actual, x);
    PermitsSplit(like, impersonated, x);
  }

  /** The intersected list permits exactly what both lists permit, as far as each pair of allow scopes does. */
  lemma IntersectPermissionedExactBy(like: NameTest, actual: seq<Scope>, impersonated: seq<Scope>, x: Resource)
    requires PairsExactAt(like, Allows(actual), Allows(impersonated), x)
    ensures PermitsBy(like, IntersectPermissioned(actual, impersonated), x) <==>
            PermitsBy(like, actual, x) && PermitsBy(like, impersonated, x)
  {
    IntersectPermissionedSplit(like, actual, impersonated, x);
    IntersectListExactBy(like, Allows(actual), Allows(impersonated), x);
    PermitsSplit(like, actual, x);
    PermitsSplit(like, impersonated, x);
  }

  /** The intersected list permits exactly what both lists permit. */
  lemma IntersectPermissionedExact(actual: seq<Scope>, impersonated: seq<Scope>, x: Resource)
    ensures Permits(IntersectPermissioned(actual, impersonated), x) <==> Permits(actual, x) && Permits(impersonated, x)
  {
    LiteralPairsExact(Allows(actual), Allows(impersonated), x);
    IntersectPermissionedExactBy(LITERAL, actual, impersonated, x);
  }

  method IntersectLists(actual: seq<Scope>, impersonated: seq<Scope>) returns (result: seq<Scope>)
    ensures result == IntersectScopeList(actual, impersonated)
  {
    result := [];
    if |actual| == 0 || |impersonated| == 0 {
      EmptyProduct(actual);
      return;
    }
    for i := 0 to |actual|
      invariant result == IntersectScopeList(actual[..i], impersonated)
    {
      assert actual[..i + 1][..i] == actual[..i];
      for j := 0 to |impersonated|
        invariant result == IntersectScopeList(actual[..i], impersonated) + IntersectWith(actual[i], impersonated[..j])
      {
        assert impersonated[..j + 1][..j] == impersonated[..j];
        var s := IntersectScopes(actual[i], impersonated[j]);
        if s.Some? {
          result := result + [s.value];
        }
      }
      assert impersonated[..|impersonated|] == impersonated;
    }
    assert actual[..|actual|] == actual;
  }

  lemma {:induction false} EmptyProduct(actual: seq<Scope>)
    ensures IntersectScopeList(actual, []) == []
  {
    if actual != [] { EmptyProduct(actual[..|actual| - 1]); }
  }

  method SplitScopeList(scopes: seq<Scope>) returns (allow: seq<Scope>, deny: seq<Scope>)
    ensures allow == Allows(scopes) && deny == Denies(scopes)
  {
    allow, deny := [], [];
    for i := 0 to |scopes|
      invariant allow == Allows(scopes[..i]) && deny == Denies(scopes[..i])
    {
      assert scopes[..i + 1][..i] == scopes[..i];
      if scopes[i].deny {
        deny := deny + [scopes[i]];
      } else {
        allow := allow + [scopes[i]];
      }
    }
    assert scopes[..|scopes|] == scopes;
  }

  method IntersectPermissionedScopeList(actual: seq<Scope>, impersonated: seq<Scope>) returns (result: seq<Scope>)
    ensures result == IntersectPermissioned(actual, impersonated)
    ensures forall x :: Permits(result, x) <==> Permits(actual, x) && Permits(impersonated, x)
    ensures forall like, x :: PermitsBy(like, result, x) ==>
        PermitsBy(like, actual, x) && PermitsBy(like, impersonated, x)
  {
    var realAllow, realDeny := SplitScopeList(actual);
    var impersonatedAllow, impersonatedDeny := SplitScopeList(impersonated);
    result := IntersectLists(realAllow, impersonatedAllow);
    result := result + realDeny;
    result := result + impersonatedDeny;
    forall x { IntersectPermissionedExact(actual, impersonated, x); }
    forall like, x | PermitsBy(like, result, x) { IntersectPermissionedSound(like, actual, impersonated, x); }
  }

  // ---------------------------------------------------------------- payloads

  datatype Kind = Config | Component | Playbook | Canary | View

  datatype Payload = Payload(
    config: seq<Scope>, component: seq<Scope>, playbook: seq<Scope>, canary: seq<Scope>, view: seq<Scope>,
    scopes: seq<string>, disable: bool)

  const EMPTY := Payload([], [], [], [], [], [], false)
  const DISABLED := EMPTY.(disable := true)

  function ListOf(p: Payload, kind: Kind): seq<Scope> {
    match kind
    case Config => p.config
    case Component => p.component
    case Playbook => p.playbook
    case Canary => p.canary
    case View => p.view
  }

  /** A disabled payload does not restrict at all. */
  predicate GrantsBy(like: NameTest, p: Payload, kind: Kind, x: Resource) {
    p.disable || PermitsBy(like, ListOf(p, kind), x)
  }

  predicate Grants(p: Payload, kind: Kind, x: Resource) {
    GrantsBy(LITERAL, p, kind, x)
  }

  predicate GrantsRows(p: Payload, scopeId: string) {
    p.disable || scopeId in p.scopes
  }

  function IntersectPayload(actual: Payload, impersonated: Payload): Payload {
    Payload(IntersectPermissioned(actual.config, impersonated.config),
            IntersectPermissioned(actual.component, impersonated.component),
            IntersectPermissioned(actual.playbook, impersonated.playbook),
            IntersectPermissioned(actual.canary, impersonated.canary),
            IntersectPermissioned(actual.view, impersonated.view),
            Common(actual.scopes, impersonated.scopes), false)
  }

  function ApplyImpersonation(actual: Payload, impersonated: Option<Payload>): Payload {
    if impersonated.None? then actual
    else if actual.disable then impersonated.value
    else IntersectPayload(actual, impersonated.value)
  }

  lemma IntersectPayloadExact(actual: Payload, impersonated: Payload, kind: Kind, x: Resource, id: string)
    ensures Grants(IntersectPayload(actual, impersonated), kind, x) <==>
            Permits(ListOf(actual, kind), x) && Permits(ListOf(impersonated, kind), x)
    ensures GrantsRows(IntersectPayload(actual, impersonated), id) <==> id in actual.scopes && id in impersonated.scopes
  {
    IntersectPermissionedExact(ListOf(actual, kind), ListOf(impersonated, kind), x);
  }

  /**
   Impersonation never widens access, whatever the header claims and however names are compared; nor does the result
   exceed the header's own payload.
   */
  lemma ImpersonationNeverWidens(
      like: NameTest, actual: Payload, impersonated: Option<Payload>, kind: Kind, x: Resource, id: string)
    ensures GrantsBy(like, ApplyImpersonation(actual, impersonated), kind, x) ==>
              GrantsBy(like, actual, kind, x) && (impersonated.Some? ==> GrantsBy(like, impersonated.value, kind, x))
    ensures GrantsRows(ApplyImpersonation(actual, impersonated), id) ==>
              GrantsRows(actual, id) && (impersonated.Some? ==> GrantsRows(impersonated.value, id))
  {
    if impersonated.Some? && !actual.disable {
      var header := impersonated.value;
      IntersectPayloadExact(actual, header, kind, x, id);
      if GrantsBy(like, ApplyImpersonation(actual, impersonated), kind, x) {
        IntersectPermissionedSound(like, ListOf(actual, kind), ListOf(header, kind), x);
      }
    }
  }

  /** Impersonation grants exactly what both payloads grant, unless only the impersonated one is disabled. */
  lemma ImpersonationExact(actual: Payload, impersonated: Payload, kind: Kind, x: Resource, id: string)
    requires actual.disable || !impersonated.disable
    ensures ExactFor(actual, impersonated, kind, x, id)
  {
    IntersectPayloadExact(actual, impersonated, kind, x, id);
  }

  /** The result grants exactly what both payloads grant. */
  ghost predicate ExactFor(actual: Payload, header: Payload, kind: Kind, x: Resource, id: string) {
    var result := ApplyImpersonation(actual, Some(header));
    && (Grants(result, kind, x) <==> Grants(actual, kind, x) && Grants(header, kind, x))
    && (GrantsRows(result, id) <==> GrantsRows(actual, id) && GrantsRows(header, id))
  }

  /** A header is exact against every real payload precisely when it is not disabled. */
  lemma HeaderExactIffEnabled(header: Payload)
    ensures (forall actual, kind, x, id :: ExactFor(actual, header, kind, x, id)) <==> !header.disable
  {
    if header.disable {
      var id := Fresh(header.scopes);
      var x := Resource("", map[], "", "");
      IntersectPayloadExact(EMPTY.(scopes := [id]), header, Config, x, id);
      assert !ExactFor(EMPTY.(scopes := [id]), header, Config, x, id);
    } else {
      forall actual, kind, x, id { ImpersonationExact(actual, header, kind, x, id); }
    }
  }

  function Joined(xs: seq<string>): (all: string)
    ensures forall x :: x in xs ==> |x| <= |all|
  {
    if xs == [] then "" else xs[0] + Joined(xs[1..])
  }

  /** An id that a list does not hold. */
  function Fresh(xs: seq<string>): (id: string)
    ensures id !in xs
  {
    Joined(xs) + "x"
  }

  /** The flag of a disabled header is ignored: it grants a restricted user what its lists permit of the user's own. */
  lemma DisabledHeaderCountsItsLists(actual: Payload, header: Payload, kind: Kind, x: Resource, id: string)
    requires !actual.disable && header.disable
    ensures ApplyImpersonation(actual, Some(header)) == ApplyImpersonation(actual, Some(header.(disable := false)))
    ensures Grants(ApplyImpersonation(actual, Some(header)), kind, x) <==>
            Permits(ListOf(actual, kind), x) && Permits(ListOf(header, kind), x)
    ensures GrantsRows(ApplyImpersonation(actual, Some(header)), id) <==> id in actual.scopes && id in header.scopes
  {
    IntersectPayloadExact(actual, header, kind, x, id);
  }

  /** So one without lists takes everything away from a restricted user. */
  lemma DisabledHeaderGrantsNothing(actual: Payload, kind: Kind, x: Resource, id: string)
    requires !actual.disable
    ensures !Grants(ApplyImpersonation(actual, Some(DISABLED)), kind, x)
    ensures !GrantsRows(ApplyImpersonation(actual, Some(DISABLED)), id)
  {
    DisabledHeaderCountsItsLists(actual, DISABLED, kind, x, id);
  }

  ghost predicate SameGrants(p: Payload, q: Payload) {
    && (forall kind, x :: Grants(p, kind, x) <==> Grants(q, kind, x))
    && (forall id :: GrantsRows(p, id) <==> GrantsRows(q, id))
  }

  /** The lists of `header` permit all that a restricted payload permits. */
  ghost predicate ListsCover(header: Payload, actual: Payload) {
    && (forall kind, x :: Permits(ListOf(actual, kind), x) ==> Permits(ListOf(header, kind), x))
    && (forall id :: id in actual.scopes ==> id in header.scopes)
  }

  /**
   A header changes nothing exactly when, for an unrestricted user, it is disabled and, for a restricted one, its lists
   cover the user's.
   */
  lemma HeaderChangesNothingIff(actual: Payload, header: Payload)
    ensures SameGrants(ApplyImpersonation(actual, Some(header)), actual) <==>
            if actual.disable then header.disable else ListsCover(header, actual)
  {
    var result := ApplyImpersonation(actual, Some(header));
    if actual.disable {
      var id := Fresh(header.scopes);
      assert GrantsRows(actual, id);
      assert GrantsRows(result, id) <==> header.disable;
    } else {
      forall kind, x
        ensures Grants(result, kind, x) <==> Permits(ListOf(actual, kind), x) && Permits(ListOf(header, kind), x)
      {
        IntersectPayloadExact(actual, header, kind, x, "");
      }
      forall id ensures GrantsRows(result, id) <==> id in actual.scopes && id in header.scopes {
        IntersectPayloadExact(actual, header, Config, Resource("", map[], "", ""), id);
      }
    }
  }

  function Chain(actual: Payload, headers: seq<Payload>): Payload {
    if headers == [] then actual
    else ApplyImpersonation(Chain(actual, headers[..|headers| - 1]), Some(headers[|headers| - 1]))
  }

  /** However names are compared, a chain of headers never widens access. */
  lemma {:induction false} ChainNeverWidens(
      like: NameTest, actual: Payload, headers: seq<Payload>, kind: Kind, x: Resource, id: string)
    ensures GrantsBy(like, Chain(actual, headers), kind, x) ==> GrantsBy(like, actual, kind, x)
    ensures GrantsRows(Chain(actual, headers), id) ==> GrantsRows(actual, id)
  {
    if headers != [] {
      var front, last := headers[..|headers| - 1], headers[|headers| - 1];
      ChainNeverWidens(like, actual, front, kind, x, id);
      ImpersonationNeverWidens(like, Chain(actual, front), Some(last), kind, x, id);
    }
  }

  /** A chain of impersonations grants exactly what every payload in it grants. */
  lemma {:induction false} ChainExact(actual: Payload, headers: seq<Payload>, kind: Kind, x: Resource, id: string)
    requires forall h :: h in headers ==> !h.disable
    ensures Chain(actual, headers).disable <==> actual.disable && headers == []
    ensures Grants(Chain(actual, headers), kind, x) <==>
            Grants(actual, kind, x) && forall h :: h in headers ==> Grants(h, kind, x)
    ensures GrantsRows(Chain(actual, headers), id) <==>
            GrantsRows(actual, id) && forall h :: h in headers ==> GrantsRows(h, id)
  {
    if headers != [] {
      var front, last := headers[..|headers| - 1], headers[|headers| - 1];
      assert headers == front + [last];
      ChainExact(actual, front, kind, x, id);
      ImpersonationExact(Chain(actual, front), last, kind, x, id);
      assert last in headers && forall h :: h in headers <==> h in front || h == last;
    }
  }

  /** The order of a chain of impersonations does not matter. */
  lemma ChainOrder(actual: Payload, headers: seq<Payload>, other: seq<Payload>, kind: Kind, x: Resource, id: string)
    requires (forall h :: h in headers ==> !h.disable) && multiset(headers) == multiset(other)
    ensures Grants(Chain(actual, headers), kind, x) <==> Grants(Chain(actual, other), kind, x)
    ensures GrantsRows(Chain(actual, headers), id) <==> GrantsRows(Chain(actual, other), id)
  {
    forall h ensures h in headers <==> h in other {
      assert h in multiset(headers) <==> h in multiset(other);
    }
    ChainExact(actual, headers, kind, x, id);
    ChainExact(actual, other, kind, x, id);
  }
}
