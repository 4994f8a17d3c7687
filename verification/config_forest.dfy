/**
 The selected-configs preview (catalog/report_controllers.go): a flat selection of configs becomes
 a forest of linked nodes, sibling lists are sorted in place, and the forest is flattened again.
 */
module ConfigForest {
  import opened Base
  import opened Forests
  import opened Text

  /** The text of a UUID; it never contains the separator of the sort key. */
  type Id = s: string | '/' !in s witness ""

  /** The outcome of parsing a piece of text as a UUID; the parser itself is left open. */
  type Parser = string -> Option<Id>

  datatype Config = Config(id: Id, name: string, kind: string, parentId: Option<Id>, path: string)

  class ConfigTreeNode {
    const config: Config
    var edgeType: string
    var children: seq<ConfigTreeNode>

    constructor (config: Config)
      ensures this.config == config && edgeType == "target" && children == []
    {
      this.config, edgeType, children := config, "target", [];
    }
  }

  // ---------------------------------------------------------------- choosing a parent

  ghost predicate DistinctIds(configs: seq<Config>) {
    forall i, j :: 0 <= i < j < |configs| ==> configs[i].id != configs[j].id
  }

  ghost function Ids(configs: seq<Config>): set<Id> {
    set i | 0 <= i < |configs| :: configs[i].id
  }

  ghost function IdList(configs: seq<Config>): seq<Id> {
    seq(|configs|, i requires 0 <= i < |configs| => configs[i].id)
  }

  ghost function ById(configs: seq<Config>, id: Id): Config
    requires id in Ids(configs)
  {
    var i :| 0 <= i < |configs| && configs[i].id == id;
    configs[i]
  }

  /** The selection as a table, forgetting its order. */
  ghost function Table(configs: seq<Config>): map<Id, Config> {
    map id | id in Ids(configs) :: ById(configs, id)
  }

  lemma ByIdIs(configs: seq<Config>, i: nat)
    requires DistinctIds(configs) && i < |configs|
    ensures configs[i].id in Ids(configs) && ById(configs, configs[i].id) == configs[i]
  {
  }

  /** The last path segment that names a selected config other than `self`. */
  function LastSelected(segments: seq<string>, self: Id, selected: set<Id>, parse: Parser): Option<Id> {
    if segments == [] then None
    else
      var last := parse(segments[|segments| - 1]);
      if last.Some? && last.value != self && last.value in selected then last
      else LastSelected(segments[..|segments| - 1], self, selected, parse)
  }

  /** The parent under which a config is hung, if any. */
  function ChosenParent(c: Config, selected: set<Id>, parse: Parser): (p: Option<Id>)
    ensures p.Some? ==> p.value in selected && p.value != c.id
  {
    if c.parentId.Some? && c.parentId.value in selected && c.parentId.value != c.id then c.parentId
    else if c.path == "" then None
    else
      LastSelectedIsSelected(Split(c.path, '.'), c.id, selected, parse);
      LastSelected(Split(c.path, '.'), c.id, selected, parse)
  }

  lemma {:induction false} LastSelectedIsSelected(segments: seq<string>, self: Id, selected: set<Id>, parse: Parser)
    ensures var p := LastSelected(segments, self, selected, parse);
            p.Some? ==> p.value in selected && p.value != self
  {
    if segments != [] {
      LastSelectedIsSelected(segments[..|segments| - 1], self, selected, parse);
    }
  }

  ghost predicate Selectable(c: Config, selected: set<Id>, id: Id) {
    id in selected && id != c.id
  }

  /** The segment names a selected config other than `c`, and no later segment does. */
  ghost predicate LastNamed(c: Config, selected: set<Id>, parse: Parser, segments: seq<string>, k: nat) {
    && k < |segments| && parse(segments[k]).Some? && Selectable(c, selected, parse(segments[k]).value)
    && NoneNamed(c, selected, parse, segments[k + 1..])
  }

  ghost predicate NoneNamed(c: Config, selected: set<Id>, parse: Parser, segments: seq<string>) {
    forall j :: 0 <= j < |segments| ==>
      parse(segments[j]).None? || !Selectable(c, selected, parse(segments[j]).value)
  }

  lemma {:induction false} LastSelectedIs(
      c: Config, selected: set<Id>, parse: Parser, segments: seq<string>, k: nat)
    requires LastNamed(c, selected, parse, segments, k)
    ensures LastSelected(segments, c.id, selected, parse) == parse(segments[k])
  {
    var last := |segments| - 1;
    if k < last {
      assert segments[k + 1..][last - k - 1] == segments[last];
      assert segments[..last][k + 1..] == segments[k + 1..][..last - k - 1];
      LastSelectedIs(c, selected, parse, segments[..last], k);
    }
  }

  lemma {:induction false} NoneSelected(c: Config, selected: set<Id>, parse: Parser, segments: seq<string>)
    requires NoneNamed(c, selected, parse, segments)
    ensures LastSelected(segments, c.id, selected, parse).None?
  {
    if segments != [] { NoneSelected(c, selected, parse, segments[..|segments| - 1]); }
  }

  /**
   A selected parent id other than the config's own is the parent.  Without one it is the id in the last path segment
   that names a selected config other than this, and without such a segment there is no parent.
   */
  lemma ParentChosen(c: Config, selected: set<Id>, parse: Parser)
    ensures var p, segments := ChosenParent(c, selected, parse), Split(c.path, '.');
            if c.parentId.Some? && Selectable(c, selected, c.parentId.value) then p == c.parentId
            else if c.path == "" then p.None?
            else
              && (forall k: nat :: LastNamed(c, selected, parse, segments, k) ==> p == parse(segments[k]))
              && (NoneNamed(c, selected, parse, segments) ==> p.None?)
  {
    var segments := Split(c.path, '.');
    forall k: nat | LastNamed(c, selected, parse, segments, k) { LastSelectedIs(c, selected, parse, segments, k); }
    if NoneNamed(c, selected, parse, segments) { NoneSelected(c, selected, parse, segments); }
  }

  /** The chosen-parent relation of a selection. */
  ghost function ParentsOf(table: map<Id, Config>, parse: Parser): (par: Parents<Id>)
    ensures Closed(par)
  {
    map id | id in table :: ChosenParent(table[id], table.Keys, parse)
  }

  /** The ids of the configs, in order, that chose `p`. */
  ghost function ChildrenIn(configs: seq<Config>, par: Parents<Id>, p: Id): seq<Id>
    requires forall i :: 0 <= i < |configs| ==> configs[i].id in par
  {
    if configs == [] then []
    else
      var c := configs[|configs| - 1].id;
      ChildrenIn(configs[..|configs| - 1], par, p) + (if par[c] == Some(p) then [c] else [])
  }

  /** The ids of the configs, in order, that chose nobody. */
  ghost function RootsIn(configs: seq<Config>, par: Parents<Id>): seq<Id>
    requires forall i :: 0 <= i < |configs| ==> configs[i].id in par
  {
    if configs == [] then []
    else
      var c := configs[|configs| - 1].id;
      RootsIn(configs[..|configs| - 1], par) + (if par[c].None? then [c] else [])
  }

  lemma {:induction false} ChildrenInElements(configs: seq<Config>, par: Parents<Id>, p: Id)
    requires DistinctIds(configs) && forall i :: 0 <= i < |configs| ==> configs[i].id in par
    ensures Distinct(ChildrenIn(configs, par, p))
    ensures forall c :: c in ChildrenIn(configs, par, p) <==> c in Ids(configs) && par[c] == Some(p)
  {
    if configs != [] {
      var front, last := configs[..|configs| - 1], configs[|configs| - 1];
      ChildrenInElements(front, par, p);
      IdsSplit(configs);
    }
  }

  lemma {:induction false} RootsInElements(configs: seq<Config>, par: Parents<Id>)
    requires DistinctIds(configs) && forall i :: 0 <= i < |configs| ==> configs[i].id in par
    ensures Distinct(RootsIn(configs, par))
    ensures forall c :: c in RootsIn(configs, par) <==> c in Ids(configs) && par[c].None?
  {
    if configs != [] {
      RootsInElements(configs[..|configs| - 1], par);
      IdsSplit(configs);
    }
  }

  lemma IdsSplit(configs: seq<Config>)
    requires |configs| > 0
    ensures Ids(configs) == Ids(configs[..|configs| - 1]) + {configs[|configs| - 1].id}
    ensures DistinctIds(configs) ==> configs[|configs| - 1].id !in Ids(configs[..|configs| - 1])
  {
    var front := configs[..|configs| - 1];
    forall x | x in Ids(configs) ensures x in Ids(front) || x == configs[|configs| - 1].id {
      var i :| 0 <= i < |configs| && configs[i].id == x;
      if i < |front| { assert front[i].id == x; }
    }
    forall x | x in Ids(front) ensures x in Ids(configs) {
      var i :| 0 <= i < |front| && front[i].id == x;
      assert configs[i].id == x;
    }
  }

  // ---------------------------------------------------------------- sorting

  /** Siblings are ordered by type, then name, then id. */
  function SortKey(c: Config): string {
    c.kind + "/" + c.name + "/" + c.id
  }

  lemma SlashSuffix(a: string, x: string, b: string, y: string)
    requires '/' !in x && '/' !in y && a + "/" + x == b + "/" + y
    ensures x == y
  {
    var s := a + "/" + x;
    assert s[|a|] == '/' && s[|b|] == '/';
    if |a| < |b| { assert false; }
    if |b| < |a| { assert false; }
    assert s[|a| + 1..] == x && s[|b| + 1..] == y;
  }

  /** Two configs with the same sort key have the same id. */
  lemma SortKeyIdentifies(c: Config, d: Config)
    requires SortKey(c) == SortKey(d)
    ensures c.id == d.id
  {
    SlashSuffix(c.kind + "/" + c.name, c.id, d.kind + "/" + d.name, d.id);
  }

  ghost function KeyOf(table: map<Id, Config>): Id -> string {
    (id: Id) => if id in table then SortKey(table[id]) else ""
  }

  ghost function SortedChildren(configs: seq<Config>, parse: Parser, p: Id): seq<Id> {
    StableSort(ChildrenIn(configs, ParentsOf(Table(configs), parse), p), KeyOf(Table(configs)))
  }

  ghost function SortedRoots(configs: seq<Config>, parse: Parser): seq<Id> {
    StableSort(RootsIn(configs, ParentsOf(Table(configs), parse)), KeyOf(Table(configs)))
  }

  /** Every sibling list in sorted order. */
  ghost function SortedKids(configs: seq<Config>, parse: Parser): map<Id, seq<Id>> {
    map p | p in Ids(configs) :: SortedChildren(configs, parse, p)
  }

  ghost function InputKids(configs: seq<Config>, parse: Parser): map<Id, seq<Id>> {
    map p | p in Ids(configs) :: ChildrenIn(configs, ParentsOf(Table(configs), parse), p)
  }

  lemma ChildrenCorrect(configs: seq<Config>, parse: Parser, p: Id)
    requires DistinctIds(configs)
    ensures var par := ParentsOf(Table(configs), parse);
            var xs, ys := ChildrenIn(configs, par, p), SortedChildren(configs, parse, p);
            ChildrenOf(par, p, xs) && ChildrenOf(par, p, ys)
  {
    ChildrenInElements(configs, ParentsOf(Table(configs), parse), p);
    StableSortElements(ChildrenIn(configs, ParentsOf(Table(configs), parse), p), KeyOf(Table(configs)));
  }

  /** Both the lists in selection order and the sorted ones hold each node's children once. */
  lemma KidsCorrect(configs: seq<Config>, parse: Parser)
    requires DistinctIds(configs)
    ensures KidsOf(ParentsOf(Table(configs), parse), InputKids(configs, parse))
    ensures KidsOf(ParentsOf(Table(configs), parse), SortedKids(configs, parse))
    ensures RootsOf(ParentsOf(Table(configs), parse), RootsIn(configs, ParentsOf(Table(configs), parse)))
    ensures RootsOf(ParentsOf(Table(configs), parse), SortedRoots(configs, parse))
  {
    forall p { ChildrenCorrect(configs, parse, p); }
    RootsInElements(configs, ParentsOf(Table(configs), parse));
    StableSortElements(RootsIn(configs, ParentsOf(Table(configs), parse)), KeyOf(Table(configs)));
  }

  // ---------------------------------------------------------------- the specification of the preview

  /** The flattened ids: a preorder walk of the sorted forest. */
  ghost function Preview(configs: seq<Config>, parse: Parser): seq<Id>
    requires DistinctIds(configs)
  {
    KidsCorrect(configs, parse);
    RootsLevel(ParentsOf(Table(configs), parse), SortedRoots(configs, parse));
    Preorder(ParentsOf(Table(configs), parse), SortedKids(configs, parse), SortedRoots(configs, parse), 0)
  }

  /** The preview lists, once each, exactly the configs that are not on or below a parent cycle. */
  lemma PreviewLists(configs: seq<Config>, parse: Parser)
    requires DistinctIds(configs)
    ensures Distinct(Preview(configs, parse))
    ensures forall id :: id in Preview(configs, parse) <==> Grounded(ParentsOf(Table(configs), parse), id)
  {
    KidsCorrect(configs, parse);
    WalkFromRoots(ParentsOf(Table(configs), parse), SortedKids(configs, parse), SortedRoots(configs, parse));
  }

  lemma IdListFacts(configs: seq<Config>)
    requires DistinctIds(configs)
    ensures Distinct(IdList(configs)) && forall id :: id in IdList(configs) <==> id in Ids(configs)
  {
    forall id | id in Ids(configs) ensures id in IdList(configs) {
      var i :| 0 <= i < |configs| && configs[i].id == id;
      assert IdList(configs)[i] == id;
    }
  }

  /**
   Flattening the forest gives back the selection, each config exactly once, precisely when the
   chosen parents contain no cycle.
   */
  lemma PreviewIsPermutationIffAcyclic(configs: seq<Config>, parse: Parser)
    requires DistinctIds(configs)
    ensures multiset(Preview(configs, parse)) == multiset(IdList(configs)) <==>
        Acyclic(ParentsOf(Table(configs), parse))
  {
    var par := ParentsOf(Table(configs), parse);
    var out, ids := Preview(configs, parse), IdList(configs);
    PreviewLists(configs, parse);
    IdListFacts(configs);
    if Acyclic(par) {
      forall id ensures id in out <==> id in ids {
        if Grounded(par, id) { DepthStep(par, id); }
      }
      SameElementsSameMultiset(out, ids);
    } else {
      var id :| id in par && !Grounded(par, id);
      assert id in multiset(ids) && id !in multiset(out);
    }
  }

  /** Two configs that name each other as parent are both selected, yet the preview is empty. */
  lemma MutualParentsAreLost(a: Config, b: Config, parse: Parser)
    requires a.id != b.id && a.parentId == Some(b.id) && b.parentId == Some(a.id)
    ensures DistinctIds([a, b]) && Preview([a, b], parse) == []
  {
    var configs := [a, b];
    var par := ParentsOf(Table(configs), parse);
    ByIdIs(configs, 0);
    ByIdIs(configs, 1);
    assert configs[0] == a && configs[1] == b;
    assert par[a.id] == Some(b.id) && par[b.id] == Some(a.id);
    assert RootsIn(configs[..1], par) == [] by { assert configs[..1][..0] == []; }
    assert RootsIn(configs, par) == [];
  }

  /** Every ancestor is listed before its descendants. */
  lemma PreviewAncestorsFirst(configs: seq<Config>, parse: Parser, a: Id, y: Id)
    requires DistinctIds(configs)
    requires Grounded(ParentsOf(Table(configs), parse), a) && Grounded(ParentsOf(Table(configs), parse), y)
    requires Above(ParentsOf(Table(configs), parse), a, y)
    ensures Precedes(Preview(configs, parse), a, y)
  {
    var par, kids, roots := ParentsOf(Table(configs), parse), SortedKids(configs, parse), SortedRoots(configs, parse);
    KidsCorrect(configs, parse);
    PreviewLists(configs, parse);
    RootsLevel(par, roots);
    PreorderAncestorsFirst(par, kids, roots, 0, a, y);
  }

  /** Sibling lists are sorted rearrangements of the configs that chose the parent. */
  lemma SiblingsSorted(configs: seq<Config>, parse: Parser, p: Id)
    ensures SortedBy(SortedChildren(configs, parse, p), KeyOf(Table(configs)))
    ensures multiset(SortedChildren(configs, parse, p)) ==
            multiset(ChildrenIn(configs, ParentsOf(Table(configs), parse), p))
    ensures SortedBy(SortedRoots(configs, parse), KeyOf(Table(configs)))
  {
    StableSortCorrect(ChildrenIn(configs, ParentsOf(Table(configs), parse), p), KeyOf(Table(configs)));
    StableSortCorrect(RootsIn(configs, ParentsOf(Table(configs), parse)), KeyOf(Table(configs)));
  }

  // ---------------------------------------------------------------- the order of siblings, field by field

  /**
   `c` has the smaller type at the first difference, or an equal type and the smaller name, or an equal type and name
   and the smaller id.  A field that ends first is compared by the slash behind it.
   */
  ghost predicate ListedBefore(c: Config, d: Config) {
    || (exists k: nat :: SmallerAt(c.kind + "/", d.kind + "/", k))
    || (c.kind == d.kind && exists k: nat :: SmallerAt(c.name + "/", d.name + "/", k))
    || (c.kind == d.kind && c.name == d.name && exists k: nat :: SmallerAt(c.id, d.id, k))
  }

  lemma SmallerBehind(prefix: string, a: string, b: string, moreA: string, moreB: string, k: nat)
    requires SmallerAt(a, b, k)
    ensures SmallerAt(prefix + a + moreA, prefix + b + moreB, |prefix| + k)
  {
    var s, t := prefix + a + moreA, prefix + b + moreB;
    assert s[..|prefix| + k] == prefix + a[..k] && t[..|prefix| + k] == prefix + b[..k];
  }

  /** Two types, or two names, that differ at a position both have are ordered by that position. */
  lemma DifferenceInside(a: string, b: string, k: nat)
    requires SmallerAt(a, b, k)
    ensures SmallerAt(a + "/", b + "/", k)
  {
    SmallerBehind("", a, b, "/", "/", k);
    assert "" + a + "/" == a + "/" && "" + b + "/" == b + "/";
  }

  lemma ListedBeforeIsLess(c: Config, d: Config)
    requires ListedBefore(c, d)
    ensures Less(SortKey(c), SortKey(d))
  {
    if k: nat :| SmallerAt(c.kind + "/", d.kind + "/", k) {
      LessByType(c, d, k);
    } else if k: nat :| c.kind == d.kind && SmallerAt(c.name + "/", d.name + "/", k) {
      LessByName(c, d, k);
    } else {
      var k: nat :| SmallerAt(c.id, d.id, k);
      LessById(c, d, k);
    }
  }

  lemma LessByType(c: Config, d: Config, k: nat)
    requires SmallerAt(c.kind + "/", d.kind + "/", k)
    ensures Less(SortKey(c), SortKey(d))
  {
    SmallerBehind("", c.kind + "/", d.kind + "/", c.name + "/" + c.id, d.name + "/" + d.id, k);
    assert SortKey(c) == "" + (c.kind + "/") + (c.name + "/" + c.id);
    assert SortKey(d) == "" + (d.kind + "/") + (d.name + "/" + d.id);
    LessAtDifference(SortKey(c), SortKey(d), |""| + k);
  }

  lemma LessByName(c: Config, d: Config, k: nat)
    requires c.kind == d.kind && SmallerAt(c.name + "/", d.name + "/", k)
    ensures Less(SortKey(c), SortKey(d))
  {
    SmallerBehind(c.kind + "/", c.name + "/", d.name + "/", c.id, d.id, k);
    assert SortKey(c) == (c.kind + "/") + (c.name + "/") + c.id;
    assert SortKey(d) == (c.kind + "/") + (d.name + "/") + d.id;
    LessAtDifference(SortKey(c), SortKey(d), |c.kind + "/"| + k);
  }

  lemma LessById(c: Config, d: Config, k: nat)
    requires c.kind == d.kind && c.name == d.name && SmallerAt(c.id, d.id, k)
    ensures Less(SortKey(c), SortKey(d))
  {
    var prefix := c.kind + "/" + c.name + "/";
    SmallerBehind(prefix, c.id, d.id, "", "", k);
    assert SortKey(c) == prefix + c.id + "" && SortKey(d) == prefix + d.id + "";
    LessAtDifference(SortKey(c), SortKey(d), |prefix| + k);
  }

  /** Both are in the selection and hang under the same parent, or are both roots. */
  ghost predicate Siblings(configs: seq<Config>, parse: Parser, c: Config, d: Config) {
    && c in configs && d in configs
    && ChosenParent(c, Ids(configs), parse) == ChosenParent(d, Ids(configs), parse)
  }

  /** The list of siblings that a config is in. */
  ghost function SiblingList(configs: seq<Config>, parse: Parser, c: Config): seq<Id> {
    var p := ChosenParent(c, Ids(configs), parse);
    if p.Some? then SortedChildren(configs, parse, p.value) else SortedRoots(configs, parse)
  }

  lemma SelectedEntry(configs: seq<Config>, parse: Parser, c: Config)
    requires DistinctIds(configs) && c in configs
    ensures c.id in Ids(configs) && Table(configs).Keys == Ids(configs) && Table(configs)[c.id] == c
    ensures ParentsOf(Table(configs), parse)[c.id] == ChosenParent(c, Ids(configs), parse)
  {
    var i :| 0 <= i < |configs| && configs[i] == c;
    ByIdIs(configs, i);
    TableKeys(configs);
  }

  lemma InChildList(configs: seq<Config>, parse: Parser, p: Id, id: Id)
    requires DistinctIds(configs) && id in ParentsOf(Table(configs), parse)
    requires ParentsOf(Table(configs), parse)[id] == Some(p)
    ensures id in SortedChildren(configs, parse, p)
  {
    ChildrenCorrect(configs, parse, p);
  }

  lemma InRootList(configs: seq<Config>, parse: Parser, id: Id)
    requires DistinctIds(configs) && id in ParentsOf(Table(configs), parse)
    requires ParentsOf(Table(configs), parse)[id].None?
    ensures id in SortedRoots(configs, parse)
  {
    KidsCorrect(configs, parse);
  }

  lemma InSiblingList(configs: seq<Config>, parse: Parser, c: Config)
    requires DistinctIds(configs) && c in configs
    ensures c.id in SiblingList(configs, parse, c)
  {
    SelectedEntry(configs, parse, c);
    var p := ChosenParent(c, Ids(configs), parse);
    if p.Some? { InChildList(configs, parse, p.value, c.id); } else { InRootList(configs, parse, c.id); }
  }

  lemma SiblingListSorted(configs: seq<Config>, parse: Parser, c: Config)
    ensures SortedBy(SiblingList(configs, parse, c), KeyOf(Table(configs)))
  {
    var p := ChosenParent(c, Ids(configs), parse);
    SiblingsSorted(configs, parse, if p.Some? then p.value else "");
  }

  lemma SortedPrecedes(xs: seq<Id>, key: Id -> string, a: Id, b: Id)
    requires SortedBy(xs, key) && a in xs && b in xs && Less(key(a), key(b))
    ensures exists i, j :: 0 <= i < j < |xs| && xs[i] == a && xs[j] == b
  {
    var i :| 0 <= i < |xs| && xs[i] == a;
    var j :| 0 <= j < |xs| && xs[j] == b;
    LessTrichotomy(key(a), key(b));
  }

  /** Siblings are listed by type, then name, then id. */
  lemma SiblingsByFields(configs: seq<Config>, parse: Parser, c: Config, d: Config)
    requires DistinctIds(configs) && Siblings(configs, parse, c, d) && ListedBefore(c, d)
    ensures SiblingList(configs, parse, c) == SiblingList(configs, parse, d)
    ensures Precedes(SiblingList(configs, parse, c), c.id, d.id)
  {
    InSiblingList(configs, parse, c);
    InSiblingList(configs, parse, d);
    SelectedEntry(configs, parse, c);
    SelectedEntry(configs, parse, d);
    SiblingListSorted(configs, parse, c);
    ListedBeforeIsLess(c, d);
    SortedPrecedes(SiblingList(configs, parse, c), KeyOf(Table(configs)), c.id, d.id);
  }

  /**
   In the preview a sibling that is smaller by type, name or id comes first, and so does everything below it.
   */
  lemma PreviewSiblingsByFields(configs: seq<Config>, parse: Parser, c: Config, d: Config, y: Id)
    requires DistinctIds(configs) && Siblings(configs, parse, c, d) && ListedBefore(c, d)
    requires AtOrBelow(ParentsOf(Table(configs), parse), c.id, y)
    ensures Precedes(Preview(configs, parse), y, d.id)
  {
    var par, kids, roots := ParentsOf(Table(configs), parse), SortedKids(configs, parse), SortedRoots(configs, parse);
    SiblingsByFields(configs, parse, c, d);
    SelectedEntry(configs, parse, c);
    KidsCorrect(configs, parse);
    SiblingListIn(configs, parse, c);
    SiblingsOrdered(par, kids, roots, c.id, d.id, y);
  }

  lemma SiblingListIn(configs: seq<Config>, parse: Parser, c: Config)
    requires DistinctIds(configs) && c in configs
    ensures ListOf(ParentsOf(Table(configs), parse), SortedKids(configs, parse), SortedRoots(configs, parse), c.id)
            == SiblingList(configs, parse, c)
  {
    SelectedEntry(configs, parse, c);
  }

  // ---------------------------------------------------------------- independence of the selection order

  lemma SameSelection(configs: seq<Config>, other: seq<Config>)
    requires DistinctIds(configs) && DistinctIds(other) && multiset(configs) == multiset(other)
    ensures Table(configs) == Table(other)
  {
    forall i | 0 <= i < |configs|
      ensures configs[i].id in Ids(other) && ById(other, configs[i].id) == configs[i]
    {
      assert configs[i] in multiset(other);
      var j :| 0 <= j < |other| && other[j] == configs[i];
      ByIdIs(other, j);
    }
    forall j | 0 <= j < |other| ensures other[j].id in Ids(configs) {
      assert other[j] in multiset(configs);
    }
    assert Ids(configs) == Ids(other);
    forall id | id in Ids(configs) ensures ById(configs, id) == ById(other, id) {
      var i :| 0 <= i < |configs| && configs[i].id == id;
      ByIdIs(configs, i);
    }
  }

  ghost predicate WellKeyed(table: map<Id, Config>) {
    forall id :: id in table ==> table[id].id == id
  }

  lemma TableWellKeyed(configs: seq<Config>)
    ensures WellKeyed(Table(configs))
  {
  }

  /** Sort keys identify configs, so the sorted order of a set of siblings is unique. */
  lemma SortAgrees(table: map<Id, Config>, xs: seq<Id>, ys: seq<Id>)
    requires WellKeyed(table)
    requires Distinct(xs) && Distinct(ys) && (forall x :: x in xs <==> x in ys)
    requires forall x :: x in xs ==> x in table
    ensures StableSort(xs, KeyOf(table)) == StableSort(ys, KeyOf(table))
  {
    var key := KeyOf(table);
    StableSortCorrect(xs, key);
    StableSortCorrect(ys, key);
    SameElementsSameMultiset(xs, ys);
    forall a, b | a in multiset(xs) && b in multiset(xs) && key(a) == key(b) ensures a == b {
      SortKeyIdentifies(table[a], table[b]);
    }
    SortedUnique(StableSort(xs, key), StableSort(ys, key), key);
  }

  lemma SortedChildrenAgree(configs: seq<Config>, other: seq<Config>, parse: Parser, p: Id)
    requires DistinctIds(configs) && DistinctIds(other) && Table(configs) == Table(other)
    ensures SortedChildren(configs, parse, p) == SortedChildren(other, parse, p)
  {
    var par := ParentsOf(Table(configs), parse);
    TableWellKeyed(configs);
    TableKeys(configs);
    TableKeys(other);
    ChildrenInElements(configs, par, p);
    ChildrenInElements(other, par, p);
    SortAgrees(Table(configs), ChildrenIn(configs, par, p), ChildrenIn(other, par, p));
  }

  lemma SortedRootsAgree(configs: seq<Config>, other: seq<Config>, parse: Parser)
    requires DistinctIds(configs) && DistinctIds(other) && Table(configs) == Table(other)
    ensures SortedRoots(configs, parse) == SortedRoots(other, parse)
  {
    var par := ParentsOf(Table(configs), parse);
    TableWellKeyed(configs);
    TableKeys(configs);
    TableKeys(other);
    RootsInElements(configs, par);
    RootsInElements(other, par);
    SortAgrees(Table(configs), RootsIn(configs, par), RootsIn(other, par));
  }

  lemma TableKeys(configs: seq<Config>)
    ensures Table(configs).Keys == Ids(configs)
  {
  }

  lemma SortedKidsAgree(configs: seq<Config>, other: seq<Config>, parse: Parser)
    requires DistinctIds(configs) && DistinctIds(other) && Table(configs) == Table(other)
    ensures SortedKids(configs, parse) == SortedKids(other, parse)
  {
    TableKeys(configs);
    TableKeys(other);
    forall p | p in Ids(configs) { SortedChildrenAgree(configs, other, parse, p); }
  }

  /** Rearranging the selection does not change the preview. */
  lemma PreviewIgnoresSelectionOrder(configs: seq<Config>, other: seq<Config>, parse: Parser)
    requires DistinctIds(configs) && DistinctIds(other) && multiset(configs) == multiset(other)
    ensures Preview(configs, parse) == Preview(other, parse)
  {
    SameSelection(configs, other);
    SortedKidsAgree(configs, other, parse);
    SortedRootsAgree(configs, other, parse);
  }
}
