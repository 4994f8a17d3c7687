/**
 What the chosen parents mean when the configs carry well-formed materialised paths: every selected
 config hangs under its nearest selected ancestor in the full config tree.
 */
module MaterialisedPaths {
  import opened Base
  import opened Forests
  import opened Text
  import opened ConfigForest

  /** All ancestors of `x` in the full tree, root first. */
  ghost function Ancestors(up: Parents<Id>, x: Id): seq<Id>
    requires Grounded(up, x)
    decreases Depth(up, x)
  {
    DepthStep(up, x);
    if up[x].None? then [] else Ancestors(up, up[x].value) + [up[x].value]
  }

  /** The ids a path mentions, without the config itself. */
  ghost function PathIds(segments: seq<string>, self: Id, parse: Parser): seq<Id> {
    if segments == [] then []
    else
      var last := parse(segments[|segments| - 1]);
      PathIds(segments[..|segments| - 1], self, parse) +
      (if last.Some? && last.value != self then [last.value] else [])
  }

  /** The path spells out the ancestors, and the parent id, when present, is the direct parent. */
  ghost predicate WellFormed(up: Parents<Id>, c: Config, parse: Parser) {
    && Grounded(up, c.id)
    && (c.parentId.Some? ==> c.id in up && c.parentId == up[c.id])
    && (if c.path == "" then [] else PathIds(Split(c.path, '.'), c.id, parse)) == Ancestors(up, c.id)
  }

  ghost function LastIn(ids: seq<Id>, selected: set<Id>): Option<Id> {
    if ids == [] then None
    else if ids[|ids| - 1] in selected then Some(ids[|ids| - 1])
    else LastIn(ids[..|ids| - 1], selected)
  }

  /** `a` is the closest selected config strictly above `x`. */
  ghost predicate NearestSelected(up: Parents<Id>, selected: set<Id>, x: Id, a: Id)
    requires Grounded(up, x)
  {
    && a in selected && Grounded(up, a) && Above(up, a, x)
    && forall b :: b in selected && Grounded(up, b) && Above(up, b, x) ==> Depth(up, b) <= Depth(up, a)
  }

  lemma {:induction false} LastSelectedIsLastIn(segments: seq<string>, self: Id, selected: set<Id>, parse: Parser)
    ensures LastSelected(segments, self, selected, parse) == LastIn(PathIds(segments, self, parse), selected)
  {
    if segments != [] {
      var front, last := segments[..|segments| - 1], parse(segments[|segments| - 1]);
      LastSelectedIsLastIn(front, self, selected, parse);
      var ids := PathIds(segments, self, parse);
      if last.Some? && last.value != self {
        assert ids[..|ids| - 1] == PathIds(front, self, parse);
      } else {
        assert ids == PathIds(front, self, parse);
      }
    }
  }

  /** One step up: what lies above `x` is its parent and what lies above its parent. */
  lemma AboveStep(up: Parents<Id>, x: Id, a: Id)
    requires Grounded(up, x) && Grounded(up, a)
    ensures x in up
    ensures up[x].None? ==> !Above(up, a, x)
    ensures up[x].Some? ==>
              Grounded(up, up[x].value) && (Above(up, a, x) <==> a == up[x].value || Above(up, a, up[x].value))
  {
    DepthStep(up, x);
    if up[x].Some? {
      var p := up[x].value;
      if Depth(up, a) == Depth(up, p) { assert AncestorAt(up, p, Depth(up, a)) == p; }
    }
  }

  lemma {:induction false} LastAncestorIsNearest(up: Parents<Id>, selected: set<Id>, x: Id)
    requires Grounded(up, x)
    ensures var p := LastIn(Ancestors(up, x), selected);
            && (p.Some? ==> NearestSelected(up, selected, x, p.value))
            && (p.None? ==> forall b :: b in selected && Grounded(up, b) ==> !Above(up, b, x))
    decreases Depth(up, x)
  {
    DepthStep(up, x);
    if up[x].Some? {
      var parent := up[x].value;
      LastAncestorIsNearest(up, selected, parent);
      var ids := Ancestors(up, x);
      assert ids[..|ids| - 1] == Ancestors(up, parent);
      forall b | Grounded(up, b) ensures Above(up, b, x) <==> b == parent || Above(up, b, parent) {
        AboveStep(up, x, b);
      }
    } else {
      forall b | Grounded(up, b) ensures !Above(up, b, x) { AboveStep(up, x, b); }
    }
  }

  /** At most one config is the nearest selected ancestor. */
  lemma NearestUnique(up: Parents<Id>, selected: set<Id>, x: Id, a: Id, b: Id)
    requires Grounded(up, x) && NearestSelected(up, selected, x, a) && NearestSelected(up, selected, x, b)
    ensures a == b
  {
  }

  /** For a well-formed config the chosen parent is the nearest selected ancestor. */
  lemma ChosenParentIsNearest(up: Parents<Id>, c: Config, selected: set<Id>, parse: Parser)
    requires WellFormed(up, c, parse)
    ensures forall a :: ChosenParent(c, selected, parse) == Some(a) <==> NearestSelected(up, selected, c.id, a)
  {
    var p := ChosenParent(c, selected, parse);
    LastAncestorIsNearest(up, selected, c.id);
    assert p == LastIn(Ancestors(up, c.id), selected) by {
      if c.path != "" { LastSelectedIsLastIn(Split(c.path, '.'), c.id, selected, parse); }
      if c.parentId.Some? && c.parentId.value in selected {
        DepthStep(up, c.id);
        assert c.parentId.value != c.id;
      }
    }
    forall a | NearestSelected(up, selected, c.id, a) ensures p == Some(a) {
      assert p.Some?;
      NearestUnique(up, selected, c.id, a, p.value);
    }
  }

  ghost predicate AllWellFormed(up: Parents<Id>, configs: seq<Config>, parse: Parser) {
    forall i :: 0 <= i < |configs| ==> WellFormed(up, configs[i], parse)
  }

  lemma ForestParentIsNearest(up: Parents<Id>, configs: seq<Config>, parse: Parser, x: Id)
    requires AllWellFormed(up, configs, parse) && x in Ids(configs)
    ensures Grounded(up, x)
    ensures forall a :: ParentsOf(Table(configs), parse)[x] == Some(a) <==> NearestSelected(up, Ids(configs), x, a)
  {
    var c := ById(configs, x);
    assert Table(configs).Keys == Ids(configs);
    ChosenParentIsNearest(up, c, Ids(configs), parse);
  }

  lemma ForestParentIsHigher(up: Parents<Id>, configs: seq<Config>, parse: Parser, x: Id, p: Id)
    requires AllWellFormed(up, configs, parse) && x in Ids(configs)
    requires ParentsOf(Table(configs), parse)[x] == Some(p)
    ensures p in Ids(configs) && Grounded(up, x) && Grounded(up, p) && Depth(up, p) < Depth(up, x)
  {
    ForestParentIsNearest(up, configs, parse, x);
    assert NearestSelected(up, Ids(configs), x, p);
  }

  /** No selected config lies strictly above `x`. */
  ghost predicate NothingSelectedAbove(up: Parents<Id>, selected: set<Id>, x: Id)
    requires Grounded(up, x)
  {
    forall a :: a in selected && Grounded(up, a) ==> !Above(up, a, x)
  }

  lemma RootIffNothingAbove(up: Parents<Id>, configs: seq<Config>, parse: Parser, x: Id)
    requires AllWellFormed(up, configs, parse) && x in Ids(configs) && Grounded(up, x)
    ensures ParentsOf(Table(configs), parse)[x].None? <==> NothingSelectedAbove(up, Ids(configs), x)
  {
    var p := ParentsOf(Table(configs), parse)[x];
    ForestParentIsNearest(up, configs, parse, x);
    LastAncestorIsNearest(up, Ids(configs), x);
    var q := LastIn(Ancestors(up, x), Ids(configs));
    if q.Some? {
      assert p == Some(q.value);
    } else if p.Some? {
      assert false;
    }
  }

  /** Well-formed paths leave no cycle, so the preview is a permutation of the selection. */
  lemma WellFormedPreview(up: Parents<Id>, configs: seq<Config>, parse: Parser)
    requires DistinctIds(configs) && AllWellFormed(up, configs, parse)
    ensures Acyclic(ParentsOf(Table(configs), parse))
    ensures multiset(Preview(configs, parse)) == multiset(IdList(configs))
  {
    var par := ParentsOf(Table(configs), parse);
    var rank: Id -> nat := x => if Grounded(up, x) then Depth(up, x) else 0;
    forall x | x in par && par[x].Some? ensures rank(par[x].value) < rank(x) {
      ForestParentIsHigher(up, configs, parse, x, par[x].value);
    }
    forall x | x in par ensures Grounded(par, x) { DescendingGrounded(par, rank, x); }
    PreviewIsPermutationIffAcyclic(configs, parse);
  }

  /** The roots of the forest are exactly the configs without a selected ancestor. */
  lemma WellFormedRoots(up: Parents<Id>, configs: seq<Config>, parse: Parser, x: Id)
    requires DistinctIds(configs) && AllWellFormed(up, configs, parse)
    ensures x in SortedRoots(configs, parse) <==>
            x in Ids(configs) && Grounded(up, x) && NothingSelectedAbove(up, Ids(configs), x)
  {
    KidsCorrect(configs, parse);
    if x in Ids(configs) {
      ForestParentIsNearest(up, configs, parse, x);
      RootIffNothingAbove(up, configs, parse, x);
    }
  }
}
