/**
 The relationship tree of one config (cmd/catalog_get.go): related configs are hung, by their dotted
 paths, below the config they belong to; whatever has no known parent hangs below the root.
 */
module RelationshipTree {
  import opened Base
  import opened Forests
  import opened Text

  type Id = string

  datatype RelatedConfig = RelatedConfig(id: Id, path: string)

  class RelatedConfigNode {
    const id: Id
    var children: seq<RelatedConfigNode>

    constructor (id: Id)
      ensures this.id == id && children == []
    {
      this.id, children := id, [];
    }
  }

  /** Distinct related configs, none of them the root. */
  ghost predicate DistinctFrom(root: Id, related: seq<RelatedConfig>) {
    && (forall i, j :: 0 <= i < j < |related| ==> related[i].id != related[j].id)
    && (forall i :: 0 <= i < |related| ==> related[i].id != root)
  }

  // ---------------------------------------------------------------- choosing a parent

  /** The segment before the first non-leading occurrence of `id`, from position `i` on. */
  ghost function SegmentBefore(segments: seq<string>, id: Id, i: nat): string
    requires i <= |segments|
    decreases |segments| - i
  {
    if i == |segments| then ""
    else if segments[i] == id && i > 0 then segments[i - 1]
    else SegmentBefore(segments, id, i + 1)
  }

  ghost function ParentIdFromPath(path: string, id: Id): string {
    if path == "" then "" else SegmentBefore(Split(path, '.'), id, 0)
  }

  /** Position `k` is the first one behind the leading segment that holds the id. */
  ghost predicate FirstAt(segments: seq<string>, id: Id, k: nat) {
    0 < k < |segments| && segments[k] == id && forall j :: 0 < j < k ==> segments[j] != id
  }

  /** No segment behind the leading one holds the id. */
  ghost predicate NotBehindFirst(segments: seq<string>, id: Id) {
    forall j :: 0 < j < |segments| ==> segments[j] != id
  }

  lemma {:induction false} SegmentBeforeIs(segments: seq<string>, id: Id, i: nat, k: nat)
    requires FirstAt(segments, id, k) && i <= k
    ensures SegmentBefore(segments, id, i) == segments[k - 1]
    decreases k - i
  {
    if i < k { SegmentBeforeIs(segments, id, i + 1, k); }
  }

  lemma {:induction false} SegmentBeforeNothing(segments: seq<string>, id: Id, i: nat)
    requires NotBehindFirst(segments, id) && i <= |segments|
    ensures SegmentBefore(segments, id, i) == ""
    decreases |segments| - i
  {
    if i < |segments| { SegmentBeforeNothing(segments, id, i + 1); }
  }

  /** The parent is the segment right before the first later occurrence of the id; without one there is none. */
  lemma ParentIdBySegments(path: string, id: Id)
    ensures forall k: nat :: path != "" && FirstAt(Split(path, '.'), id, k) ==>
                               ParentIdFromPath(path, id) == Split(path, '.')[k - 1]
    ensures path == "" || NotBehindFirst(Split(path, '.'), id) ==> ParentIdFromPath(path, id) == ""
  {
    var segments := Split(path, '.');
    forall k: nat | FirstAt(segments, id, k) { SegmentBeforeIs(segments, id, 0, k); }
    if NotBehindFirst(segments, id) { SegmentBeforeNothing(segments, id, 0); }
  }

  method ParseParentId(path: string, id: Id) returns (parent: string)
    ensures parent == ParentIdFromPath(path, id)
    ensures forall k: nat :: path != "" && FirstAt(Split(path, '.'), id, k) ==> parent == Split(path, '.')[k - 1]
    ensures path == "" || NotBehindFirst(Split(path, '.'), id) ==> parent == ""
  {
    ParentIdBySegments(path, id);
    if path == "" {
      return "";
    }
    var segments := Split(path, '.');
    for i := 0 to |segments|
      invariant SegmentBefore(segments, id, i) == SegmentBefore(segments, id, 0)
    {
      if segments[i] == id && i > 0 {
        return segments[i - 1];
      }
    }
    return "";
  }

  ghost function Known(root: Id, related: seq<RelatedConfig>): set<Id> {
    {root} + set i | 0 <= i < |related| :: related[i].id
  }

  ghost function ById(related: seq<RelatedConfig>, id: Id): RelatedConfig
    requires exists i :: 0 <= i < |related| && related[i].id == id
  {
    var i :| 0 <= i < |related| && related[i].id == id;
    related[i]
  }

  /** The node below which a related config hangs. */
  ghost function HangsUnder(rc: RelatedConfig, root: Id, known: set<Id>): Id {
    var p := ParentIdFromPath(rc.path, rc.id);
    if p != "" && p in known then p else root
  }

  ghost function ParentsOf(root: Id, related: seq<RelatedConfig>): Parents<Id> {
    map id | id in Known(root, related) ::
      if id == root then None else Some(HangsUnder(ById(related, id), root, Known(root, related)))
  }

  ghost function ChildrenIn(related: seq<RelatedConfig>, par: Parents<Id>, p: Id): seq<Id> {
    if related == [] then []
    else
      var c := related[|related| - 1].id;
      ChildrenIn(related[..|related| - 1], par, p) + if c in par && par[c] == Some(p) then [c] else []
  }

  ghost function Kids(root: Id, related: seq<RelatedConfig>): map<Id, seq<Id>> {
    map p | p in Known(root, related) :: ChildrenIn(related, ParentsOf(root, related), p)
  }

  ghost predicate Mentions(related: seq<RelatedConfig>, id: Id) {
    exists i :: 0 <= i < |related| && related[i].id == id
  }

  lemma MentionsSplit(related: seq<RelatedConfig>, id: Id)
    requires |related| > 0
    ensures Mentions(related, id) <==>
            Mentions(related[..|related| - 1], id) || related[|related| - 1].id == id
  {
    var front := related[..|related| - 1];
    if Mentions(front, id) {
      var i :| 0 <= i < |front| && front[i].id == id;
      assert related[i].id == id;
    }
    if Mentions(related, id) && related[|related| - 1].id != id {
      var i :| 0 <= i < |related| && related[i].id == id;
      assert front[i].id == id;
    }
  }

  lemma {:induction false} ChildrenInElements(root: Id, related: seq<RelatedConfig>, par: Parents<Id>, p: Id)
    requires DistinctFrom(root, related)
    ensures Distinct(ChildrenIn(related, par, p))
    ensures forall c :: c in ChildrenIn(related, par, p) <==> Mentions(related, c) && c in par && par[c] == Some(p)
  {
    if related != [] {
      var front := related[..|related| - 1];
      ChildrenInElements(root, front, par, p);
      forall c { MentionsSplit(related, c); }
      var last := related[|related| - 1].id;
      assert !Mentions(front, last);
    }
  }

  lemma KidsCorrect(root: Id, related: seq<RelatedConfig>)
    requires DistinctFrom(root, related)
    ensures KidsOf(ParentsOf(root, related), Kids(root, related)) && RootsOf(ParentsOf(root, related), [root])
  {
    var par := ParentsOf(root, related);
    forall p | p in par ensures ChildrenOf(par, p, ChildrenIn(related, par, p)) {
      ChildrenInElements(root, related, par, p);
      forall c | c in par && par[c] == Some(p) ensures Mentions(related, c) { }
    }
  }

  // ---------------------------------------------------------------- the tree loses nothing

  /** All ids the tree is made of, root first. */
  ghost function AllIds(root: Id, related: seq<RelatedConfig>): seq<Id> {
    [root] + seq(|related|, i requires 0 <= i < |related| => related[i].id)
  }

  /** What a walk from the root meets. */
  ghost function TreeWalk(root: Id, related: seq<RelatedConfig>): seq<Id>
    requires DistinctFrom(root, related)
  {
    KidsCorrect(root, related);
    RootsLevel(ParentsOf(root, related), [root]);
    Preorder(ParentsOf(root, related), Kids(root, related), [root], 0)
  }

  lemma AllIdsFacts(root: Id, related: seq<RelatedConfig>)
    requires DistinctFrom(root, related)
    ensures Distinct(AllIds(root, related))
    ensures forall id :: id in AllIds(root, related) <==> id in ParentsOf(root, related)
  {
    forall id | id in Known(root, related) ensures id in AllIds(root, related) {
      if id != root {
        var i :| 0 <= i < |related| && related[i].id == id;
        assert AllIds(root, related)[i + 1] == id;
      }
    }
  }

  /**
   A walk from the root meets the root and every related config exactly once, precisely when no
   related config lies on or below a cycle of parents; nothing is ever met twice.
   */
  lemma WalkMeetsAllIffAcyclic(root: Id, related: seq<RelatedConfig>)
    requires DistinctFrom(root, related)
    ensures Distinct(TreeWalk(root, related))
    ensures multiset(TreeWalk(root, related)) == multiset(AllIds(root, related)) <==>
            Acyclic(ParentsOf(root, related))
  {
    var par, out, ids := ParentsOf(root, related), TreeWalk(root, related), AllIds(root, related);
    KidsCorrect(root, related);
    WalkFromRoots(par, Kids(root, related), [root]);
    AllIdsFacts(root, related);
    if Acyclic(par) {
      forall id ensures id in out <==> id in ids {
        if Grounded(par, id) { DepthStep(par, id); }
      }
      SameElementsSameMultiset(out, ids);
    } else {
      var id :| id in par && !Grounded(par, id);
      assert id in multiset(ids) && id !in multiset(out);
    }
  }

  /** Every related config is a child of exactly one node, and of that node once. */
  lemma HangsOnce(root: Id, related: seq<RelatedConfig>, i: nat)
    requires DistinctFrom(root, related) && i < |related|
    ensures var kids, c := Kids(root, related), related[i];
            var p := HangsUnder(c, root, Known(root, related));
            && p in kids && multiset(kids[p])[c.id] == 1
            && forall q :: q in kids && c.id in kids[q] ==> q == p
  {
    var par := ParentsOf(root, related);
    KidsCorrect(root, related);
    assert ById(related, related[i].id) == related[i];
    var p := HangsUnder(related[i], root, Known(root, related));
    assert ChildrenOf(par, p, Kids(root, related)[p]);
    DistinctMultiplicity(Kids(root, related)[p], related[i].id);
    forall q | q in Kids(root, related) && related[i].id in Kids(root, related)[q] ensures q == p {
      assert ChildrenOf(par, q, Kids(root, related)[q]);
    }
  }

  /**
   A related config hangs, once, under the config that its path names right before its own id, if that is the root or
   a related config, and otherwise under the root.
   */
  lemma HangsBySegments(root: Id, related: seq<RelatedConfig>, i: nat, p: Id)
    requires DistinctFrom(root, related) && i < |related|
    requires var segments, known := Split(related[i].path, '.'), Known(root, related);
             if related[i].path == "" || NotBehindFirst(segments, related[i].id) then p == root
             else exists k: nat ::
               && FirstAt(segments, related[i].id, k)
               && p == if segments[k - 1] != "" && segments[k - 1] in known then segments[k - 1] else root
    ensures p in Kids(root, related) && multiset(Kids(root, related)[p])[related[i].id] == 1
    ensures forall q :: q in Kids(root, related) && related[i].id in Kids(root, related)[q] ==> q == p
  {
    ParentIdBySegments(related[i].path, related[i].id);
    assert p == HangsUnder(related[i], root, Known(root, related));
    HangsOnce(root, related, i);
  }

  /** Children come in the order of the related configs. */
  lemma {:induction false} ChildrenInOrder(related: seq<RelatedConfig>, par: Parents<Id>, p: Id, i: nat, j: nat)
    requires i < j < |related| && related[i].id in par && related[j].id in par
    requires par[related[i].id] == Some(p) && par[related[j].id] == Some(p)
    ensures Precedes(ChildrenIn(related, par, p), related[i].id, related[j].id)
  {
    var front := related[..|related| - 1];
    var cs := ChildrenIn(front, par, p);
    if j == |related| - 1 {
      HasChild(front, par, p, i);
      var k :| 0 <= k < |cs| && cs[k] == related[i].id;
      var all := ChildrenIn(related, par, p);
      assert all[k] == related[i].id && all[|cs|] == related[j].id;
    } else {
      ChildrenInOrder(front, par, p, i, j);
      var k, l :| 0 <= k < l < |cs| && cs[k] == related[i].id && cs[l] == related[j].id;
      var all := ChildrenIn(related, par, p);
      assert all[k] == related[i].id && all[l] == related[j].id;
    }
  }

  lemma {:induction false} HasChild(related: seq<RelatedConfig>, par: Parents<Id>, p: Id, i: nat)
    requires i < |related| && related[i].id in par && par[related[i].id] == Some(p)
    ensures related[i].id in ChildrenIn(related, par, p)
  {
    if i < |related| - 1 { HasChild(related[..|related| - 1], par, p, i); }
  }

  /** In the full tree `up`, the path names each config's direct parent, or nothing usable. */
  ghost predicate PathsFollow(up: Parents<Id>, related: seq<RelatedConfig>) {
    forall i :: 0 <= i < |related| ==>
      && Grounded(up, related[i].id) && related[i].id in up
      && (ParentIdFromPath(related[i].path, related[i].id) == ""
          || up[related[i].id] == Some(ParentIdFromPath(related[i].path, related[i].id)))
  }

  /** Paths taken from one acyclic config tree never form a cycle, so the tree is complete. */
  lemma TruePathsLoseNothing(root: Id, related: seq<RelatedConfig>, up: Parents<Id>)
    requires DistinctFrom(root, related) && PathsFollow(up, related)
    ensures Acyclic(ParentsOf(root, related))
    ensures multiset(TreeWalk(root, related)) == multiset(AllIds(root, related))
  {
    var par := ParentsOf(root, related);
    var rank: Id -> nat := x => if x == root then 0 else if Grounded(up, x) then 1 + Depth(up, x) else 0;
    forall x | x in par && par[x].Some? ensures rank(par[x].value) < rank(x) {
      var i :| 0 <= i < |related| && related[i] == ById(related, x);
      DepthStep(up, x);
    }
    forall x | x in par ensures Grounded(par, x) { DescendingGrounded(par, rank, x); }
    WalkMeetsAllIffAcyclic(root, related);
  }

  lemma {:induction false} SelfLoop(par: Parents<Id>, x: Id, n: nat)
    requires x in par && par[x] == Some(x)
    ensures !RootWithin(par, x, n)
  {
    if n > 0 { SelfLoop(par, x, n - 1); }
  }

  /** A path that repeats the config's own id makes it its own parent, and the tree loses it. */
  lemma SelfParentIsLost(root: Id, a: Id)
    requires a != root && a != "" && '.' !in a
    ensures DistinctFrom(root, [RelatedConfig(a, a + "." + a)])
    ensures a !in TreeWalk(root, [RelatedConfig(a, a + "." + a)])
  {
    var related := [RelatedConfig(a, a + "." + a)];
    var par := ParentsOf(root, related);
    SplitFirst(a, '.', a);
    SplitPlain(a, '.');
    assert SegmentBefore([a, a], a, 1) == a;
    assert related[0].id == a;
    assert a + "." + a == a + ['.'] + a;
    assert Split(related[0].path, '.') == [a, a];
    assert SegmentBefore([a, a], a, 0) == a;
    ParentsAt(root, related, 0);
    forall n: nat { SelfLoop(par, a, n); }
    KidsCorrect(root, related);
    WalkFromRoots(par, Kids(root, related), [root]);
  }

  // ---------------------------------------------------------------- the imperative builder

  ghost predicate Linked(tree: map<Id, RelatedConfigNode>, kids: map<Id, seq<Id>>)
    reads tree.Values`children
  {
    && tree.Keys == kids.Keys
    && (forall id :: id in tree ==> tree[id].id == id)
    && (forall p :: p in kids ==> NodesAre(tree, kids[p], tree[p].children))
  }

  ghost predicate NodesAre(tree: map<Id, RelatedConfigNode>, ids: seq<Id>, nodes: seq<RelatedConfigNode>) {
    |ids| == |nodes| && forall i :: 0 <= i < |ids| ==> ids[i] in tree && nodes[i] == tree[ids[i]]
  }

  ghost function KidsUpTo(root: Id, related: seq<RelatedConfig>, n: nat): map<Id, seq<Id>>
    requires n <= |related|
  {
    ListsUpTo(Known(root, related), related, n, ParentsOf(root, related))
  }

  lemma ChildrenInStep(related: seq<RelatedConfig>, n: nat, par: Parents<Id>, p: Id)
    requires n < |related| && related[n].id in par
    ensures ChildrenIn(related[..n + 1], par, p) ==
            if par[related[n].id] == Some(p) then ChildrenIn(related[..n], par, p) + [related[n].id]
            else ChildrenIn(related[..n], par, p)
  {
    assert related[..n + 1][..n] == related[..n] && related[..n + 1][n] == related[n];
    assert ChildrenIn(related[..n], par, p) + [] == ChildrenIn(related[..n], par, p);
  }

  lemma ParentsAt(root: Id, related: seq<RelatedConfig>, n: nat)
    requires DistinctFrom(root, related) && n < |related|
    ensures var par, p := ParentsOf(root, related), HangsUnder(related[n], root, Known(root, related));
            related[n].id in par && par[related[n].id] == Some(p) && p in Known(root, related)
  {
    assert ById(related, related[n].id) == related[n];
  }

  lemma KidsUpToStep(root: Id, related: seq<RelatedConfig>, n: nat, p: Id)
    requires DistinctFrom(root, related) && n < |related|
    requires p == HangsUnder(related[n], root, Known(root, related))
    ensures var kids := KidsUpTo(root, related, n);
            p in kids && KidsUpTo(root, related, n + 1) == kids[p := kids[p] + [related[n].id]]
  {
    ParentsAt(root, related, n);
    ListsStep(Known(root, related), related, n, ParentsOf(root, related), p);
  }

  ghost function ListsUpTo(known: set<Id>, related: seq<RelatedConfig>, n: nat, par: Parents<Id>): map<Id, seq<Id>>
    requires n <= |related|
  {
    map p | p in known :: ChildrenIn(related[..n], par, p)
  }

  lemma ListsStep(known: set<Id>, related: seq<RelatedConfig>, n: nat, par: Parents<Id>, p: Id)
    requires n < |related| && related[n].id in par && par[related[n].id] == Some(p) && p in known
    ensures var kids := ListsUpTo(known, related, n, par);
            ListsUpTo(known, related, n + 1, par) == kids[p := kids[p] + [related[n].id]]
  {
    forall q | q in known { ChildrenInStep(related, n, par, q); }
  }

  lemma NothingLinked(root: Id, related: seq<RelatedConfig>, tree: map<Id, RelatedConfigNode>)
    requires tree.Keys == Known(root, related)
    requires forall id :: id in tree ==> tree[id].id == id && tree[id].children == []
    ensures Linked(tree, KidsUpTo(root, related, 0))
  {
    var kids := KidsUpTo(root, related, 0);
    forall p | p in kids ensures NodesAre(tree, kids[p], tree[p].children) { assert kids[p] == []; }
  }

  method AppendChild(
      parent: RelatedConfigNode, node: RelatedConfigNode, ghost tree: map<Id, RelatedConfigNode>,
      ghost kids: map<Id, seq<Id>>)
    requires Linked(tree, kids) && parent.id in tree && parent == tree[parent.id]
    requires node.id in tree && node == tree[node.id]
    modifies parent`children
    ensures Linked(tree, kids[parent.id := kids[parent.id] + [node.id]])
  {
    parent.children := parent.children + [node];
    forall p | p in kids && p != parent.id ensures NodesAre(tree, kids[p], tree[p].children) {
      assert tree[p].id == p;
    }
  }

  method MakeNodes(root: Id, related: seq<RelatedConfig>) returns (nodes: map<Id, RelatedConfigNode>)
    requires DistinctFrom(root, related)
    ensures nodes.Keys == Known(root, related) && fresh(nodes.Values)
    ensures forall id :: id in nodes ==> nodes[id].id == id && nodes[id].children == []
  {
    var node := new RelatedConfigNode(root);
    nodes := map[root := node];
    for i := 0 to |related|
      invariant nodes.Keys == {root} + set k | 0 <= k < i :: related[k].id
      invariant forall id :: id in nodes ==> fresh(nodes[id]) && nodes[id].id == id && nodes[id].children == []
    {
      node := new RelatedConfigNode(related[i].id);
      nodes := nodes[related[i].id := node];
    }
  }

  /** Builds the linked tree; every node's children are those the specification lists, in input order. */
  method BuildRelationshipTree(root: Id, related: seq<RelatedConfig>)
    returns (top: RelatedConfigNode, ghost tree: map<Id, RelatedConfigNode>)
    requires DistinctFrom(root, related)
    ensures fresh(tree.Values) && Linked(tree, Kids(root, related))
    ensures root in tree && top == tree[root]
  {
    var nodes := MakeNodes(root, related);
    tree := nodes;
    NothingLinked(root, related, nodes);
    var i := 0;
    while i < |related|
      invariant 0 <= i <= |related|
      invariant Linked(nodes, KidsUpTo(root, related, i))
    {
      AttachOne(root, related, nodes, i);
      i := i + 1;
    }
    assert related[..i] == related;
    assert KidsUpTo(root, related, i) == Kids(root, related);
    top := nodes[root];
  }

  method AttachOne(root: Id, related: seq<RelatedConfig>, nodes: map<Id, RelatedConfigNode>, i: nat)
    requires DistinctFrom(root, related) && i < |related| && nodes.Keys == Known(root, related)
    requires Linked(nodes, KidsUpTo(root, related, i))
    modifies nodes.Values`children
    ensures Linked(nodes, KidsUpTo(root, related, i + 1))
  {
    var rc := related[i];
    var parentId := ParseParentId(rc.path, rc.id);
    if parentId == "" {
      parentId := root;
    }
    KidsUpToStep(root, related, i, HangsUnder(rc, root, Known(root, related)));
    if parentId in nodes {
      AppendChild(nodes[parentId], nodes[rc.id], nodes, KidsUpTo(root, related, i));
    } else {
      AppendChild(nodes[root], nodes[rc.id], nodes, KidsUpTo(root, related, i));
    }
  }
}
