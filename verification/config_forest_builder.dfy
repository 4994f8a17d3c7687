/**
 The imperative half of the selected-configs preview (catalog/report_controllers.go): nodes linked
 through pointers, children appended and sorted in place, ids collected by a recursive walk.
 */
module ConfigForestBuilder {
  import opened Base
  import opened Forests
  import opened Text
  import opened ConfigForest

  ghost predicate Within(ids: seq<Id>, tree: map<Id, ConfigTreeNode>) {
    forall i :: 0 <= i < |ids| ==> ids[i] in tree
  }

  /** The nodes with the given ids. */
  ghost function NodesAt(tree: map<Id, ConfigTreeNode>, ids: seq<Id>): seq<ConfigTreeNode>
    requires Within(ids, tree)
  {
    seq(|ids|, i requires 0 <= i < |ids| => tree[ids[i]])
  }

  /** The heap holds one node per config, and each node's children are the nodes `kids` lists for it. */
  ghost predicate Linked(tree: map<Id, ConfigTreeNode>, table: map<Id, Config>, kids: map<Id, seq<Id>>)
    reads tree.Values`children
  {
    && tree.Keys == table.Keys == kids.Keys
    && (forall id :: id in tree ==> tree[id].config == table[id] && table[id].id == id)
    && (forall p :: p in kids ==> Within(kids[p], tree) && tree[p].children == NodesAt(tree, kids[p]))
  }

  function NodeKey(n: ConfigTreeNode): string {
    SortKey(n.config)
  }

  /** The distinct ids of a request, in order of first mention. */
  method CollectIds(mentioned: seq<Id>) returns (ids: seq<Id>)
    ensures Distinct(ids) && forall x :: x in ids <==> x in mentioned
    ensures forall i, j :: 0 <= i < j < |ids| ==> Precedes(mentioned, ids[i], ids[j])
  {
    var seen: set<Id>;
    ids, seen := [], {};
    for k := 0 to |mentioned|
      invariant Distinct(ids) && (forall x :: x in ids <==> x in mentioned[..k]) &&
          (forall x :: x in ids <==> x in seen)
      invariant forall i, j :: 0 <= i < j < |ids| ==> Precedes(mentioned, ids[i], ids[j])
    {
      if mentioned[k] !in seen {
        forall i | 0 <= i < |ids| ensures Precedes(mentioned, ids[i], mentioned[k]) {
          assert ids[i] in mentioned[..k];
          var m :| 0 <= m < k && mentioned[..k][m] == ids[i];
          assert mentioned[m] == ids[i];
        }
        seen := seen + {mentioned[k]};
        ids := ids + [mentioned[k]];
      }
    }
    assert mentioned[..|mentioned|] == mentioned;
  }

  method FindSelectedConfigParent(config: Config, nodes: map<Id, ConfigTreeNode>, parse: Parser)
    returns (parent: ConfigTreeNode?)
    requires forall id :: id in nodes ==> nodes[id].config.id == id
    ensures parent == null <==> ChosenParent(config, nodes.Keys, parse).None?
    ensures parent != null ==> parent == nodes[ChosenParent(config, nodes.Keys, parse).value]
  {
    if config.parentId.Some? && config.parentId.value in nodes {
      parent := nodes[config.parentId.value];
      if parent.config.id != config.id {
        return;
      }
    }
    if config.path == "" {
      return null;
    }
    var segments := Split(config.path, '.');
    var i := |segments|;
    assert segments[..i] == segments;
    while i > 0
      invariant 0 <= i <= |segments|
      invariant LastSelected(segments[..i], config.id, nodes.Keys, parse)
             == LastSelected(segments, config.id, nodes.Keys, parse)
    {
      i := i - 1;
      assert segments[..i + 1][..i] == segments[..i] && segments[..i + 1][i] == segments[i];
      var id := parse(segments[i]);
      if id.Some? && id.value != config.id && id.value in nodes {
        return nodes[id.value];
      }
    }
    return null;
  }

  /** Sorting nodes by their configs is sorting their ids. */
  lemma {:induction false} InsertNode(
      tree: map<Id, ConfigTreeNode>, table: map<Id, Config>, x: Id, ids: seq<Id>)
    requires x in tree && Within(ids, tree) && tree.Keys == table.Keys
    requires forall id :: id in tree ==> tree[id].config == table[id]
    ensures Within(Insert(x, ids, KeyOf(table)), tree)
    ensures Insert(tree[x], NodesAt(tree, ids), NodeKey) == NodesAt(tree, Insert(x, ids, KeyOf(table)))
  {
    assert NodeKey(tree[x]) == KeyOf(table)(x);
    if ids != [] && Less(KeyOf(table)(ids[0]), KeyOf(table)(x)) {
      InsertNode(tree, table, x, ids[1..]);
      assert NodesAt(tree, ids)[1..] == NodesAt(tree, ids[1..]);
      NodesAtCons(tree, ids[0], Insert(x, ids[1..], KeyOf(table)));
    } else {
      NodesAtCons(tree, x, ids);
    }
  }

  lemma NodesAtCons(tree: map<Id, ConfigTreeNode>, x: Id, ids: seq<Id>)
    requires x in tree && Within(ids, tree)
    ensures Within([x] + ids, tree) && NodesAt(tree, [x] + ids) == [tree[x]] + NodesAt(tree, ids)
  {
  }

  lemma {:induction false} SortNodes(tree: map<Id, ConfigTreeNode>, table: map<Id, Config>, ids: seq<Id>)
    requires Within(ids, tree) && tree.Keys == table.Keys
    requires forall id :: id in tree ==> tree[id].config == table[id]
    ensures Within(StableSort(ids, KeyOf(table)), tree)
    ensures StableSort(NodesAt(tree, ids), NodeKey) == NodesAt(tree, StableSort(ids, KeyOf(table)))
  {
    if ids != [] {
      SortNodes(tree, table, ids[1..]);
      assert NodesAt(tree, ids)[1..] == NodesAt(tree, ids[1..]);
      InsertNode(tree, table, ids[0], StableSort(ids[1..], KeyOf(table)));
    } else {
      assert NodesAt(tree, ids) == [];
    }
  }

  /** The child lists after sorting those of the nodes in `region`. */
  ghost function SortedIn(kids: map<Id, seq<Id>>, region: set<Id>, key: Id -> string): map<Id, seq<Id>> {
    map p | p in kids :: if p in region then StableSort(kids[p], key) else kids[p]
  }

  ghost predicate Below(ids: seq<Id>, level: map<Id, nat>, bound: nat) {
    forall i :: 0 <= i < |ids| ==> ids[i] in level && level[ids[i]] < bound
  }

  ghost predicate Inside(ids: seq<Id>, region: set<Id>) {
    forall i :: 0 <= i < |ids| ==> ids[i] in region
  }

  /** Every node in `level` has only children of a smaller level. */
  ghost predicate Ranked(kids: map<Id, seq<Id>>, level: map<Id, nat>) {
    forall x :: x in level ==> x in kids && Below(kids[x], level, level[x])
  }

  ghost predicate Downward(kids: map<Id, seq<Id>>, region: set<Id>) {
    forall x :: x in region ==> x in kids && Inside(kids[x], region)
  }

  ghost predicate InsideUpTo(ids: seq<Id>, n: nat, region: set<Id>)
    requires n <= |ids|
  {
    forall i :: 0 <= i < n ==> ids[i] in region
  }

  lemma InsideStep(ids: seq<Id>, n: nat, before: set<Id>, after: set<Id>)
    requires n < |ids| && InsideUpTo(ids, n, before) && before <= after && ids[n] in after
    ensures InsideUpTo(ids, n + 1, after)
  {
  }

  lemma SameBelow(a: seq<Id>, b: seq<Id>, level: map<Id, nat>, bound: nat, region: set<Id>)
    requires SameElements(a, b)
    ensures Below(a, level, bound) <==> Below(b, level, bound)
    ensures Inside(a, region) <==> Inside(b, region)
  {
    forall i | 0 <= i < |a| ensures a[i] in b { assert a[i] in a; }
    forall i | 0 <= i < |b| ensures b[i] in a { assert b[i] in b; }
  }

  lemma SortedInElements(kids: map<Id, seq<Id>>, region: set<Id>, key: Id -> string, p: Id)
    requires p in kids
    ensures SameElements(SortedIn(kids, region, key)[p], kids[p])
    ensures StableSort(SortedIn(kids, region, key)[p], key) == StableSort(kids[p], key)
  {
    StableSortElements(kids[p], key);
    StableSortCorrect(kids[p], key);
    StableSortFixpoint(StableSort(kids[p], key), key);
  }

  lemma SortedInNone(kids: map<Id, seq<Id>>, key: Id -> string)
    ensures SortedIn(kids, {}, key) == kids
  {
  }

  lemma SortedInRanked(kids: map<Id, seq<Id>>, region: set<Id>, level: map<Id, nat>, key: Id -> string)
    requires Ranked(kids, level)
    ensures Ranked(SortedIn(kids, region, key), level)
  {
    var now := SortedIn(kids, region, key);
    forall x | x in level ensures x in now && Below(now[x], level, level[x]) {
      SortedInElements(kids, region, key, x);
      SameBelow(now[x], kids[x], level, level[x], {});
    }
  }

  lemma SortedInDownward(kids: map<Id, seq<Id>>, region: set<Id>, key: Id -> string, r: set<Id>)
    requires Downward(SortedIn(kids, region, key), r)
    ensures Downward(kids, r)
  {
    var now := SortedIn(kids, region, key);
    forall x | x in r ensures x in kids && Inside(kids[x], r) {
      assert x in now;
      SortedInElements(kids, region, key, x);
      SameBelow(now[x], kids[x], map[], 0, r);
    }
  }

  /** Sorting twice is sorting once over both regions. */
  lemma SortedInTwice(kids: map<Id, seq<Id>>, r: set<Id>, q: set<Id>, key: Id -> string)
    ensures SortedIn(SortedIn(kids, r, key), q, key) == SortedIn(kids, r + q, key)
  {
    forall p | p in kids { SortedInElements(kids, r, key, p); }
  }

  /** A node gets a new child list; every other node keeps its own. */
  method SetChildren(
      node: ConfigTreeNode, children: seq<ConfigTreeNode>, ghost tree: map<Id, ConfigTreeNode>,
      ghost table: map<Id, Config>, ghost kids: map<Id, seq<Id>>, ghost x: Id, ghost ids: seq<Id>)
    requires Linked(tree, table, kids) && x in tree && node == tree[x]
    requires Within(ids, tree) && children == NodesAt(tree, ids)
    modifies node`children
    ensures Linked(tree, table, kids[x := ids])
  {
    node.children := children;
    ghost var after := kids[x := ids];
    assert after.Keys == kids.Keys;
    forall p | p in after ensures Within(after[p], tree) && tree[p].children == NodesAt(tree, after[p]) {
      if p != x { assert tree[p].config.id == p && after[p] == kids[p]; }
    }
  }

  /** Sorts the siblings `xs` and, in place, every child list below them. */
  method SortConfigTreeNodes(
      xs: seq<ConfigTreeNode>, ghost tree: map<Id, ConfigTreeNode>, ghost table: map<Id, Config>,
      ghost kids: map<Id, seq<Id>>, ghost level: map<Id, nat>, ghost ids: seq<Id>, ghost bound: nat)
    returns (sorted: seq<ConfigTreeNode>, ghost region: set<Id>)
    requires Ranked(kids, level) && Below(ids, level, bound)
    requires Linked(tree, table, kids) && Within(ids, tree) && xs == NodesAt(tree, ids)
    modifies tree.Values`children
    ensures Within(StableSort(ids, KeyOf(table)), tree)
    ensures sorted == NodesAt(tree, StableSort(ids, KeyOf(table)))
    ensures Downward(kids, region) && Inside(ids, region)
    ensures Linked(tree, table, SortedIn(kids, region, KeyOf(table)))
    decreases bound, 2
  {
    sorted := StableSort(xs, NodeKey);
    ghost var sids := StableSort(ids, KeyOf(table));
    SortNodes(tree, table, ids);
    StableSortElements(ids, KeyOf(table));
    SameBelow(sids, ids, level, bound, {});
    region := SortEach(sorted, tree, table, kids, level, sids, bound);
    SameBelow(sids, ids, level, bound, region);
  }

  /** The recursive half of the sort: each sibling in turn. */
  method SortEach(
      xs: seq<ConfigTreeNode>, ghost tree: map<Id, ConfigTreeNode>, ghost table: map<Id, Config>,
      ghost kids: map<Id, seq<Id>>, ghost level: map<Id, nat>, ghost ids: seq<Id>, ghost bound: nat)
    returns (ghost region: set<Id>)
    requires Ranked(kids, level) && Below(ids, level, bound)
    requires Linked(tree, table, kids) && Within(ids, tree) && xs == NodesAt(tree, ids)
    modifies tree.Values`children
    ensures Downward(kids, region) && Inside(ids, region)
    ensures Linked(tree, table, SortedIn(kids, region, KeyOf(table)))
    decreases bound, 1
  {
    region := {};
    SortedInNone(kids, KeyOf(table));
    var i := 0;
    while i < |xs|
      invariant 0 <= i <= |xs| == |ids|
      invariant Downward(kids, region) && InsideUpTo(ids, i, region)
      invariant Linked(tree, table, SortedIn(kids, region, KeyOf(table)))
    {
      ghost var before := region;
      region := SortSubtree(xs[i], tree, table, kids, level, before, ids[i], bound);
      InsideStep(ids, i, before, region);
      i := i + 1;
    }
  }

  lemma RegionDownward(kids: map<Id, seq<Id>>, done: set<Id>, below: set<Id>, x: Id)
    requires x in kids && Downward(kids, done) && Downward(kids, below) && Inside(kids[x], below)
    ensures Downward(kids, done + below + {x})
  {
    var region := done + below + {x};
    forall y | y in region ensures y in kids && Inside(kids[y], region) {
      if y in done { assert Inside(kids[y], done); } else if y in below { assert Inside(kids[y], below); }
    }
  }

  /** The value-level account of one iteration. */
  lemma RegionExtends(
      kids: map<Id, seq<Id>>, done: set<Id>, below: set<Id>, x: Id, key: Id -> string)
    requires x in kids && Downward(kids, done)
    requires Downward(SortedIn(kids, done, key), below)
    requires Inside(SortedIn(kids, done, key)[x], below)
    ensures Downward(kids, done + below + {x})
    ensures SortedIn(SortedIn(kids, done, key), below, key)[x := StableSort(SortedIn(kids, done, key)[x], key)]
         == SortedIn(kids, done + below + {x}, key)
  {
    var now := SortedIn(kids, done, key);
    SortedInDownward(kids, done, key, below);
    SortedInElements(kids, done, key, x);
    SameBelow(now[x], kids[x], map[], 0, below);
    RegionDownward(kids, done, below, x);
    assert SortedIn(now, below, key)[x := StableSort(now[x], key)] == SortedIn(now, below + {x}, key);
    SortedInTwice(kids, done, below + {x}, key);
    assert done + (below + {x}) == done + below + {x};
  }

  /** One iteration of the recursive sort: everything below `node`, then `node`'s own children. */
  method SortSubtree(
      node: ConfigTreeNode, ghost tree: map<Id, ConfigTreeNode>, ghost table: map<Id, Config>,
      ghost kids: map<Id, seq<Id>>, ghost level: map<Id, nat>, ghost done: set<Id>, ghost x: Id, ghost bound: nat)
    returns (ghost region: set<Id>)
    requires Ranked(kids, level) && x in level && level[x] < bound && Downward(kids, done)
    requires Linked(tree, table, SortedIn(kids, done, KeyOf(table))) && x in tree && node == tree[x]
    modifies tree.Values`children
    ensures Downward(kids, region) && done <= region && x in region
    ensures Linked(tree, table, SortedIn(kids, region, KeyOf(table)))
    decreases bound, 0
  {
    ghost var now := SortedIn(kids, done, KeyOf(table));
    SortedInRanked(kids, done, level, KeyOf(table));
    ghost var below;
    below := SortBelow(node, tree, table, now, level, x);
    RegionExtends(kids, done, below, x, KeyOf(table));
    region := done + below + {x};
  }

  method SortBelow(
      node: ConfigTreeNode, ghost tree: map<Id, ConfigTreeNode>, ghost table: map<Id, Config>,
      ghost now: map<Id, seq<Id>>, ghost level: map<Id, nat>, ghost x: Id)
    returns (ghost below: set<Id>)
    requires Ranked(now, level) && x in level && Linked(tree, table, now) && x in tree && node == tree[x]
    modifies tree.Values`children
    ensures Downward(now, below) && Inside(now[x], below)
    ensures Linked(tree, table, SortedIn(now, below, KeyOf(table))[x := StableSort(now[x], KeyOf(table))])
    decreases level[x], 3
  {
    var children;
    children, below := SortConfigTreeNodes(node.children, tree, table, now, level, now[x], level[x]);
    SetChildren(node, children, tree, table, SortedIn(now, below, KeyOf(table)), x, StableSort(now[x], KeyOf(table)));
  }

  // ---------------------------------------------------------------- building the forest

  /** The child lists once the first `n` configs have been attached. */
  ghost function KidsUpTo(configs: seq<Config>, n: nat, table: map<Id, Config>, par: Parents<Id>): map<Id, seq<Id>>
    requires n <= |configs| && table.Keys == par.Keys && AllKnown(configs, par)
  {
    map p | p in table :: ChildrenIn(configs[..n], par, p)
  }

  ghost predicate AllKnown(configs: seq<Config>, par: Parents<Id>) {
    forall i :: 0 <= i < |configs| ==> configs[i].id in par
  }

  /** The child lists after `x` has been attached to its chosen parent, if it has one. */
  ghost function Adopt(kids: map<Id, seq<Id>>, par: Parents<Id>, x: Id): map<Id, seq<Id>>
    requires Closed(par) && x in par && kids.Keys == par.Keys
  {
    if par[x].None? then kids else kids[par[x].value := kids[par[x].value] + [x]]
  }

  lemma KidsUpToStep(configs: seq<Config>, n: nat, table: map<Id, Config>, par: Parents<Id>)
    requires n < |configs| && table.Keys == par.Keys && AllKnown(configs, par) && Closed(par)
    ensures KidsUpTo(configs, n + 1, table, par) == Adopt(KidsUpTo(configs, n, table, par), par, configs[n].id)
  {
    forall p | p in table { ChildrenInStep(configs, n, par, p); }
  }

  lemma ChildrenInStep(configs: seq<Config>, n: nat, par: Parents<Id>, p: Id)
    requires n < |configs| && AllKnown(configs, par)
    ensures ChildrenIn(configs[..n + 1], par, p) ==
            if par[configs[n].id] == Some(p) then ChildrenIn(configs[..n], par, p) + [configs[n].id]
            else ChildrenIn(configs[..n], par, p)
  {
    assert configs[..n + 1][..n] == configs[..n] && configs[..n + 1][n] == configs[n];
    assert ChildrenIn(configs[..n], par, p) + [] == ChildrenIn(configs[..n], par, p);
  }

  lemma RootsInStep(configs: seq<Config>, n: nat, par: Parents<Id>)
    requires n < |configs| && AllKnown(configs, par)
    ensures RootsIn(configs[..n + 1], par)
         == RootsIn(configs[..n], par) + if par[configs[n].id].None? then [configs[n].id] else []
  {
    assert configs[..n + 1][..n] == configs[..n] && configs[..n + 1][n] == configs[n];
  }

  /** A fresh, unlinked node for each of the first `n` configs. */
  ghost predicate Made(nodes: map<Id, ConfigTreeNode>, configs: seq<Config>, n: nat)
    requires n <= |configs|
    reads nodes.Values
  {
    && (forall i :: 0 <= i < n ==> configs[i].id in nodes && nodes[configs[i].id].config == configs[i])
    && (forall id :: id in nodes ==> exists i :: 0 <= i < n && configs[i].id == id)
    && (forall id :: id in nodes ==> nodes[id].children == [] && nodes[id].edgeType == "target")
  }

  /** One node per config. */
  method MakeNodes(configs: seq<Config>) returns (nodes: map<Id, ConfigTreeNode>)
    requires DistinctIds(configs)
    ensures Made(nodes, configs, |configs|) && fresh(nodes.Values)
  {
    nodes := map[];
    for i := 0 to |configs|
      invariant Made(nodes, configs, i)
      invariant forall id :: id in nodes ==> fresh(nodes[id])
    {
      var node := new ConfigTreeNode(configs[i]);
      nodes := nodes[configs[i].id := node];
    }
  }

  lemma MadeTable(nodes: map<Id, ConfigTreeNode>, configs: seq<Config>)
    requires DistinctIds(configs) && Made(nodes, configs, |configs|)
    ensures nodes.Keys == Table(configs).Keys
    ensures forall id :: id in nodes ==> nodes[id].config == Table(configs)[id] && nodes[id].config.id == id
  {
    forall i | 0 <= i < |configs| { ByIdIs(configs, i); }
    forall id | id in nodes ensures id in Ids(configs) && nodes[id].config == ById(configs, id) {
      var i :| 0 <= i < |configs| && configs[i].id == id;
    }
  }

  method AppendChild(
      parent: ConfigTreeNode, node: ConfigTreeNode, ghost tree: map<Id, ConfigTreeNode>,
      ghost table: map<Id, Config>, ghost kids: map<Id, seq<Id>>, ghost p: Id, ghost x: Id)
    requires Linked(tree, table, kids) && p in tree && parent == tree[p] && x in tree && node == tree[x]
    modifies parent`children
    ensures Linked(tree, table, kids[p := kids[p] + [x]])
  {
    SetChildren(parent, parent.children + [node], tree, table, kids, p, kids[p] + [x]);
  }

  /** Edge types tell attached nodes from roots, for the configs handled so far. */
  ghost predicate Marked(tree: map<Id, ConfigTreeNode>, handled: set<Id>, par: Parents<Id>)
    requires tree.Keys == par.Keys
    reads tree.Values`edgeType
  {
    forall id :: id in tree ==> tree[id].edgeType == if par[id].Some? && id in handled then "child" else "target"
  }

  method MarkChild(
      node: ConfigTreeNode, ghost tree: map<Id, ConfigTreeNode>, ghost handled: set<Id>, ghost par: Parents<Id>,
      ghost x: Id)
    requires tree.Keys == par.Keys && Marked(tree, handled, par)
    requires forall id :: id in tree ==> tree[id].config.id == id
    requires x in tree && node == tree[x] && par[x].Some?
    modifies node`edgeType
    ensures Marked(tree, handled + {x}, par)
  {
    node.edgeType := "child";
    forall id | id in tree && id != x ensures tree[id] != node { assert tree[id].config.id == id; }
  }

  ghost predicate Adopted(childIds: set<Id>, handled: set<Id>, par: Parents<Id>) {
    forall id :: id in childIds <==> id in handled && id in par && par[id].Some?
  }

  lemma MarkedRoot(tree: map<Id, ConfigTreeNode>, handled: set<Id>, par: Parents<Id>, x: Id)
    requires tree.Keys == par.Keys && Marked(tree, handled, par) && x in par && par[x].None?
    ensures Marked(tree, handled + {x}, par)
  {
  }

  lemma AdoptedStep(childIds: set<Id>, handled: set<Id>, par: Parents<Id>, x: Id)
    requires Adopted(childIds, handled, par) && x in par
    ensures Adopted(if par[x].Some? then childIds + {x} else childIds, handled + {x}, par)
  {
  }

  /** Nodes without children represent empty child lists. */
  lemma NothingLinked(tree: map<Id, ConfigTreeNode>, table: map<Id, Config>, kids: map<Id, seq<Id>>)
    requires tree.Keys == table.Keys == kids.Keys
    requires forall id :: id in tree ==> tree[id].config == table[id] && table[id].id == id
    requires forall id :: id in tree ==> tree[id].children == [] && kids[id] == []
    ensures Linked(tree, table, kids)
  {
    forall p | p in kids ensures tree[p].children == NodesAt(tree, kids[p]) { }
  }

  /** One iteration of the attaching loop. */
  method AttachOne(
      config: Config, nodes: map<Id, ConfigTreeNode>, parse: Parser, attached: set<Id>,
      ghost table: map<Id, Config>, ghost kids: map<Id, seq<Id>>, ghost handled: set<Id>)
    returns (childIds: set<Id>)
    requires Linked(nodes, table, kids) && config.id in table && table[config.id] == config
    requires Marked(nodes, handled, ParentsOf(table, parse)) && Adopted(attached, handled, ParentsOf(table, parse))
    modifies nodes.Values
    ensures Linked(nodes, table, Adopt(kids, ParentsOf(table, parse), config.id))
    ensures Marked(nodes, handled + {config.id}, ParentsOf(table, parse))
    ensures Adopted(childIds, handled + {config.id}, ParentsOf(table, parse))
  {
    ghost var par := ParentsOf(table, parse);
    var node := nodes[config.id];
    var parent := FindSelectedConfigParent(config, nodes, parse);
    AdoptedStep(attached, handled, par, config.id);
    if parent == null {
      MarkedRoot(nodes, handled, par, config.id);
      return attached;
    }
    AttachTo(parent, node, nodes, table, kids, par, handled, par[config.id].value, config.id);
    childIds := attached + {config.id};
  }

  method AttachTo(
      parent: ConfigTreeNode, node: ConfigTreeNode, ghost tree: map<Id, ConfigTreeNode>,
      ghost table: map<Id, Config>, ghost kids: map<Id, seq<Id>>, ghost par: Parents<Id>, ghost handled: set<Id>,
      ghost p: Id, ghost x: Id)
    requires Linked(tree, table, kids) && p in tree && parent == tree[p] && x in tree && node == tree[x]
    requires tree.Keys == par.Keys && Marked(tree, handled, par) && par[x].Some?
    modifies parent`children, node`edgeType
    ensures Linked(tree, table, kids[p := kids[p] + [x]]) && Marked(tree, handled + {x}, par)
  {
    MarkChild(node, tree, handled, par, x);
    AppendChild(parent, node, tree, table, kids, p, x);
  }

  /** Attaches every config to its chosen parent, in selection order; returns the attached ids. */
  method AttachChildren(configs: seq<Config>, nodes: map<Id, ConfigTreeNode>, parse: Parser)
    returns (childIds: set<Id>)
    requires DistinctIds(configs) && Made(nodes, configs, |configs|)
    modifies nodes.Values
    ensures Linked(nodes, Table(configs), InputKids(configs, parse))
    ensures Marked(nodes, Ids(configs), ParentsOf(Table(configs), parse))
    ensures Adopted(childIds, Ids(configs), ParentsOf(Table(configs), parse))
  {
    ghost var table, par := Table(configs), ParentsOf(Table(configs), parse);
    MadeTable(nodes, configs);
    KidsUpToEnds(configs, parse);
    childIds := {};
    NothingLinked(nodes, table, KidsUpTo(configs, 0, table, par));
    assert Ids(configs[..0]) == {};
    var i := 0;
    while i < |configs|
      invariant 0 <= i <= |configs|
      invariant Linked(nodes, table, KidsUpTo(configs, i, table, par))
      invariant Marked(nodes, Ids(configs[..i]), par) && Adopted(childIds, Ids(configs[..i]), par)
    {
      ByIdIs(configs, i);
      KidsUpToStep(configs, i, table, par);
      IdsPrefix(configs, i);
      childIds :=
          AttachOne(configs[i], nodes, parse, childIds, table, KidsUpTo(configs, i, table, par), Ids(configs[..i]));
      i := i + 1;
    }
    assert configs[..i] == configs;
  }

  lemma IdsPrefix(configs: seq<Config>, n: nat)
    requires n < |configs|
    ensures Ids(configs[..n + 1]) == Ids(configs[..n]) + {configs[n].id}
  {
    IdsSplit(configs[..n + 1]);
    assert configs[..n + 1][..n] == configs[..n];
  }

  lemma KidsUpToEnds(configs: seq<Config>, parse: Parser)
    ensures Table(configs).Keys == ParentsOf(Table(configs), parse).Keys
    ensures AllKnown(configs, ParentsOf(Table(configs), parse))
    ensures KidsUpTo(configs, |configs|, Table(configs), ParentsOf(Table(configs), parse)) == InputKids(configs, parse)
    ensures forall p :: p in Table(configs) ==>
              KidsUpTo(configs, 0, Table(configs), ParentsOf(Table(configs), parse))[p] == []
  {
    assert configs[..|configs|] == configs;
  }

  /** The nodes nobody adopted, in selection order. */
  method CollectRoots(configs: seq<Config>, nodes: map<Id, ConfigTreeNode>, childIds: set<Id>, ghost par: Parents<Id>)
    returns (roots: seq<ConfigTreeNode>)
    requires AllKnown(configs, par) && nodes.Keys == par.Keys
    requires forall i :: 0 <= i < |configs| ==> (configs[i].id in childIds <==> par[configs[i].id].Some?)
    ensures Within(RootsIn(configs, par), nodes) && roots == NodesAt(nodes, RootsIn(configs, par))
  {
    roots := [];
    var i := 0;
    while i < |configs|
      invariant 0 <= i <= |configs|
      invariant Within(RootsIn(configs[..i], par), nodes) && roots == NodesAt(nodes, RootsIn(configs[..i], par))
    {
      RootsInStep(configs, i, par);
      if configs[i].id !in childIds {
        roots := roots + [nodes[configs[i].id]];
      }
      i := i + 1;
    }
    assert configs[..i] == configs;
  }

  // ---------------------------------------------------------------- ranks for the recursions

  /** Grounded nodes, ranked so that children rank below their parent. */
  ghost function Levels(par: Parents<Id>): map<Id, nat> {
    map x | x in par && Grounded(par, x) :: if Depth(par, x) < |par| then |par| - Depth(par, x) else 0
  }

  lemma LevelsAt(par: Parents<Id>, x: Id)
    requires Grounded(par, x)
    ensures x in Levels(par) && Levels(par)[x] == |par| - Depth(par, x)
  {
    DepthStep(par, x);
    DepthBounded(par, x);
  }

  lemma LevelsRanked(par: Parents<Id>, kids: map<Id, seq<Id>>)
    requires KidsOf(par, kids)
    ensures Ranked(kids, Levels(par))
  {
    forall x | x in Levels(par) ensures x in kids && Below(kids[x], Levels(par), Levels(par)[x]) {
      KidsLevel(par, kids, x);
      LevelsAt(par, x);
      forall i | 0 <= i < |kids[x]|
        ensures kids[x][i] in Levels(par) && Levels(par)[kids[x][i]] < Levels(par)[x]
      {
        assert kids[x][i] in kids[x];
        LevelsAt(par, kids[x][i]);
      }
    }
  }

  lemma RootsRanked(par: Parents<Id>, roots: seq<Id>)
    requires RootsOf(par, roots)
    ensures Below(roots, Levels(par), |par| + 1)
  {
    RootsLevel(par, roots);
    forall i | 0 <= i < |roots| ensures roots[i] in Levels(par) && Levels(par)[roots[i]] < |par| + 1 {
      assert roots[i] in roots;
      LevelsAt(par, roots[i]);
    }
  }

  /** A region that holds the roots and is closed under children holds every grounded node. */
  lemma {:induction false} GroundedInRegion(
      par: Parents<Id>, kids: map<Id, seq<Id>>, roots: seq<Id>, region: set<Id>, x: Id)
    requires KidsOf(par, kids) && RootsOf(par, roots) && Downward(kids, region) && Inside(roots, region)
    requires Grounded(par, x)
    ensures x in region
    decreases Depth(par, x)
  {
    DepthStep(par, x);
    if par[x].None? {
      var i :| 0 <= i < |roots| && roots[i] == x;
    } else {
      var p := par[x].value;
      GroundedInRegion(par, kids, roots, region, p);
      DepthStep(par, p);
      assert ChildrenOf(par, p, kids[p]) && Inside(kids[p], region);
      assert x in kids[p];
      var i :| 0 <= i < |kids[p]| && kids[p][i] == x;
    }
  }

  ghost predicate AgreeWhereGrounded(par: Parents<Id>, a: map<Id, seq<Id>>, b: map<Id, seq<Id>>) {
    a.Keys == b.Keys == par.Keys && forall x :: x in par && Grounded(par, x) ==> a[x] == b[x]
  }

  /** The child lists agree with the sorted ones wherever a walk from the roots can get. */
  ghost predicate SortedWhereReached(configs: seq<Config>, parse: Parser, kids: map<Id, seq<Id>>) {
    && KidsOf(ParentsOf(Table(configs), parse), kids)
    && AgreeWhereGrounded(ParentsOf(Table(configs), parse), kids, SortedKids(configs, parse))
  }

  lemma SortedInKidsOf(par: Parents<Id>, kids: map<Id, seq<Id>>, region: set<Id>, key: Id -> string)
    requires KidsOf(par, kids)
    ensures KidsOf(par, SortedIn(kids, region, key))
  {
    forall p | p in kids ensures ChildrenOf(par, p, StableSort(kids[p], key)) {
      assert ChildrenOf(par, p, kids[p]);
      StableSortElements(kids[p], key);
    }
  }

  lemma AgreeInRegion(
      par: Parents<Id>, kids: map<Id, seq<Id>>, region: set<Id>, key: Id -> string, sorted: map<Id, seq<Id>>)
    requires kids.Keys == sorted.Keys == par.Keys
    requires forall p :: p in sorted ==> sorted[p] == StableSort(kids[p], key)
    requires forall x :: x in par && Grounded(par, x) ==> x in region
    ensures AgreeWhereGrounded(par, SortedIn(kids, region, key), sorted)
  {
  }

  lemma RegionSorted(configs: seq<Config>, parse: Parser, region: set<Id>)
    requires DistinctIds(configs)
    requires Downward(InputKids(configs, parse), region)
    requires Inside(RootsIn(configs, ParentsOf(Table(configs), parse)), region)
    ensures SortedWhereReached(configs, parse, SortedIn(InputKids(configs, parse), region, KeyOf(Table(configs))))
  {
    var par, input, key := ParentsOf(Table(configs), parse), InputKids(configs, parse), KeyOf(Table(configs));
    var roots := RootsIn(configs, par);
    KidsCorrect(configs, parse);
    SortedInKidsOf(par, input, region, key);
    assert AgreeWhereGrounded(par, SortedIn(input, region, key), SortedKids(configs, parse)) by {
      forall x | x in par && Grounded(par, x) ensures x in region {
        GroundedInRegion(par, input, roots, region, x);
      }
      AgreeInRegion(par, input, region, key, SortedKids(configs, parse));
    }
  }

  lemma SortReady(configs: seq<Config>, parse: Parser, childIds: set<Id>)
    requires DistinctIds(configs) && Adopted(childIds, Ids(configs), ParentsOf(Table(configs), parse))
    ensures var par := ParentsOf(Table(configs), parse);
            && Table(configs).Keys == par.Keys && AllKnown(configs, par)
            && AttachedAre(configs, childIds, par)
            && Ranked(InputKids(configs, parse), Levels(par))
            && Below(RootsIn(configs, par), Levels(par), |par| + 1)
  {
    var par := ParentsOf(Table(configs), parse);
    KidsUpToEnds(configs, parse);
    KidsRanked(configs, parse);
    RootsBelow(configs, parse);
    AdoptedExactly(configs, childIds, par);
  }

  lemma KidsRanked(configs: seq<Config>, parse: Parser)
    requires DistinctIds(configs)
    ensures Ranked(InputKids(configs, parse), Levels(ParentsOf(Table(configs), parse)))
  {
    KidsCorrect(configs, parse);
    LevelsRanked(ParentsOf(Table(configs), parse), InputKids(configs, parse));
  }

  lemma RootsBelow(configs: seq<Config>, parse: Parser)
    requires DistinctIds(configs) && AllKnown(configs, ParentsOf(Table(configs), parse))
    ensures var par := ParentsOf(Table(configs), parse); Below(RootsIn(configs, par), Levels(par), |par| + 1)
  {
    KidsCorrect(configs, parse);
    RootsRanked(ParentsOf(Table(configs), parse), RootsIn(configs, ParentsOf(Table(configs), parse)));
  }

  /** Gathers the roots of the linked nodes and sorts the whole forest. */
  method SortForest(configs: seq<Config>, parse: Parser, nodes: map<Id, ConfigTreeNode>, childIds: set<Id>)
    returns (roots: seq<ConfigTreeNode>, ghost kids: map<Id, seq<Id>>)
    requires DistinctIds(configs) && Linked(nodes, Table(configs), InputKids(configs, parse))
    requires Adopted(childIds, Ids(configs), ParentsOf(Table(configs), parse))
    modifies nodes.Values`children
    ensures Linked(nodes, Table(configs), kids) && SortedWhereReached(configs, parse, kids)
    ensures Within(SortedRoots(configs, parse), nodes) && roots == NodesAt(nodes, SortedRoots(configs, parse))
  {
    ghost var table, par := Table(configs), ParentsOf(Table(configs), parse);
    SortReady(configs, parse, childIds);
    roots := CollectRoots(configs, nodes, childIds, par);
    ghost var region;
    roots, region := SortConfigTreeNodes(
      roots, nodes, table, InputKids(configs, parse), Levels(par), RootsIn(configs, par), |par| + 1);
    kids := SortedIn(InputKids(configs, parse), region, KeyOf(table));
    RegionSorted(configs, parse, region);
  }

  /** The attached configs are those that chose a parent. */
  ghost predicate AttachedAre(configs: seq<Config>, childIds: set<Id>, par: Parents<Id>)
    requires AllKnown(configs, par)
  {
    forall i :: 0 <= i < |configs| ==> (configs[i].id in childIds <==> par[configs[i].id].Some?)
  }

  lemma AdoptedExactly(configs: seq<Config>, childIds: set<Id>, par: Parents<Id>)
    requires AllKnown(configs, par) && Adopted(childIds, Ids(configs), par)
    ensures AttachedAre(configs, childIds, par)
  {
  }

  /**
   Builds the linked forest.  Afterwards the nodes' children, wherever a walk from the roots can get,
   are the sorted children of the specification, and the edge types tell children from roots.
   */
  method BuildConfigForest(configs: seq<Config>, parse: Parser)
    returns (roots: seq<ConfigTreeNode>, ghost tree: map<Id, ConfigTreeNode>, ghost kids: map<Id, seq<Id>>)
    requires DistinctIds(configs)
    ensures fresh(tree.Values) && Linked(tree, Table(configs), kids) && SortedWhereReached(configs, parse, kids)
    ensures Within(SortedRoots(configs, parse), tree) && roots == NodesAt(tree, SortedRoots(configs, parse))
    ensures Marked(tree, Ids(configs), ParentsOf(Table(configs), parse))
  {
    var nodes := MakeNodes(configs);
    tree := nodes;
    var childIds := AttachChildren(configs, nodes, parse);
    roots, kids := SortForest(configs, parse, nodes, childIds);
  }

  // ---------------------------------------------------------------- flattening

  /** The ids met by walking the linked nodes. */
  ghost function Visit(kids: map<Id, seq<Id>>, level: map<Id, nat>, ids: seq<Id>, bound: nat): seq<Id>
    requires Ranked(kids, level) && Below(ids, level, bound)
    decreases bound, |ids|
  {
    if ids == [] then []
    else [ids[0]] + Visit(kids, level, kids[ids[0]], level[ids[0]]) + Visit(kids, level, ids[1..], bound)
  }

  lemma HeadBelow(kids: map<Id, seq<Id>>, level: map<Id, nat>, ids: seq<Id>, bound: nat)
    requires Ranked(kids, level) && Below(ids, level, bound) && ids != []
    ensures ids[0] in level && level[ids[0]] < bound && ids[0] in kids
    ensures Below(kids[ids[0]], level, level[ids[0]]) && Below(ids[1..], level, bound)
  {
  }

  /** The walk below the first node is of the same kind, one level deeper. */
  lemma HeadAgrees(par: Parents<Id>, kids: map<Id, seq<Id>>, sorted: map<Id, seq<Id>>, ids: seq<Id>, d: nat)
    requires KidsOf(par, kids) && KidsOf(par, sorted) && AgreeWhereGrounded(par, kids, sorted)
    requires ids != [] && Level(par, ids, d)
    ensures ids[0] in kids && ids[0] in sorted && kids[ids[0]] == sorted[ids[0]]
    ensures Level(par, kids[ids[0]], d + 1) && Level(par, ids[1..], d) && d < |par|
  {
    DepthBounded(par, ids[0]);
    KidsLevel(par, sorted, ids[0]);
  }

  lemma VisitCons(kids: map<Id, seq<Id>>, level: map<Id, nat>, ids: seq<Id>, bound: nat)
    requires Ranked(kids, level) && Below(ids, level, bound) && ids != []
    ensures Visit(kids, level, ids, bound) ==
            [ids[0]] + Visit(kids, level, kids[ids[0]], level[ids[0]]) + Visit(kids, level, ids[1..], bound)
  {
  }

  lemma PreorderCons(par: Parents<Id>, kids: map<Id, seq<Id>>, ids: seq<Id>, d: nat)
    requires KidsOf(par, kids) && Level(par, ids, d) && ids != []
    ensures ids[0] in kids && Level(par, kids[ids[0]], d + 1) && Level(par, ids[1..], d)
    ensures Preorder(par, kids, ids, d) ==
            [ids[0]] + Preorder(par, kids, kids[ids[0]], d + 1) + Preorder(par, kids, ids[1..], d)
  {
    DepthBounded(par, ids[0]);
    KidsLevel(par, kids, ids[0]);
  }

  lemma {:induction false} VisitIsPreorder(
      par: Parents<Id>, kids: map<Id, seq<Id>>, sorted: map<Id, seq<Id>>, ids: seq<Id>, d: nat, bound: nat)
    requires KidsOf(par, kids) && KidsOf(par, sorted) && Ranked(kids, Levels(par)) && Below(ids, Levels(par), bound)
    requires AgreeWhereGrounded(par, kids, sorted) && Level(par, ids, d)
    ensures Visit(kids, Levels(par), ids, bound) == Preorder(par, sorted, ids, d)
    decreases bound, |ids|
  {
    if ids != [] {
      var x := ids[0];
      HeadBelow(kids, Levels(par), ids, bound);
      HeadAgrees(par, kids, sorted, ids, d);
      VisitCons(kids, Levels(par), ids, bound);
      PreorderCons(par, sorted, ids, d);
      VisitIsPreorder(par, kids, sorted, kids[x], d + 1, Levels(par)[x]);
      VisitIsPreorder(par, kids, sorted, ids[1..], d, bound);
    }
  }

  method Walk(
      nodes: seq<ConfigTreeNode>, acc: seq<Id>, ghost tree: map<Id, ConfigTreeNode>, ghost table: map<Id, Config>,
      ghost kids: map<Id, seq<Id>>, ghost level: map<Id, nat>, ghost at: seq<Id>, ghost bound: nat)
    returns (ids: seq<Id>)
    requires Linked(tree, table, kids) && Within(at, tree) && nodes == NodesAt(tree, at)
    requires Ranked(kids, level) && Below(at, level, bound)
    ensures ids == acc + Visit(kids, level, at, bound)
    decreases bound
  {
    ids := acc;
    var i := 0;
    while i < |nodes|
      invariant 0 <= i <= |nodes| == |at|
      invariant ids + Visit(kids, level, at[i..], bound) == acc + Visit(kids, level, at, bound)
    {
      VisitStep(kids, level, at, i, bound, ids);
      ids := ids + [nodes[i].config.id];
      ids := Walk(nodes[i].children, ids, tree, table, kids, level, kids[at[i]], level[at[i]]);
      i := i + 1;
    }
  }

  lemma VisitStep(kids: map<Id, seq<Id>>, level: map<Id, nat>, at: seq<Id>, i: nat, bound: nat, acc: seq<Id>)
    requires Ranked(kids, level) && Below(at, level, bound) && i < |at|
    ensures acc + Visit(kids, level, at[i..], bound) ==
            acc + [at[i]] + Visit(kids, level, kids[at[i]], level[at[i]]) + Visit(kids, level, at[i + 1..], bound)
  {
    assert at[i..][1..] == at[i + 1..];
  }

  lemma VisitIsPreview(configs: seq<Config>, parse: Parser, kids: map<Id, seq<Id>>)
    requires DistinctIds(configs) && SortedWhereReached(configs, parse, kids)
    ensures var par := ParentsOf(Table(configs), parse);
            && Ranked(kids, Levels(par)) && Below(SortedRoots(configs, parse), Levels(par), |par| + 1)
            && Visit(kids, Levels(par), SortedRoots(configs, parse), |par| + 1) == Preview(configs, parse)
  {
    var par := ParentsOf(Table(configs), parse);
    KidsCorrect(configs, parse);
    LevelsRanked(par, kids);
    RootsRanked(par, SortedRoots(configs, parse));
    RootsLevel(par, SortedRoots(configs, parse));
    VisitIsPreorder(par, kids, SortedKids(configs, parse), SortedRoots(configs, parse), 0, |par| + 1);
  }

  /** The preview: the linked forest, and the specified one flattened. */
  method PreviewCatalogReport(configs: seq<Config>, parse: Parser)
    returns (roots: seq<ConfigTreeNode>, selectedIds: seq<Id>,
             ghost tree: map<Id, ConfigTreeNode>, ghost kids: map<Id, seq<Id>>)
    requires DistinctIds(configs)
    ensures selectedIds == Preview(configs, parse)
    ensures fresh(tree.Values) && Linked(tree, Table(configs), kids) && SortedWhereReached(configs, parse, kids)
    ensures Within(SortedRoots(configs, parse), tree) && roots == NodesAt(tree, SortedRoots(configs, parse))
    ensures Marked(tree, Ids(configs), ParentsOf(Table(configs), parse))
  {
    roots, tree, kids := BuildConfigForest(configs, parse);
    VisitIsPreview(configs, parse, kids);
    ghost var par := ParentsOf(Table(configs), parse);
    selectedIds := Walk(roots, [], tree, Table(configs), kids, Levels(par), SortedRoots(configs, parse), |par| + 1);
    EmptyPrefix(Visit(kids, Levels(par), SortedRoots(configs, parse), |par| + 1));
  }

  lemma EmptyPrefix(s: seq<Id>)
    ensures [] + s == s
  {
  }
}
