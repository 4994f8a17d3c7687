/**
 The mathematics shared by the two tree builders of the program: a finite set of ids, a chosen
 parent for some of them, and per-node child lists.  Nothing here assumes that the parent relation
 is acyclic: a node is *grounded* when following parents reaches a node without one.
 */
module Forests {
  import opened Base

  /** The chosen parent of every node; `None` marks a root. */
  type Parents<!T(==)> = map<T, Option<T>>

  ghost predicate Closed<T>(par: Parents<T>) {
    forall x :: x in par && par[x].Some? ==> par[x].value in par
  }

  /** Following at most `n` parents from `x` reaches a root. */
  ghost predicate RootWithin<T>(par: Parents<T>, x: T, n: nat) {
    x in par && (par[x].None? || (n > 0 && RootWithin(par, par[x].value, n - 1)))
  }

  ghost predicate Grounded<T(!new)>(par: Parents<T>, x: T) {
    exists n: nat :: RootWithin(par, x, n)
  }

  /** No node lies on, or below, a cycle of chosen parents. */
  ghost predicate Acyclic<T(!new)>(par: Parents<T>) {
    forall x :: x in par ==> Grounded(par, x)
  }

  /** The number of parents to follow before the root is reached. */
  ghost function DepthWithin<T>(par: Parents<T>, x: T, n: nat): (d: nat)
    requires RootWithin(par, x, n)
    ensures d <= n && RootWithin(par, x, d)
  {
    if par[x].None? then 0 else 1 + DepthWithin(par, par[x].value, n - 1)
  }

  ghost function Depth<T(!new)>(par: Parents<T>, x: T): (d: nat)
    requires Grounded(par, x)
    ensures RootWithin(par, x, d) && DepthWithin(par, x, d) == d
  {
    var n: nat :| RootWithin(par, x, n);
    var d := DepthWithin(par, x, n);
    DepthWithinUnique(par, x, d, n);
    d
  }

  lemma {:induction false} DepthWithinUnique<T>(par: Parents<T>, x: T, m: nat, n: nat)
    requires RootWithin(par, x, m) && RootWithin(par, x, n)
    ensures DepthWithin(par, x, m) == DepthWithin(par, x, n)
    decreases m
  {
    if par[x].Some? {
      DepthWithinUnique(par, par[x].value, m - 1, n - 1);
    }
  }

  /** Roots have depth zero; every other grounded node is one deeper than its grounded parent. */
  lemma DepthStep<T(!new)>(par: Parents<T>, x: T)
    requires Grounded(par, x)
    ensures x in par
    ensures par[x].None? ==> Depth(par, x) == 0
    ensures par[x].Some? ==> Grounded(par, par[x].value) && Depth(par, x) == 1 + Depth(par, par[x].value)
  {
    var n := Depth(par, x);
    if par[x].Some? {
      var p := par[x].value;
      assert RootWithin(par, p, n - 1);
      DepthWithinUnique(par, p, Depth(par, p), n - 1);
    }
  }

  /** A node whose parent is grounded is grounded. */
  lemma GroundedChild<T(!new)>(par: Parents<T>, x: T)
    requires x in par && (par[x].Some? ==> Grounded(par, par[x].value))
    ensures Grounded(par, x)
  {
    if par[x].Some? {
      var n: nat :| RootWithin(par, par[x].value, n);
      assert RootWithin(par, x, n + 1);
    } else {
      assert RootWithin(par, x, 0);
    }
  }

  ghost predicate Descending<T(!new)>(par: Parents<T>, rank: T -> nat) {
    forall x :: x in par && par[x].Some? ==> rank(par[x].value) < rank(x)
  }

  lemma {:induction false} DescendingGrounded<T(!new)>(par: Parents<T>, rank: T -> nat, x: T)
    requires Closed(par) && Descending(par, rank) && x in par
    ensures Grounded(par, x)
    decreases rank(x)
  {
    if par[x].Some? {
      DescendingGrounded(par, rank, par[x].value);
    }
    GroundedChild(par, x);
  }

  /** `x` together with all its ancestors. */
  ghost function Lineage<T(!new)>(par: Parents<T>, x: T, d: nat): set<T>
    requires Grounded(par, x) && Depth(par, x) == d
    decreases d
  {
    DepthStep(par, x);
    if par[x].None? then {x} else {x} + Lineage(par, par[x].value, d - 1)
  }

  lemma {:induction false} LineageSize<T(!new)>(par: Parents<T>, x: T, d: nat)
    requires Grounded(par, x) && Depth(par, x) == d
    ensures |Lineage(par, x, d)| == d + 1 && Lineage(par, x, d) <= par.Keys
    ensures forall y :: y in Lineage(par, x, d) ==> Grounded(par, y) && Depth(par, y) <= d
    decreases d
  {
    DepthStep(par, x);
    if par[x].Some? {
      LineageSize(par, par[x].value, d - 1);
    }
  }

  lemma {:induction false} SubsetSize<T>(a: set<T>, b: set<T>)
    requires a <= b
    ensures |a| <= |b|
  {
    if a != {} {
      var x :| x in a;
      SubsetSize(a - {x}, b - {x});
    }
  }

  /** Depths are bounded by the number of nodes: this is what makes every recursion over the forest stop. */
  lemma DepthBounded<T(!new)>(par: Parents<T>, x: T)
    requires Grounded(par, x)
    ensures Depth(par, x) < |par|
  {
    var d := Depth(par, x);
    LineageSize(par, x, d);
    SubsetSize(Lineage(par, x, d), par.Keys);
    assert |par.Keys| == |par|;
  }

  /** The ancestor-or-self of `y` that sits at depth `d`. */
  ghost function AncestorAt<T(!new)>(par: Parents<T>, y: T, d: nat): (a: T)
    requires Grounded(par, y) && d <= Depth(par, y)
    ensures Grounded(par, a) && Depth(par, a) == d
    decreases Depth(par, y)
  {
    DepthStep(par, y);
    if Depth(par, y) == d then y else AncestorAt(par, par[y].value, d)
  }

  /** `a` lies strictly above `y`. */
  ghost predicate Above<T(!new)>(par: Parents<T>, a: T, y: T)
    requires Grounded(par, a) && Grounded(par, y)
  {
    Depth(par, a) < Depth(par, y) && AncestorAt(par, y, Depth(par, a)) == a
  }

  lemma {:induction false} AncestorCompose<T(!new)>(par: Parents<T>, y: T, e: nat, d: nat)
    requires Grounded(par, y) && d <= e <= Depth(par, y)
    ensures AncestorAt(par, AncestorAt(par, y, e), d) == AncestorAt(par, y, d)
    decreases Depth(par, y)
  {
    DepthStep(par, y);
    if e < Depth(par, y) {
      AncestorCompose(par, par[y].value, e, d);
    }
  }

  /** The ancestor one level below depth `d` is a child of the ancestor at depth `d`. */
  lemma AncestorStep<T(!new)>(par: Parents<T>, y: T, d: nat)
    requires Grounded(par, y) && d < Depth(par, y)
    ensures AncestorAt(par, y, d + 1) in par
    ensures par[AncestorAt(par, y, d + 1)] == Some(AncestorAt(par, y, d))
  {
    var a := AncestorAt(par, y, d + 1);
    AncestorCompose(par, y, d + 1, d);
    DepthStep(par, a);
    DepthStep(par, par[a].value);
  }

  /** `cs` lists, without repetition, exactly the nodes that chose `p`. */
  ghost predicate ChildrenOf<T(!new)>(par: Parents<T>, p: T, cs: seq<T>) {
    Distinct(cs) && forall c :: c in cs <==> (c in par && par[c] == Some(p))
  }

  ghost predicate KidsOf<T(!new)>(par: Parents<T>, kids: map<T, seq<T>>) {
    kids.Keys == par.Keys && forall p :: p in kids ==> ChildrenOf(par, p, kids[p])
  }

  /** All of `xs` are grounded nodes at depth `d`. */
  ghost predicate Level<T(!new)>(par: Parents<T>, xs: seq<T>, d: nat) {
    forall x :: x in xs ==> Grounded(par, x) && Depth(par, x) == d
  }

  lemma KidsLevel<T(!new)>(par: Parents<T>, kids: map<T, seq<T>>, x: T)
    requires KidsOf(par, kids) && Grounded(par, x)
    ensures x in kids && Level(par, kids[x], Depth(par, x) + 1)
  {
    DepthStep(par, x);
    forall c | c in kids[x] ensures Grounded(par, c) && Depth(par, c) == Depth(par, x) + 1 {
      GroundedChild(par, c);
      DepthStep(par, c);
    }
  }

  /** The preorder walk: each node, then everything below it, then its later siblings. */
  ghost function Preorder<T(!new)>(par: Parents<T>, kids: map<T, seq<T>>, xs: seq<T>, d: nat): seq<T>
    requires KidsOf(par, kids) && Level(par, xs, d)
    decreases |par| - d, |xs|
  {
    if xs == [] then []
    else
      DepthBounded(par, xs[0]);
      KidsLevel(par, kids, xs[0]);
      [xs[0]] + Preorder(par, kids, kids[xs[0]], d + 1) + Preorder(par, kids, xs[1..], d)
  }

  /** The walk below `xs` meets exactly the grounded nodes that have an ancestor-or-self in `xs`. */
  lemma {:induction false} PreorderMembers<T(!new)>(par: Parents<T>, kids: map<T, seq<T>>, xs: seq<T>, d: nat, y: T)
    requires KidsOf(par, kids) && Level(par, xs, d)
    ensures y in Preorder(par, kids, xs, d) <==>
            Grounded(par, y) && d <= Depth(par, y) && AncestorAt(par, y, d) in xs
    decreases |par| - d, |xs|
  {
    if xs != [] {
      var x := xs[0];
      DepthBounded(par, x);
      KidsLevel(par, kids, x);
      PreorderMembers(par, kids, kids[x], d + 1, y);
      PreorderMembers(par, kids, xs[1..], d, y);
      if Grounded(par, y) && d < Depth(par, y) {
        AncestorStep(par, y, d);
        assert AncestorAt(par, y, d + 1) in kids[x] <==> AncestorAt(par, y, d) == x;
      }
      if Grounded(par, y) && d == Depth(par, y) {
        assert AncestorAt(par, y, d) == y;
      }
      assert AncestorInList(par, y, d, xs) <==> AncestorInList(par, y, d, [x]) || AncestorInList(par, y, d, xs[1..]);
    }
  }

  ghost predicate AncestorInList<T(!new)>(par: Parents<T>, y: T, d: nat, xs: seq<T>) {
    Grounded(par, y) && d <= Depth(par, y) && AncestorAt(par, y, d) in xs
  }

  /** Nothing is met twice. */
  lemma {:induction false} PreorderDistinct<T(!new)>(par: Parents<T>, kids: map<T, seq<T>>, xs: seq<T>, d: nat)
    requires KidsOf(par, kids) && Level(par, xs, d) && Distinct(xs)
    ensures Distinct(Preorder(par, kids, xs, d))
    decreases |par| - d, |xs|
  {
    if xs != [] {
      var x := xs[0];
      DepthBounded(par, x);
      KidsLevel(par, kids, x);
      var below, rest := Preorder(par, kids, kids[x], d + 1), Preorder(par, kids, xs[1..], d);
      PreorderDistinct(par, kids, kids[x], d + 1);
      PreorderDistinct(par, kids, xs[1..], d);
      forall y | y in below ensures y != x && y !in rest {
        PreorderMembers(par, kids, kids[x], d + 1, y);
        PreorderMembers(par, kids, xs[1..], d, y);
        AncestorStep(par, y, d);
      }
      PreorderMembers(par, kids, xs[1..], d, x);
      DistinctConcat([x], below);
      DistinctConcat([x] + below, rest);
    }
  }

  /** Every ancestor is met before its descendants. */
  lemma {:induction false} PreorderAncestorsFirst<T(!new)>(
      par: Parents<T>, kids: map<T, seq<T>>, xs: seq<T>, d: nat, a: T, y: T)
    requires KidsOf(par, kids) && Level(par, xs, d)
    requires y in Preorder(par, kids, xs, d)
    requires Grounded(par, a) && Grounded(par, y) && Above(par, a, y) && d <= Depth(par, a)
    ensures Precedes(Preorder(par, kids, xs, d), a, y)
    decreases |par| - d, |xs|
  {
    var x := xs[0];
    DepthBounded(par, x);
    KidsLevel(par, kids, x);
    var below, rest := Preorder(par, kids, kids[x], d + 1), Preorder(par, kids, xs[1..], d);
    if y in below {
      BelowHasAncestor(par, kids, x, d, a, y);
      if d < Depth(par, a) {
        PreorderAncestorsFirst(par, kids, kids[x], d + 1, a, y);
      }
    } else {
      PreorderAncestorsFirst(par, kids, xs[1..], d, a, y);
    }
    PrecedesSplit(x, below, rest, a, y);
  }

  /** Of two siblings everything below the first comes before the second: the walk is depth-first, in sibling order. */
  lemma {:induction false} PreorderSiblings<T(!new)>(
      par: Parents<T>, kids: map<T, seq<T>>, xs: seq<T>, d: nat, i: nat, j: nat, y: T)
    requires KidsOf(par, kids) && Level(par, xs, d) && i < j < |xs|
    requires Grounded(par, y) && d <= Depth(par, y) && AncestorAt(par, y, d) == xs[i]
    ensures Precedes(Preorder(par, kids, xs, d), y, xs[j])
    decreases |xs|
  {
    var x := xs[0];
    DepthBounded(par, x);
    KidsLevel(par, kids, x);
    var below, rest := Preorder(par, kids, kids[x], d + 1), Preorder(par, kids, xs[1..], d);
    if i > 0 {
      PreorderSiblings(par, kids, xs[1..], d, i - 1, j - 1, y);
      PrecedesSplit(x, below, rest, y, xs[j]);
    } else {
      assert xs[1..][j - 1] == xs[j];
      PreorderMembers(par, kids, xs[1..], d, xs[j]);
      HeadSubtree(par, kids, x, d, y);
      PrecedesAcross([x] + below, rest, y, xs[j]);
    }
  }

  lemma HeadSubtree<T(!new)>(par: Parents<T>, kids: map<T, seq<T>>, x: T, d: nat, y: T)
    requires KidsOf(par, kids) && Grounded(par, x) && Depth(par, x) == d && x in kids && Level(par, kids[x], d + 1)
    requires Grounded(par, y) && d <= Depth(par, y) && AncestorAt(par, y, d) == x
    ensures y in [x] + Preorder(par, kids, kids[x], d + 1)
  {
    if d < Depth(par, y) {
      AncestorStep(par, y, d);
      PreorderMembers(par, kids, kids[x], d + 1, y);
    }
  }

  lemma PrecedesAcross<T>(s: seq<T>, t: seq<T>, a: T, y: T)
    requires a in s && y in t
    ensures Precedes(s + t, a, y)
  {
    var i :| 0 <= i < |s| && s[i] == a;
    var j :| 0 <= j < |t| && t[j] == y;
    assert (s + t)[i] == a && (s + t)[|s| + j] == y;
  }

  /** The walk below a grounded node is part of the walk of its siblings. */
  lemma {:induction false} PreorderInside<T(!new)>(
      par: Parents<T>, kids: map<T, seq<T>>, xs: seq<T>, d: nat, p: T, a: T, y: T)
    requires KidsOf(par, kids) && Level(par, xs, d)
    requires Grounded(par, p) && d <= Depth(par, p) && AncestorAt(par, p, d) in xs
    requires p in kids && Level(par, kids[p], Depth(par, p) + 1)
    requires Precedes(Preorder(par, kids, kids[p], Depth(par, p) + 1), a, y)
    ensures Precedes(Preorder(par, kids, xs, d), a, y)
    decreases |par| - d, |xs|
  {
    var x := xs[0];
    DepthBounded(par, x);
    KidsLevel(par, kids, x);
    var below, rest := Preorder(par, kids, kids[x], d + 1), Preorder(par, kids, xs[1..], d);
    if AncestorAt(par, p, d) == x {
      if d < Depth(par, p) {
        AncestorStep(par, p, d);
        PreorderInside(par, kids, kids[x], d + 1, p, a, y);
      }
    } else {
      PreorderInside(par, kids, xs[1..], d, p, a, y);
    }
    PrecedesSplit(x, below, rest, a, y);
  }

  /** `y` is `a` or lies below it. */
  ghost predicate AtOrBelow<T(!new)>(par: Parents<T>, a: T, y: T) {
    Grounded(par, a) && Grounded(par, y) && (y == a || Above(par, a, y))
  }

  /** The list of siblings that `x` is in. */
  ghost function ListOf<T(!new)>(par: Parents<T>, kids: map<T, seq<T>>, roots: seq<T>, x: T): seq<T> {
    if x in par && par[x].Some? && par[x].value in kids then kids[par[x].value] else roots
  }

  /** The walk lists a sibling, with everything below it, before the siblings behind it. */
  lemma SiblingsOrdered<T(!new)>(par: Parents<T>, kids: map<T, seq<T>>, roots: seq<T>, a: T, b: T, y: T)
    requires KidsOf(par, kids) && RootsOf(par, roots) && AtOrBelow(par, a, y)
    requires Precedes(ListOf(par, kids, roots, a), a, b)
    ensures Level(par, roots, 0) && Precedes(Preorder(par, kids, roots, 0), y, b)
  {
    RootsLevel(par, roots);
    DepthStep(par, a);
    var xs := ListOf(par, kids, roots, a);
    var i, j :| 0 <= i < j < |xs| && xs[i] == a && xs[j] == b;
    if par[a].None? {
      PreorderSiblings(par, kids, roots, 0, i, j, y);
    } else {
      ChildrenOrdered(par, kids, par[a].value, i, j, y);
      PreorderInside(par, kids, roots, 0, par[a].value, y, b);
    }
  }

  lemma ChildrenOrdered<T(!new)>(par: Parents<T>, kids: map<T, seq<T>>, p: T, i: nat, j: nat, y: T)
    requires KidsOf(par, kids) && Grounded(par, p) && p in kids && i < j < |kids[p]|
    requires AtOrBelow(par, kids[p][i], y)
    ensures Level(par, kids[p], Depth(par, p) + 1)
    ensures Precedes(Preorder(par, kids, kids[p], Depth(par, p) + 1), y, kids[p][j])
  {
    KidsLevel(par, kids, p);
    PreorderSiblings(par, kids, kids[p], Depth(par, p) + 1, i, j, y);
  }

  lemma BelowHasAncestor<T(!new)>(par: Parents<T>, kids: map<T, seq<T>>, x: T, d: nat, a: T, y: T)
    requires KidsOf(par, kids) && Grounded(par, x) && Depth(par, x) == d
    requires Level(par, kids[x], d + 1) && y in Preorder(par, kids, kids[x], d + 1)
    requires Grounded(par, a) && Grounded(par, y) && Above(par, a, y) && d <= Depth(par, a)
    ensures Depth(par, a) == d ==> a == x
  {
    PreorderMembers(par, kids, kids[x], d + 1, y);
    AncestorStep(par, y, d);
  }

  /** Some occurrence of `a` comes before some occurrence of `y`. */
  ghost predicate Precedes<T>(s: seq<T>, a: T, y: T) {
    exists i, j :: 0 <= i < j < |s| && s[i] == a && s[j] == y
  }

  lemma PrecedesSplit<T>(x: T, below: seq<T>, rest: seq<T>, a: T, y: T)
    requires (a == x && y in below) || Precedes(below, a, y) || Precedes(rest, a, y)
    ensures Precedes([x] + below + rest, a, y)
  {
    var s := [x] + below + rest;
    if a == x && y in below {
      var j :| 0 <= j < |below| && below[j] == y;
      assert s[0] == a && s[1 + j] == y;
    } else if Precedes(below, a, y) {
      var i, j :| 0 <= i < j < |below| && below[i] == a && below[j] == y;
      assert s[1 + i] == a && s[1 + j] == y;
    } else {
      var i, j :| 0 <= i < j < |rest| && rest[i] == a && rest[j] == y;
      assert s[1 + |below| + i] == a && s[1 + |below| + j] == y;
    }
  }

  /** `xs` lists every root once. */
  ghost predicate RootsOf<T(!new)>(par: Parents<T>, xs: seq<T>) {
    Distinct(xs) && forall x :: x in xs <==> (x in par && par[x].None?)
  }

  lemma RootsLevel<T(!new)>(par: Parents<T>, xs: seq<T>)
    requires RootsOf(par, xs)
    ensures Level(par, xs, 0)
  {
    forall x | x in xs ensures Grounded(par, x) && Depth(par, x) == 0 {
      GroundedChild(par, x);
      DepthStep(par, x);
    }
  }

  /** Walking from the roots meets exactly the grounded nodes, each once: nodes on or below a cycle are lost. */
  lemma WalkFromRoots<T(!new)>(par: Parents<T>, kids: map<T, seq<T>>, roots: seq<T>)
    requires KidsOf(par, kids) && RootsOf(par, roots)
    ensures Level(par, roots, 0)
    ensures Distinct(Preorder(par, kids, roots, 0))
    ensures forall y :: y in Preorder(par, kids, roots, 0) <==> Grounded(par, y)
  {
    RootsLevel(par, roots);
    PreorderDistinct(par, kids, roots, 0);
    forall y ensures y in Preorder(par, kids, roots, 0) <==> Grounded(par, y) {
      PreorderMembers(par, kids, roots, 0, y);
      if Grounded(par, y) {
        DepthStep(par, AncestorAt(par, y, 0));
      }
    }
  }
}
