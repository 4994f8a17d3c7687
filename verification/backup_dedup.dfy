/**
 Pairing backup events (db/applications.go): a started backup disappears from the list when the next
 event of the same config and source says that it completed.
 */
module BackupDedup {
  /** The 36 characters of a UUID. */
  type Uuid = s: string | |s| == 36 witness seq(36, _ => '0')

  datatype Change = Change(id: Uuid, configId: Uuid, source: string, changeType: string, createdAt: int, status: string)

  const STARTED := "BackupStarted"
  const COMPLETED := "BackupCompleted"

  predicate SameOrigin(a: Change, b: Change) {
    a.configId == b.configId && a.source == b.source
  }

  function OriginKey(c: Change): string {
    c.configId + "|" + c.source
  }

  /** The text key separates origins: a config id has a fixed length. */
  lemma OriginKeyInjective(a: Change, b: Change)
    ensures OriginKey(a) == OriginKey(b) <==> SameOrigin(a, b)
  {
    if OriginKey(a) == OriginKey(b) {
      assert OriginKey(a)[..36] == a.configId && OriginKey(b)[..36] == b.configId;
      assert OriginKey(a)[37..] == a.source && OriginKey(b)[37..] == b.source;
    }
  }

  // ---------------------------------------------------------------- the declarative filter

  /** Among the first `n` events, `j` is the next one of the same origin after `i`. */
  ghost predicate NextOfOrigin(changes: seq<Change>, i: nat, j: nat, n: nat)
    requires n <= |changes|
  {
    i < j < n && SameOrigin(changes[i], changes[j]) &&
    forall k :: i < k < j ==> !SameOrigin(changes[i], changes[k])
  }

  /** Event `i` is a start whose next event of the same origin is a completion. */
  ghost predicate Superseded(changes: seq<Change>, i: nat, n: nat)
    requires i < n <= |changes|
  {
    changes[i].changeType == STARTED &&
    exists j: nat :: NextOfOrigin(changes, i, j, n) && changes[j].changeType == COMPLETED
  }

  /** The positions below `m` that survive among the first `n` events. */
  ghost function Kept(changes: seq<Change>, m: nat, n: nat): seq<nat>
    requires m <= n <= |changes|
  {
    if m == 0 then []
    else Kept(changes, m - 1, n) + if Superseded(changes, m - 1, n) then [] else [m - 1]
  }

  ghost predicate Under(at: seq<nat>, n: nat) {
    forall k :: 0 <= k < |at| ==> at[k] < n
  }

  ghost function Pick(changes: seq<Change>, at: seq<nat>): seq<Change>
    requires Under(at, |changes|)
  {
    seq(|at|, k requires 0 <= k < |at| => changes[at[k]])
  }

  /** Everything except superseded starts, in input order. */
  ghost function Deduped(changes: seq<Change>): seq<Change> {
    KeptFacts(changes, |changes|, |changes|);
    Pick(changes, Kept(changes, |changes|, |changes|))
  }

  ghost predicate Increasing(at: seq<nat>) {
    forall k, l :: 0 <= k < l < |at| ==> at[k] < at[l]
  }

  lemma {:induction false} KeptOrder(changes: seq<Change>, m: nat, n: nat)
    requires m <= n <= |changes|
    ensures Increasing(Kept(changes, m, n)) && Under(Kept(changes, m, n), m)
  {
    if m > 0 { KeptOrder(changes, m - 1, n); }
  }

  lemma {:induction false} KeptMember(changes: seq<Change>, m: nat, n: nat, i: nat)
    requires m <= n <= |changes|
    ensures i in Kept(changes, m, n) <==> i < m && !Superseded(changes, i, n)
  {
    if m > 0 { KeptMember(changes, m - 1, n, i); }
  }

  lemma KeptMembers(changes: seq<Change>, m: nat, n: nat)
    requires m <= n <= |changes|
    ensures Increasing(Kept(changes, m, n))
    ensures forall i: nat :: i in Kept(changes, m, n) <==> i < m && !Superseded(changes, i, n)
  {
    KeptOrder(changes, m, n);
    forall i: nat { KeptMember(changes, m, n, i); }
  }

  lemma KeptFacts(changes: seq<Change>, m: nat, n: nat)
    requires m <= n <= |changes|
    ensures Increasing(Kept(changes, m, n))
    ensures Under(Kept(changes, m, n), m)
    ensures forall i: nat :: i in Kept(changes, m, n) <==> i < m && !Superseded(changes, i, n)
  {
    KeptOrder(changes, m, n);
    KeptMembers(changes, m, n);
  }

  lemma {:induction false} IncreasingUnique(a: seq<nat>, b: seq<nat>)
    requires Increasing(a) && Increasing(b) && forall x :: x in a <==> x in b
    ensures a == b
  {
    if a == [] {
      assert forall k :: 0 <= k < |b| ==> b[k] !in b;
    } else {
      assert a[|a| - 1] in b;
      assert b[|b| - 1] in a;
      var front, rear := a[..|a| - 1], b[..|b| - 1];
      assert a == front + [a[|a| - 1]] && b == rear + [b[|b| - 1]];
      assert a[|a| - 1] == b[|b| - 1];
      forall x | x in front ensures x in rear { assert x in a && x != a[|a| - 1]; }
      forall x | x in rear ensures x in front { assert x in b && x != b[|b| - 1]; }
      IncreasingUnique(front, rear);
    }
  }

  // ---------------------------------------------------------------- one event more

  ghost predicate LastOfOrigin(changes: seq<Change>, p: nat, n: nat)
    requires n < |changes|
  {
    p < n && SameOrigin(changes[p], changes[n]) && forall k :: p < k < n ==> !SameOrigin(changes[k], changes[n])
  }

  /** Adding event `n` supersedes at most the previous event of its origin. */
  lemma SupersededStep(changes: seq<Change>, i: nat, n: nat)
    requires i < n < |changes|
    ensures Superseded(changes, i, n + 1) <==>
            Superseded(changes, i, n) ||
            (LastOfOrigin(changes, i, n) && changes[i].changeType == STARTED && changes[n].changeType == COMPLETED)
  {
    if Superseded(changes, i, n + 1) {
      var j: nat :| NextOfOrigin(changes, i, j, n + 1) && changes[j].changeType == COMPLETED;
      if j < n { assert NextOfOrigin(changes, i, j, n); }
    }
    if Superseded(changes, i, n) {
      var j: nat :| NextOfOrigin(changes, i, j, n) && changes[j].changeType == COMPLETED;
      assert NextOfOrigin(changes, i, j, n + 1);
    }
    if LastOfOrigin(changes, i, n) { assert NextOfOrigin(changes, i, n, n + 1); }
  }

  /** Without a later event of its origin, an event survives. */
  lemma LastSurvives(changes: seq<Change>, p: nat, n: nat)
    requires n < |changes| && LastOfOrigin(changes, p, n)
    ensures !Superseded(changes, p, n)
  {
  }

  ghost predicate Without(longer: seq<nat>, p: nat, shorter: seq<nat>) {
    Increasing(shorter) && forall x :: x in shorter <==> x in longer && x != p
  }

  lemma KeptStep(changes: seq<Change>, n: nat, at: seq<nat>)
    requires n < |changes| && Increasing(at)
    requires forall i: nat :: i in at <==> i < n && !Superseded(changes, i, n + 1)
    ensures Kept(changes, n + 1, n + 1) == at + [n]
  {
    forall k | 0 <= k < |at| ensures at[k] < n { assert at[k] in at; }
    NotYetSuperseded(changes, n);
    KeptMembers(changes, n + 1, n + 1);
    IncreasingAppend(at, n);
    SameWhenIncreasing(Kept(changes, n + 1, n + 1), at + [n]);
  }

  lemma NotYetSuperseded(changes: seq<Change>, n: nat)
    requires n < |changes|
    ensures !Superseded(changes, n, n + 1)
  {
  }

  lemma IncreasingAppend(at: seq<nat>, n: nat)
    requires Increasing(at) && Under(at, n)
    ensures Increasing(at + [n]) && forall i: nat :: i in at + [n] <==> i in at || i == n
  {
  }

  lemma SameWhenIncreasing(a: seq<nat>, b: seq<nat>)
    requires Increasing(a) && Increasing(b) && forall i: nat :: i in a <==> i in b
    ensures a == b
  {
    IncreasingUnique(a, b);
  }

  // ---------------------------------------------------------------- the loops

  /** The element the backward search looks for. */
  predicate IsPrevious(c: Change, prev: Change) {
    c.configId == prev.configId && c.source == prev.source && c.changeType == STARTED && c.createdAt == prev.createdAt
  }

  /** `at` is the last position of such an element, or -1 when there is none. */
  ghost predicate FoundLast(list: seq<Change>, prev: Change, at: int) {
    -1 <= at < |list| && (at >= 0 ==> IsPrevious(list[at], prev)) &&
    forall k :: at < k < |list| ==> !IsPrevious(list[k], prev)
  }

  /** Removes the last element that looks like `prev`. */
  method RemovePrevious(list: seq<Change>, prev: Change) returns (result: seq<Change>, ghost at: int)
    ensures FoundLast(list, prev, at) && result == if at == -1 then list else list[..at] + list[at + 1..]
    ensures forall k :: FoundLast(list, prev, k) ==> result == if k == -1 then list else list[..k] + list[k + 1..]
  {
    var j := |list| - 1;
    while j >= 0
      invariant -1 <= j < |list|
      invariant forall k :: j < k < |list| ==> !IsPrevious(list[k], prev)
    {
      if IsPrevious(list[j], prev) {
        return list[..j] + list[j + 1..], j;
      }
      j := j - 1;
    }
    return list, -1;
  }

  /** The backward search finds the very event it is looking for, however keys and times interleave. */
  lemma SearchFindsPrevious(changes: seq<Change>, n: nat, p: nat, at: seq<nat>, pos: nat, list: seq<Change>, found: int)
    requires n < |changes| && LastOfOrigin(changes, p, n) && changes[p].changeType == STARTED
    requires Increasing(at) && Under(at, n) && list == Pick(changes, at)
    requires pos < |at| && at[pos] == p
    requires FoundLast(list, changes[p], found)
    ensures found == pos
  {
    assert IsPrevious(list[pos], changes[p]);
    forall k | pos < k < |at| ensures !IsPrevious(list[k], changes[p]) {
      assert at[k] > p && !SameOrigin(changes[at[k]], changes[n]);
    }
  }

  lemma RemovalKeeps(changes: seq<Change>, n: nat, at: seq<nat>, pos: nat)
    requires n < |changes| && Increasing(at) && Under(at, n) && pos < |at|
    ensures var rest := at[..pos] + at[pos + 1..];
            && Without(at, at[pos], rest) && Under(rest, n)
            && Pick(changes, rest) == Pick(changes, at)[..pos] + Pick(changes, at)[pos + 1..]
  {
    var rest := at[..pos] + at[pos + 1..];
    forall x | x in at && x != at[pos] ensures x in rest {
      var k :| 0 <= k < |at| && at[k] == x;
      assert rest[if k < pos then k else k - 1] == x;
    }
  }

  /** The tracking map points at the last event of each origin among the first `n`. */
  ghost predicate Tracks(last: map<string, nat>, changes: seq<Change>, n: nat)
    requires n <= |changes|
  {
    && (forall k :: k in last ==> last[k] < n && OriginKey(changes[last[k]]) == k)
    && (forall i :: 0 <= i < n ==> OriginKey(changes[i]) in last && i <= last[OriginKey(changes[i])])
  }

  lemma TracksLast(last: map<string, nat>, changes: seq<Change>, n: nat)
    requires n < |changes| && Tracks(last, changes, n)
    ensures OriginKey(changes[n]) in last ==> LastOfOrigin(changes, last[OriginKey(changes[n])], n)
    ensures OriginKey(changes[n]) !in last ==> forall i :: 0 <= i < n ==> !SameOrigin(changes[i], changes[n])
  {
    forall i | 0 <= i < n { OriginKeyInjective(changes[i], changes[n]); }
  }

  lemma TracksNext(last: map<string, nat>, changes: seq<Change>, n: nat)
    requires n < |changes| && Tracks(last, changes, n)
    ensures Tracks(last[OriginKey(changes[n]) := n], changes, n + 1)
  {
  }

  /** One turn of the loop: what is kept among the first `n + 1` events. */
  method Extend(changes: seq<Change>, n: nat, last: map<string, nat>, list: seq<Change>) returns (result: seq<Change>)
    requires n < |changes| && Tracks(last, changes, n)
    requires Under(Kept(changes, n, n), n) && list == Pick(changes, Kept(changes, n, n))
    ensures Under(Kept(changes, n + 1, n + 1), n + 1) && result == Pick(changes, Kept(changes, n + 1, n + 1))
  {
    var change := changes[n];
    KeptFacts(changes, n, n);
    KeptFacts(changes, n + 1, n + 1);
    TracksLast(last, changes, n);
    result := list;
    if OriginKey(change) in last {
      var p := last[OriginKey(change)];
      if changes[p].changeType == STARTED && change.changeType == COMPLETED {
        ghost var found;
        result, found := RemovePrevious(list, changes[p]);
        PairStep(changes, n, p, list, found);
      } else {
        forall q: nat | LastOfOrigin(changes, q, n) ensures q == p { OneLast(changes, q, p, n); }
        QuietStep(changes, n);
      }
    } else {
      QuietStep(changes, n);
    }
    result := result + [change];
  }

  /** An event that completes nothing supersedes nothing. */
  lemma QuietStep(changes: seq<Change>, n: nat)
    requires n < |changes|
    requires forall p: nat :: LastOfOrigin(changes, p, n) ==>
               changes[p].changeType != STARTED || changes[n].changeType != COMPLETED
    ensures Kept(changes, n + 1, n + 1) == Kept(changes, n, n) + [n]
  {
    KeptFacts(changes, n, n);
    forall i | 0 <= i < n { SupersededStep(changes, i, n); }
    KeptStep(changes, n, Kept(changes, n, n));
  }

  /** A completion supersedes exactly the event that the backward search removes. */
  lemma PairStep(changes: seq<Change>, n: nat, p: nat, list: seq<Change>, found: int)
    requires n < |changes| && LastOfOrigin(changes, p, n)
    requires changes[p].changeType == STARTED && changes[n].changeType == COMPLETED
    requires Under(Kept(changes, n, n), n) && list == Pick(changes, Kept(changes, n, n))
    requires FoundLast(list, changes[p], found)
    ensures found != -1 && Kept(changes, n, n)[found] == p
    ensures Under(Kept(changes, n + 1, n + 1), n + 1)
    ensures Pick(changes, Kept(changes, n + 1, n + 1)) == list[..found] + list[found + 1..] + [changes[n]]
  {
    var at := Kept(changes, n, n);
    KeptFacts(changes, n, n);
    LastSurvives(changes, p, n);
    var pos :| 0 <= pos < |at| && at[pos] == p;
    SearchFindsPrevious(changes, n, p, at, pos, list, found);
    RemovalKeeps(changes, n, at, pos);
    var rest := at[..pos] + at[pos + 1..];
    KeptWithout(changes, n, p, rest);
    PickAppend(changes, rest, n);
  }

  lemma PickAppend(changes: seq<Change>, at: seq<nat>, n: nat)
    requires n < |changes| && Under(at, n)
    ensures Under(at + [n], n + 1) && Pick(changes, at + [n]) == Pick(changes, at) + [changes[n]]
  {
  }

  /** Of the events kept so far, only the superseded one goes. */
  lemma KeptWithout(changes: seq<Change>, n: nat, p: nat, rest: seq<nat>)
    requires n < |changes| && LastOfOrigin(changes, p, n)
    requires changes[p].changeType == STARTED && changes[n].changeType == COMPLETED
    requires Without(Kept(changes, n, n), p, rest)
    ensures Kept(changes, n + 1, n + 1) == rest + [n]
  {
    KeptFacts(changes, n, n);
    forall i: nat | i < n ensures Superseded(changes, i, n + 1) <==> Superseded(changes, i, n) || i == p {
      SupersededStep(changes, i, n);
      if LastOfOrigin(changes, i, n) { OneLast(changes, i, p, n); }
    }
    KeptStep(changes, n, rest);
  }

  lemma OneLast(changes: seq<Change>, i: nat, p: nat, n: nat)
    requires n < |changes| && LastOfOrigin(changes, i, n) && LastOfOrigin(changes, p, n)
    ensures i == p
  {
  }

  method DedupBackupChanges(changes: seq<Change>) returns (result: seq<Change>)
    ensures result == Deduped(changes)
  {
    result := [];
    var lastChange: map<string, nat> := map[];
    var i := 0;
    while i < |changes|
      invariant 0 <= i <= |changes| && Tracks(lastChange, changes, i)
      invariant Under(Kept(changes, i, i), i) && result == Pick(changes, Kept(changes, i, i))
    {
      result := Extend(changes, i, lastChange, result);
      TracksNext(lastChange, changes, i);
      lastChange := lastChange[OriginKey(changes[i]) := i];
      i := i + 1;
    }
  }

  // ---------------------------------------------------------------- what the filter means

  /** An event is listed exactly when it is not a start that was followed by its completion. */
  lemma DedupedKeepsExactly(changes: seq<Change>)
    ensures var at := Kept(changes, |changes|, |changes|);
            && |Deduped(changes)| == |at| && Increasing(at)
            && (forall k :: 0 <= k < |at| ==> at[k] < |changes| && Deduped(changes)[k] == changes[at[k]])
            && (forall i: nat :: i in at <==> i < |changes| && !Superseded(changes, i, |changes|))
  {
    KeptFacts(changes, |changes|, |changes|);
  }

  /** Whatever the pairing removes, every event that is not a start is still listed. */
  lemma CompletionsSurvive(changes: seq<Change>, i: nat)
    requires i < |changes| && changes[i].changeType != STARTED
    ensures changes[i] in Deduped(changes)
  {
    KeptFacts(changes, |changes|, |changes|);
    var at := Kept(changes, |changes|, |changes|);
    assert i in at;
    var k :| 0 <= k < |at| && at[k] == i;
    assert Deduped(changes)[k] == changes[i];
  }

  ghost predicate OldestFirst(changes: seq<Change>) {
    forall i, j :: 0 <= i < j < |changes| ==> changes[i].createdAt <= changes[j].createdAt
  }

  ghost predicate NewestFirst(changes: seq<Change>) {
    forall i, j :: 0 <= i < j < |changes| ==> changes[i].createdAt >= changes[j].createdAt
  }

  method Reversed(list: seq<Change>) returns (result: seq<Change>)
    ensures |result| == |list|
    ensures forall k :: 0 <= k < |list| ==> result[k] == list[|list| - 1 - k]
  {
    result := list;
    var lo, hi := 0, |list| - 1;
    while lo < hi
      invariant 0 <= lo <= |list| == |result| && hi == |list| - 1 - lo && lo <= hi + 1
      invariant forall k :: lo <= k <= hi ==> result[k] == list[k]
      invariant forall k :: 0 <= k < lo ==> result[k] == list[|list| - 1 - k]
      invariant forall k :: hi < k < |list| ==> result[k] == list[|list| - 1 - k]
    {
      result := result[lo := result[hi]][hi := result[lo]];
      lo, hi := lo + 1, hi - 1;
    }
  }

  lemma DedupedKeepsOrder(changes: seq<Change>)
    requires OldestFirst(changes)
    ensures OldestFirst(Deduped(changes))
  {
    KeptFacts(changes, |changes|, |changes|);
  }

  /** The published list: deduplicated, then reversed, so the newest backup comes first. */
  method GetApplicationBackups(changes: seq<Change>) returns (backups: seq<Change>)
    requires OldestFirst(changes)
    ensures |backups| == |Deduped(changes)|
    ensures forall k :: 0 <= k < |backups| ==> backups[k] == Deduped(changes)[|backups| - 1 - k]
    ensures NewestFirst(backups)
  {
    var list := DedupBackupChanges(changes);
    DedupedKeepsOrder(changes);
    backups := Reversed(list);
  }
}
