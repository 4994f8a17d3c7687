/**
 Draining artifacts to the upstream (artifacts/jobs.go): batch after batch, each artifact is read from the store,
 pushed, and only then marked as pushed.
 */
module ArtifactSync {
  import opened Base

  datatype Artifact = Artifact(id: string, path: string, createdAt: int, isPushed: bool, isDataPushed: bool)

  predicate Pending(a: Artifact) {
    a.isPushed && !a.isDataPushed
  }

  predicate UniqueIds(rows: seq<Artifact>) {
    forall i, j :: 0 <= i < j < |rows| ==> rows[i].id != rows[j].id
  }

  ghost predicate OldestFirst(xs: seq<Artifact>) {
    forall i, j :: 0 <= i < j < |xs| ==> xs[i].createdAt <= xs[j].createdAt
  }

  /** After everything that is no younger. */
  function InsertByTime(xs: seq<Artifact>, a: Artifact): (r: seq<Artifact>)
    ensures |r| == |xs| + 1
  {
    if xs == [] || xs[|xs| - 1].createdAt <= a.createdAt then xs + [a]
    else InsertByTime(xs[..|xs| - 1], a) + [xs[|xs| - 1]]
  }

  /** The pending rows, oldest first; equal times keep the order of the table. */
  function PendingRows(rows: seq<Artifact>): (r: seq<Artifact>)
    ensures |r| <= |rows|
  {
    if rows == [] then []
    else
      var front, last := PendingRows(rows[..|rows| - 1]), rows[|rows| - 1];
      if Pending(last) then InsertByTime(front, last) else front
  }

  function Ids(xs: seq<Artifact>): seq<string> {
    seq(|xs|, i requires 0 <= i < |xs| => xs[i].id)
  }

  function PendingIds(rows: seq<Artifact>): seq<string> {
    Ids(PendingRows(rows))
  }

  /** The rows with the given artifacts marked. */
  function Marked(rows: seq<Artifact>, ids: seq<string>): seq<Artifact> {
    seq(|rows|, i requires 0 <= i < |rows| => if rows[i].id in ids then rows[i].(isDataPushed := true) else rows[i])
  }

  datatype Event = Pushed(id: string) | Marks(id: string)

  function Events(ids: seq<string>): seq<Event> {
    if ids == [] then [] else Events(ids[..|ids| - 1]) + [Pushed(ids[|ids| - 1]), Marks(ids[|ids| - 1])]
  }

  /** Whatever was marked had been pushed before. */
  ghost predicate PushedBeforeMarked(log: seq<Event>) {
    forall k :: 0 <= k < |log| && log[k].Marks? ==> exists j :: 0 <= j < k && log[j] == Pushed(log[k].id)
  }

  /**
   Each artifact is handled at most once in a call, so a fault is a property of the artifact, a query or the store.
   */
  datatype Faults = Faults(query: set<nat>, store: bool, read: set<string>, push: set<string>, mark: set<string>)

  datatype Outcome =
    | Completed(count: nat)
    | QueryFailed
    | StoreFailed
    | ReadFailed(count: nat)
    | PushFailed(count: nat)
    | MarkFailed

  /** The number that the caller gets, with or without an error. */
  function Reported(outcome: Outcome): nat {
    match outcome
    case Completed(count) => count
    case ReadFailed(count) => count
    case PushFailed(count) => count
    case _ => 0
  }

  // ---------------------------------------------------------------- what marking does to the pending list

  lemma {:induction false} InsertMembers(xs: seq<Artifact>, a: Artifact)
    ensures multiset(InsertByTime(xs, a)) == multiset(xs) + multiset{a}
  {
    if xs != [] {
      assert xs == xs[..|xs| - 1] + [xs[|xs| - 1]];
      if xs[|xs| - 1].createdAt > a.createdAt { InsertMembers(xs[..|xs| - 1], a); }
    }
  }

  lemma {:induction false} InsertOldestFirst(xs: seq<Artifact>, a: Artifact)
    requires OldestFirst(xs)
    ensures OldestFirst(InsertByTime(xs, a))
  {
    if xs != [] && xs[|xs| - 1].createdAt > a.createdAt {
      var front, last := xs[..|xs| - 1], xs[|xs| - 1];
      InsertOldestFirst(front, a);
      InsertMembers(front, a);
      var more := InsertByTime(front, a);
      forall i | 0 <= i < |more| ensures more[i].createdAt <= last.createdAt {
        assert more[i] in multiset(more);
        assert more[i] == a || more[i] in front;
      }
    }
  }

  /** The queue is a rearrangement, oldest first, of the rows that are pushed without their data. */
  lemma {:induction false} PendingOldestFirst(rows: seq<Artifact>)
    ensures OldestFirst(PendingRows(rows)) && forall a ::
              multiset(PendingRows(rows))[a] == if a.isPushed && !a.isDataPushed then multiset(rows)[a] else 0
  {
    if rows != [] {
      assert rows == rows[..|rows| - 1] + [rows[|rows| - 1]];
      PendingOldestFirst(rows[..|rows| - 1]);
      InsertMembers(PendingRows(rows[..|rows| - 1]), rows[|rows| - 1]);
      InsertOldestFirst(PendingRows(rows[..|rows| - 1]), rows[|rows| - 1]);
    }
  }

  lemma {:induction false} PendingAt(rows: seq<Artifact>, a: Artifact)
    ensures a in PendingRows(rows) <==> a in rows && a.isPushed && !a.isDataPushed
  {
    if rows != [] {
      var front, last := rows[..|rows| - 1], rows[|rows| - 1];
      PendingAt(front, a);
      assert rows == front + [last];
      InsertMembers(PendingRows(front), last);
      assert a in InsertByTime(PendingRows(front), last) <==> a in multiset(InsertByTime(PendingRows(front), last));
    }
  }

  lemma IdsDistinct(xs: seq<Artifact>, ys: seq<Artifact>)
    requires multiset(xs) == multiset(ys) && Distinct(Ids(ys))
    ensures Distinct(Ids(xs))
  {
    forall i, j | 0 <= i < j < |xs| ensures xs[i].id != xs[j].id {
      if xs[i].id == xs[j].id { TwiceTheId(xs, ys, i, j); }
    }
  }

  lemma TwiceIn(xs: seq<Artifact>, i: nat, j: nat)
    requires i < j < |xs| && xs[i] == xs[j]
    ensures multiset(xs)[xs[i]] >= 2
  {
    assert xs == xs[..j] + [xs[j]] + xs[j + 1..];
    assert xs[i] in xs[..j];
  }

  lemma AnotherIn(ys: seq<Artifact>, k: nat) returns (m: nat)
    requires k < |ys| && multiset(ys)[ys[k]] >= 2
    ensures m < |ys| && m != k && ys[m] == ys[k]
  {
    var rest := ys[..k] + ys[k + 1..];
    assert ys == ys[..k] + [ys[k]] + ys[k + 1..];
    assert ys[k] in multiset(rest);
    var l: nat :| l < |rest| && rest[l] == ys[k];
    m := if l < k then l else l + 1;
  }

  lemma TwiceTheId(xs: seq<Artifact>, ys: seq<Artifact>, i: nat, j: nat)
    requires multiset(xs) == multiset(ys) && i < j < |xs| && xs[i].id == xs[j].id
    ensures !Distinct(Ids(ys))
  {
    assert xs[i] in multiset(ys) && xs[j] in multiset(ys);
    var k :| 0 <= k < |ys| && ys[k] == xs[i];
    var l :| 0 <= l < |ys| && ys[l] == xs[j];
    if k == l {
      TwiceIn(xs, i, j);
      var m := AnotherIn(ys, k);
      assert Ids(ys)[m] == Ids(ys)[k];
    } else {
      assert Ids(ys)[k] == Ids(ys)[l];
    }
  }

  lemma {:induction false} PendingDistinct(rows: seq<Artifact>)
    requires UniqueIds(rows)
    ensures Distinct(PendingIds(rows))
  {
    if rows != [] {
      var front, last := rows[..|rows| - 1], rows[|rows| - 1];
      var queue := PendingRows(front);
      PendingDistinct(front);
      if Pending(last) {
        forall k | 0 <= k < |queue| ensures Ids(queue)[k] != last.id {
          PendingAt(front, queue[k]);
          var m :| 0 <= m < |front| && front[m] == queue[k];
          assert rows[m] == front[m];
        }
        InsertMembers(queue, last);
        assert Ids(queue + [last]) == Ids(queue) + [last.id];
        IdsDistinct(InsertByTime(queue, last), queue + [last]);
      }
    }
  }

  function Except(ids: seq<string>, done: seq<string>): seq<string> {
    if ids == [] then []
    else Except(ids[..|ids| - 1], done) + if ids[|ids| - 1] in done then [] else [ids[|ids| - 1]]
  }

  function Without(xs: seq<Artifact>, done: seq<string>): seq<Artifact> {
    if xs == [] then []
    else Without(xs[..|xs| - 1], done) + if xs[|xs| - 1].id in done then [] else [xs[|xs| - 1]]
  }

  lemma {:induction false} WithoutMembers(xs: seq<Artifact>, done: seq<string>, a: Artifact)
    ensures a in Without(xs, done) <==> a in xs && a.id !in done
  {
    if xs != [] {
      WithoutMembers(xs[..|xs| - 1], done, a);
      assert xs == xs[..|xs| - 1] + [xs[|xs| - 1]];
    }
  }

  lemma {:induction false} WithoutIds(xs: seq<Artifact>, done: seq<string>)
    ensures Ids(Without(xs, done)) == Except(Ids(xs), done)
  {
    if xs != [] {
      WithoutIds(xs[..|xs| - 1], done);
      assert Ids(xs)[..|xs| - 1] == Ids(xs[..|xs| - 1]);
      assert Ids(Without(xs, done)) ==
             Ids(Without(xs[..|xs| - 1], done)) + if xs[|xs| - 1].id in done then [] else [xs[|xs| - 1].id];
    }
  }

  lemma KeptAreOlder(xs: seq<Artifact>, a: Artifact, done: seq<string>)
    requires OldestFirst(xs) && (xs == [] || xs[|xs| - 1].createdAt <= a.createdAt)
    ensures InsertByTime(Without(xs, done), a) == Without(xs, done) + [a]
  {
    var kept := Without(xs, done);
    if kept != [] {
      WithoutMembers(xs, done, kept[|kept| - 1]);
      var k :| 0 <= k < |xs| && xs[k] == kept[|kept| - 1];
      assert xs[k].createdAt <= xs[|xs| - 1].createdAt;
    }
  }

  /** Inserting and leaving out commute. */
  lemma {:induction false} InsertWithout(xs: seq<Artifact>, a: Artifact, done: seq<string>)
    requires OldestFirst(xs)
    ensures Without(InsertByTime(xs, a), done) ==
            if a.id in done then Without(xs, done) else InsertByTime(Without(xs, done), a)
  {
    if xs == [] || xs[|xs| - 1].createdAt <= a.createdAt {
      assert (xs + [a])[..|xs|] == xs;
      KeptAreOlder(xs, a, done);
    } else {
      var front, last := xs[..|xs| - 1], xs[|xs| - 1];
      InsertWithout(front, a, done);
      var more := InsertByTime(front, a);
      assert InsertByTime(xs, a) == more + [last];
      assert (more + [last])[..|more|] == more;
      assert Without(more + [last], done) == Without(more, done) + if last.id in done then [] else [last];
      var kept := Without(front, done);
      assert (kept + [last])[..|kept|] == kept;
      assert Without(xs, done) == if last.id in done then kept else kept + [last];
    }
  }

  lemma {:induction false} QueueAfterMarking(rows: seq<Artifact>, done: seq<string>)
    ensures PendingRows(Marked(rows, done)) == Without(PendingRows(rows), done)
  {
    if rows != [] {
      var front, last := rows[..|rows| - 1], rows[|rows| - 1];
      QueueAfterMarking(front, done);
      var marked := Marked(rows, done);
      assert marked[..|rows| - 1] == Marked(front, done);
      assert marked[|rows| - 1] == if last.id in done then last.(isDataPushed := true) else last;
      PendingOldestFirst(front);
      if Pending(last) { InsertWithout(PendingRows(front), last, done); }
    }
  }

  lemma PendingAfterMarking(rows: seq<Artifact>, done: seq<string>)
    ensures PendingIds(Marked(rows, done)) == Except(PendingIds(rows), done)
  {
    QueueAfterMarking(rows, done);
    WithoutIds(PendingRows(rows), done);
  }

  lemma {:induction false} ExceptPrefix(ids: seq<string>, k: nat, n: nat)
    requires Distinct(ids) && k <= n <= |ids|
    ensures Except(ids[..n], ids[..k]) == ids[k..n]
  {
    if n > k {
      ExceptPrefix(ids, k, n - 1);
      assert ids[..n][..n - 1] == ids[..n - 1];
    } else {
      ExceptOwn(ids[..k], ids[..k]);
    }
  }

  lemma {:induction false} ExceptOwn(ids: seq<string>, done: seq<string>)
    requires forall k :: 0 <= k < |ids| ==> ids[k] in done
    ensures Except(ids, done) == []
  {
    if ids != [] { ExceptOwn(ids[..|ids| - 1], done); }
  }

  /** After the first `k` pending artifacts are marked, exactly the others are pending. */
  lemma PendingAfterPrefix(rows: seq<Artifact>, k: nat)
    requires UniqueIds(rows) && k <= |PendingIds(rows)|
    ensures PendingIds(Marked(rows, PendingIds(rows)[..k])) == PendingIds(rows)[k..]
  {
    var ids := PendingIds(rows);
    PendingDistinct(rows);
    PendingAfterMarking(rows, ids[..k]);
    ExceptPrefix(ids, k, |ids|);
    assert ids[..|ids|] == ids;
  }

  lemma MarkedMore(rows: seq<Artifact>, ids: seq<string>, id: string)
    ensures Marked(Marked(rows, ids), [id]) == Marked(rows, ids + [id])
    ensures UniqueIds(rows) ==> UniqueIds(Marked(rows, ids))
  {
  }

  // ---------------------------------------------------------------- order of effects

  lemma {:induction false} EventsInOrder(log: seq<Event>, ids: seq<string>)
    requires PushedBeforeMarked(log)
    ensures PushedBeforeMarked(log + Events(ids))
  {
    if ids == [] {
      assert log + Events(ids) == log;
    } else {
      var front, id := ids[..|ids| - 1], ids[|ids| - 1];
      EventsInOrder(log, front);
      var before := log + Events(front);
      assert log + Events(ids) == before + [Pushed(id)] + [Marks(id)];
      OneMoreInOrder(before, id);
    }
  }

  lemma OneMoreInOrder(log: seq<Event>, id: string)
    requires PushedBeforeMarked(log)
    ensures PushedBeforeMarked(log + [Pushed(id)]) && PushedBeforeMarked(log + [Pushed(id)] + [Marks(id)])
  {
    var pushed := log + [Pushed(id)];
    forall k | 0 <= k < |pushed| && pushed[k].Marks?
      ensures exists j :: 0 <= j < k && pushed[j] == Pushed(pushed[k].id)
    {
      var j :| 0 <= j < k && log[j] == Pushed(log[k].id);
      assert pushed[j] == Pushed(pushed[k].id);
    }
    var marked := pushed + [Marks(id)];
    forall k | 0 <= k < |marked| && marked[k].Marks?
      ensures exists j :: 0 <= j < k && marked[j] == Pushed(marked[k].id)
    {
      var j :| 0 <= j < k && (if k < |pushed| then pushed[j] == Pushed(pushed[k].id) else j == |log|);
      assert marked[j] == Pushed(marked[k].id);
    }
  }

  // ---------------------------------------------------------------- what a call leaves behind

  /** The first `done` pending artifacts went through; `half` says that one more was pushed but could not be marked. */
  ghost predicate Leaves(rows: seq<Artifact>, log: seq<Event>, rows': seq<Artifact>, log': seq<Event>,
                         done: nat, half: bool) {
    var ids := PendingIds(rows);
    && done <= |ids| && (half ==> done < |ids|)
    && rows' == Marked(rows, ids[..done])
    && log' == log + Events(ids[..done]) + if half then [Pushed(ids[done])] else []
  }

  ghost predicate Clean(ids: seq<string>, faults: Faults, n: nat)
    requires n <= |ids|
  {
    (n > 0 ==> !faults.store) && forall k :: 0 <= k < n ==> ids[k] !in faults.read + faults.push + faults.mark
  }

  /** Why the call stopped where it did. */
  ghost predicate Explains(rows: seq<Artifact>, faults: Faults, batchSize: int, outcome: Outcome, done: nat)
    requires done <= |PendingIds(rows)|
  {
    var ids := PendingIds(rows);
    && Clean(ids, faults, done)
    && match outcome
       case Completed(count) => count == done == if batchSize == 0 then 0 else |ids|
       case QueryFailed => faults.query != {}
       case StoreFailed => faults.store && done == 0 && ids != [] && batchSize != 0
       case ReadFailed(count) => count == done && StopsAt(ids, faults, batchSize, done) && ids[done] in faults.read
       case PushFailed(count) =>
         count == done && StopsAt(ids, faults, batchSize, done) && ids[done] in faults.push - faults.read
       case MarkFailed =>
         StopsAt(ids, faults, batchSize, done) && ids[done] in faults.mark - faults.push - faults.read
  }

  /** Where a batch stands after `at` artifacts. */
  ghost predicate InBatch(rows: seq<Artifact>, log: seq<Event>, rows': seq<Artifact>, log': seq<Event>,
                          batchSize: int, faults: Faults, at: nat, failure: Option<Outcome>) {
    && Leaves(rows, log, rows', log', at, failure == Some(MarkFailed)) && Clean(PendingIds(rows), faults, at)
    && failure != Some(QueryFailed)
    && (failure.Some? ==> !failure.value.Completed? && Explains(rows, faults, batchSize, failure.value, at))
  }

  /** There is an artifact to stop at, and the store is open. */
  ghost predicate StopsAt(ids: seq<string>, faults: Faults, batchSize: int, done: nat) {
    done < |ids| && !faults.store && batchSize != 0
  }

  /** How many artifacts have gone through when the query of the round is made, out of `total`. */
  ghost function BeforeRound(round: nat, batchSize: int, total: nat): (n: nat)
    ensures n <= total
  {
    if round == 0 then 0
    else
      var n := BeforeRound(round - 1, batchSize, total);
      if batchSize < 0 || n + batchSize >= total then total else n + batchSize
  }

  /** A call that nothing stops makes the query of the round: every query before it had an answer. */
  ghost predicate Queries(round: nat, batchSize: int, total: nat) {
    round == 0 || (batchSize != 0 && BeforeRound(round - 1, batchSize, total) < total)
  }

  /** A failing query stops the call if it gets that far, and only a failing query is reported as one. */
  ghost predicate StopsAtQueries(faults: Faults, batchSize: int, total: nat, outcome: Outcome, done: nat) {
    && (forall r: nat :: r in faults.query && Queries(r, batchSize, total) ==>
          done < BeforeRound(r, batchSize, total)
          || (outcome == QueryFailed && done == BeforeRound(r, batchSize, total)))
    && (outcome == QueryFailed ==>
          exists r: nat ::
            r in faults.query && Queries(r, batchSize, total) && done == BeforeRound(r, batchSize, total))
  }

  lemma {:induction false} RoundsGrow(q: nat, r: nat, batchSize: int, total: nat)
    requires q <= r
    ensures BeforeRound(q, batchSize, total) <= BeforeRound(r, batchSize, total)
  {
    if q < r { RoundsGrow(q, r - 1, batchSize, total); }
  }

  /** A call gets through exactly when no query it makes fails and, if it has any work, neither does anything else. */
  lemma CompletesIff(rows: seq<Artifact>, faults: Faults, batchSize: int, outcome: Outcome, done: nat)
    requires done <= |PendingIds(rows)| && Explains(rows, faults, batchSize, outcome, done)
    requires StopsAtQueries(faults, batchSize, |PendingIds(rows)|, outcome, done)
    ensures outcome.Completed? <==>
            var ids := PendingIds(rows);
            && (forall r: nat :: r in faults.query ==> !Queries(r, batchSize, |ids|))
            && (batchSize == 0 || ids == [] || Clean(ids, faults, |ids|))
  {
  }

  /** Nothing goes wrong: every call with a limit other than zero empties the queue and reports how long it was. */
  lemma CleanCallDrains(rows: seq<Artifact>, log: seq<Event>, rows': seq<Artifact>, log': seq<Event>,
                        faults: Faults, batchSize: int, outcome: Outcome, done: nat)
    requires UniqueIds(rows) && Leaves(rows, log, rows', log', done, outcome.MarkFailed?)
    requires Explains(rows, faults, batchSize, outcome, done)
    requires faults == Faults({}, false, {}, {}, {}) && batchSize != 0
    ensures outcome == Completed(|PendingIds(rows)|) && PendingIds(rows') == []
    ensures log' == log + Events(PendingIds(rows))
  {
    PendingAfterPrefix(rows, done);
    var ids := PendingIds(rows);
    assert ids[..|ids|] == ids;
  }

  /** Success with a limit other than zero leaves nothing pending and reports the initial number. */
  lemma SuccessLeavesNothing(rows: seq<Artifact>, log: seq<Event>, rows': seq<Artifact>, log': seq<Event>,
                             faults: Faults, batchSize: int, outcome: Outcome, done: nat)
    requires UniqueIds(rows) && Leaves(rows, log, rows', log', done, outcome.MarkFailed?)
    requires Explains(rows, faults, batchSize, outcome, done) && outcome.Completed?
    ensures PendingIds(rows') == [] <==> batchSize != 0 || PendingIds(rows) == []
    ensures PendingIds(rows') == [] ==> outcome.count == |PendingIds(rows)|
  {
    PendingAfterPrefix(rows, done);
  }

  /** However a call ends, marked artifacts had been pushed, and the pending list lost exactly a prefix. */
  lemma EveryExitIsSafe(rows: seq<Artifact>, log: seq<Event>, rows': seq<Artifact>, log': seq<Event>,
                        faults: Faults, batchSize: int, outcome: Outcome, done: nat)
    requires UniqueIds(rows) && PushedBeforeMarked(log)
    requires Leaves(rows, log, rows', log', done, outcome.MarkFailed?)
    requires Explains(rows, faults, batchSize, outcome, done)
    ensures PushedBeforeMarked(log')
    ensures PendingIds(rows') == PendingIds(rows)[done..]
    ensures Reported(outcome) == if outcome.QueryFailed? || outcome.MarkFailed? then 0 else done
    ensures forall i :: 0 <= i < |rows'| && rows'[i].isDataPushed && !rows[i].isDataPushed ==>
                          rows'[i].id in PendingIds(rows)[..done]
  {
    PendingAfterPrefix(rows, done);
    EventsInOrder(log, PendingIds(rows)[..done]);
    var all := log + Events(PendingIds(rows)[..done]);
    if outcome.MarkFailed? { OneMoreInOrder(all, PendingIds(rows)[done]); } else { assert log' == all; }
  }

  /**
   A failed call followed by a successful one: the second handles exactly the artifacts that the first did not mark, so
   together they mark each pending artifact once, and push one twice only if marking it failed.
   */
  lemma RetryFinishes(rows0: seq<Artifact>, log0: seq<Event>, rows1: seq<Artifact>, log1: seq<Event>,
                      rows2: seq<Artifact>, log2: seq<Event>,
                      faults: Faults, batchSize: int, outcome: Outcome, done: nat, half: bool, done2: nat)
    requires UniqueIds(rows0) && batchSize != 0
    requires Leaves(rows0, log0, rows1, log1, done, half) && Leaves(rows1, log1, rows2, log2, done2, false)
    requires outcome.Completed? && Explains(rows1, faults, batchSize, outcome, done2)
    ensures var ids := PendingIds(rows0);
            && PendingIds(rows2) == [] && done + outcome.count == |ids|
            && log2 == log0 + Events(ids[..done]) + (if half then [Pushed(ids[done])] else []) + Events(ids[done..])
  {
    var ids := PendingIds(rows0);
    PendingAfterPrefix(rows0, done);
    MarkedMore(rows0, ids[..done], "");
    PendingAfterPrefix(rows1, done2);
    assert ids[done..][..done2] == ids[done..];
  }

  // ---------------------------------------------------------------- the job

  class Agent {
    var rows: seq<Artifact>
    ghost var log: seq<Event>

    constructor (rows: seq<Artifact>)
      ensures this.rows == rows && log == []
    {
      this.rows := rows;
      log := [];
    }

    /** The query of one batch, oldest first; a negative limit means no limit. */
    method FindPending(batchSize: int) returns (ids: seq<string>)
      ensures var all := PendingIds(rows);
              ids == if batchSize < 0 || batchSize >= |all| then all else all[..batchSize]
    {
      var queue := [];
      for i := 0 to |rows|
        invariant queue == PendingRows(rows[..i])
      {
        assert rows[..i + 1][..i] == rows[..i];
        if Pending(rows[i]) {
          queue := InsertByTime(queue, rows[i]);
        }
      }
      assert rows[..|rows|] == rows;
      ids := Ids(if batchSize < 0 || batchSize >= |queue| then queue else queue[..batchSize]);
    }

    method MarkDataPushed(id: string)
      modifies this
      ensures rows == Marked(old(rows), [id]) && log == old(log) + [Marks(id)]
    {
      var i := 0;
      while i < |rows|
        invariant 0 <= i <= |rows| == |old(rows)| && log == old(log)
        invariant forall k :: 0 <= k < i ==> rows[k] == Marked(old(rows), [id])[k]
        invariant forall k :: i <= k < |rows| ==> rows[k] == old(rows)[k]
      {
        if rows[i].id == id {
          rows := rows[i := rows[i].(isDataPushed := true)];
        }
        i := i + 1;
      }
      log := log + [Marks(id)];
    }

    ghost method PushArtifact(id: string)
      modifies `log
      ensures log == old(log) + [Pushed(id)]
    {
      log := log + [Pushed(id)];
    }

    /** One artifact of a batch: the store opens on first use, then read, push, mark. */
    method SyncOne(id: string, ready: bool, faults: Faults, count: nat) returns (failure: Option<Outcome>)
      modifies this
      ensures match failure
              case None => rows == Marked(old(rows), [id]) && log == old(log) + [Pushed(id)] + [Marks(id)]
                           && id !in faults.read + faults.push + faults.mark
              case Some(MarkFailed) => rows == old(rows) && log == old(log) + [Pushed(id)]
                                       && id in faults.mark - faults.push - faults.read
              case Some(StoreFailed) => rows == old(rows) && log == old(log) && faults.store && !ready
              case Some(ReadFailed(n)) => rows == old(rows) && log == old(log) && n == count && id in faults.read
              case Some(PushFailed(n)) => rows == old(rows) && log == old(log) && n == count
                                          && id in faults.push - faults.read
              case Some(_) => false
      ensures failure != Some(StoreFailed) ==> ready || !faults.store
    {
      if !ready && faults.store { return Some(StoreFailed); }
      if id in faults.read { return Some(ReadFailed(count)); }
      if id in faults.push { return Some(PushFailed(count)); }
      PushArtifact(id);
      if id in faults.mark { return Some(MarkFailed); }
      MarkDataPushed(id);
      return None;
    }

    /** The next artifact, after the first `count` went through. */
    method SyncNext(id: string, batchSize: int, count: nat, faults: Faults, ghost rows0: seq<Artifact>,
          ghost log0: seq<Event>)
      returns (failure: Option<Outcome>)
      requires UniqueIds(rows0) && InBatch(rows0, log0, rows, log, batchSize, faults, count, None)
      requires count < |PendingIds(rows0)| && id == PendingIds(rows0)[count] && batchSize != 0
      modifies this
      ensures InBatch(rows0, log0, rows, log, batchSize, faults, if failure.None? then count + 1 else count, failure)
    {
      failure := SyncOne(id, count > 0, faults, count);
      OneMoreLeft(rows0, log0, count);
    }

    /** A batch stops at the first artifact that fails. */
    method SyncBatch(batch: seq<string>, batchSize: int, count: nat, faults: Faults,
                     ghost rows0: seq<Artifact>, ghost log0: seq<Event>)
      returns (failure: Option<Outcome>, pushed: nat)
      requires UniqueIds(rows0) && InBatch(rows0, log0, rows, log, batchSize, faults, count, None)
      requires IsNext(PendingIds(rows0), count, batch) && batchSize != 0
      modifies this
      ensures pushed <= |batch| && (failure.None? <==> pushed == |batch|)
      ensures InBatch(rows0, log0, rows, log, batchSize, faults, count + pushed, failure)
    {
      failure, pushed := None, 0;
      while pushed < |batch|
        invariant pushed <= |batch| && failure.None?
        invariant InBatch(rows0, log0, rows, log, batchSize, faults, count + pushed, None)
      {
        failure := SyncNext(batch[pushed], batchSize, count + pushed, faults, rows0, log0);
        if failure.Some? { return; }
        pushed := pushed + 1;
      }
    }

    /** The query when the first `count` artifacts have gone through. */
    method FindNext(batchSize: int, count: nat, ghost rows0: seq<Artifact>, ghost log0: seq<Event>)
      returns (batch: seq<string>)
      requires UniqueIds(rows0) && Leaves(rows0, log0, rows, log, count, false)
      ensures var all := PendingIds(rows0);
              && IsNext(all, count, batch)
              && |batch| == BatchLength(batchSize, |all| - count)
    {
      PendingAfterPrefix(rows0, count);
      batch := FindPending(batchSize);
    }

    /** One query and its batch; no outcome means that the next query follows. */
    method SyncRound(round: nat, batchSize: int, count: nat, faults: Faults,
                     ghost rows0: seq<Artifact>, ghost log0: seq<Event>)
      returns (outcome: Option<Outcome>, pushed: nat)
      requires UniqueIds(rows0) && Leaves(rows0, log0, rows, log, count, false)
      requires Clean(PendingIds(rows0), faults, count) && GotTo(round, batchSize, |PendingIds(rows0)|, count, faults)
      modifies this
      ensures Leaves(rows0, log0, rows, log, count + pushed, outcome == Some(MarkFailed))
      ensures Clean(PendingIds(rows0), faults, count + pushed)
      ensures outcome.None? ==> pushed > 0
      ensures outcome.None? ==> GotTo(round + 1, batchSize, |PendingIds(rows0)|, count + pushed, faults)
      ensures outcome.Some? ==>
                StopsAtQueries(faults, batchSize, |PendingIds(rows0)|, outcome.value, count + pushed)
      ensures outcome.Some? ==> Explains(rows0, faults, batchSize, outcome.value, count + pushed)
    {
      ghost var total := |PendingIds(rows0)|;
      QueryStops(rows0, round, batchSize, count, faults);
      if round in faults.query { return Some(QueryFailed), 0; }
      var batch := FindNext(batchSize, count, rows0, log0);
      RoundGoes(round, batchSize, total, count, faults, |batch|);
      RoundEmpty(rows0, batchSize, count, faults);
      if |batch| == 0 { return Some(Completed(count)), 0; }
      outcome, pushed := SyncBatch(batch, batchSize, count, faults, rows0, log0);
    }

    method SyncArtifactItems(batchSize: int, faults: Faults) returns (outcome: Outcome, ghost done: nat)
      requires UniqueIds(rows)
      modifies this
      ensures Leaves(old(rows), old(log), rows, log, done, outcome.MarkFailed?)
      ensures Explains(old(rows), faults, batchSize, outcome, done)
      ensures StopsAtQueries(faults, batchSize, |PendingIds(old(rows))|, outcome, done)
    {
      ghost var rows0, log0 := rows, log;
      var count, round := 0, 0;
      NothingLeftYet(rows, log);
      while true
        invariant Leaves(rows0, log0, rows, log, count, false) && Clean(PendingIds(rows0), faults, count)
        invariant GotTo(round, batchSize, |PendingIds(rows0)|, count, faults)
        decreases |PendingIds(rows0)| - count
      {
        var stop, pushed := SyncRound(round, batchSize, count, faults, rows0, log0);
        count, round := count + pushed, round + 1;
        if stop.Some? { return stop.value, count; }
      }
    }
  }

  /** The call is about to make the query of the round, and no query failed so far. */
  ghost predicate GotTo(round: nat, batchSize: int, total: nat, count: nat, faults: Faults) {
    && count == BeforeRound(round, batchSize, total) && Queries(round, batchSize, total)
    && forall r: nat :: r < round ==> r !in faults.query
  }

  lemma QueryStops(rows: seq<Artifact>, round: nat, batchSize: int, count: nat, faults: Faults)
    requires GotTo(round, batchSize, |PendingIds(rows)|, count, faults) && Clean(PendingIds(rows), faults, count)
    ensures round in faults.query ==>
              && StopsAtQueries(faults, batchSize, |PendingIds(rows)|, QueryFailed, count)
              && Explains(rows, faults, batchSize, QueryFailed, count)
  {
    var total := |PendingIds(rows)|;
    forall r: nat | r in faults.query ensures count <= BeforeRound(r, batchSize, total) {
      RoundsGrow(round, r, batchSize, total);
    }
  }

  /** The query of the round has an answer of `size` artifacts. */
  lemma RoundGoes(round: nat, batchSize: int, total: nat, count: nat, faults: Faults, size: nat)
    requires GotTo(round, batchSize, total, count, faults) && round !in faults.query
    requires size == BatchLength(batchSize, total - count)
    ensures size > 0 ==> batchSize != 0
    ensures batchSize == 0 ==> count == 0
    ensures size == 0 ==> StopsAtQueries(faults, batchSize, total, Completed(count), count)
    ensures size > 0 ==> GotTo(round + 1, batchSize, total, count + size, faults)
    ensures size > 0 ==> forall n: nat, o: Outcome :: n < count + size && o != QueryFailed ==>
                           StopsAtQueries(faults, batchSize, total, o, n)
  {
    if size == 0 {
      forall r: nat | r in faults.query ensures !Queries(r, batchSize, total) {
        if r > round { RoundsGrow(round, r - 1, batchSize, total); }
      }
    } else {
      assert BeforeRound(round + 1, batchSize, total) == count + size;
      forall r: nat | r in faults.query ensures count + size <= BeforeRound(r, batchSize, total) {
        RoundsGrow(round + 1, r, batchSize, total);
      }
    }
  }

  lemma NothingLeftYet(rows: seq<Artifact>, log: seq<Event>)
    ensures Leaves(rows, log, rows, log, 0, false)
  {
    assert Marked(rows, PendingIds(rows)[..0]) == rows;
  }

  ghost predicate IsNext(all: seq<string>, count: nat, batch: seq<string>) {
    count + |batch| <= |all| && forall k :: 0 <= k < |batch| ==> batch[k] == all[count + k]
  }

  /** How many of the artifacts left a query answers with. */
  function BatchLength(batchSize: int, left: nat): nat {
    if batchSize < 0 || batchSize >= left then left else batchSize
  }

  /** A query without an answer completes the call: nothing is left, or nothing was asked for. */
  lemma RoundEmpty(rows: seq<Artifact>, batchSize: int, count: nat, faults: Faults)
    requires count <= |PendingIds(rows)| && Clean(PendingIds(rows), faults, count)
    ensures BatchLength(batchSize, |PendingIds(rows)| - count) == 0 && (batchSize == 0 ==> count == 0) ==>
              Explains(rows, faults, batchSize, Completed(count), count)
  {
  }

  lemma OneMoreLeft(rows: seq<Artifact>, log: seq<Event>, at: nat)
    requires at < |PendingIds(rows)| && UniqueIds(rows)
    ensures var ids := PendingIds(rows);
            && Marked(Marked(rows, ids[..at]), [ids[at]]) == Marked(rows, ids[..at + 1])
            && UniqueIds(Marked(rows, ids[..at + 1]))
            && log + Events(ids[..at]) + [Pushed(ids[at])] + [Marks(ids[at])] == log + Events(ids[..at + 1])
  {
    var ids := PendingIds(rows);
    MarkedMore(rows, ids[..at], ids[at]);
    MarkedMore(rows, ids[..at + 1], "");
    assert ids[..at] + [ids[at]] == ids[..at + 1];
    assert ids[..at + 1][..at] == ids[..at];
  }
}
