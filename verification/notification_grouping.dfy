/**
 Concurrent calls of AddResourceToGroup (db/notifications.go) as a step machine: a mutex per hash,
 taken from a shared map, guards a transaction that looks a recent group up or creates one, links the
 resource and commits.  A run is any interleaving of the steps of any number of calls.
 */
module NotificationGrouping {
  import opened Base

  type Hash = string
  type Time = int
  type ThreadId = nat
  type MutexId = nat
  /** A UUID; zero stands for the nil UUID. */
  type GroupId = nat

  const NIL: GroupId := 0

  datatype Resource = Resource(configId: Option<nat>, checkId: Option<nat>, componentId: Option<nat>)

  datatype Call = Call(interval: int, hash: Hash, notification: nat, resource: Resource)

  /** A group row.  `interval` is bookkeeping: the grouping interval of the call that created the row. */
  datatype Group = Group(id: GroupId, notification: nat, hash: Hash, createdAt: Time, interval: int)

  datatype Link = Link(group: GroupId, resource: Resource)

  datatype Outcome = NoGroup | Failed | Success(now: Time, group: Group, created: bool)

  datatype Phase =
    | Start
    | HasMutex(mu: MutexId)
    | Locked(mu: MutexId)
    | InTx(mu: MutexId, now: Time)
    | Missing(mu: MutexId, now: Time)
    | HasGroup(mu: MutexId, now: Time, group: Group, created: bool)
    | Upserted(mu: MutexId, now: Time, group: Group, created: bool)
    | Unlocking(mu: MutexId, outcome: Outcome)
    | Done(result: Outcome)

  datatype Thread = Thread(call: Call, phase: Phase)

  datatype State = State(
    mutexes: map<Hash, MutexId>, nextMutex: MutexId, holders: map<MutexId, ThreadId>,
    groups: seq<Group>, links: set<Link>, used: set<GroupId>, threads: map<ThreadId, Thread>)

  /** `groups` is in commit order. */
  const INIT := State(map[], 0, map[], [], {}, {NIL}, map[])

  datatype Action =
    | Arrive(t: ThreadId, call: Call)
    | GetLock(t: ThreadId)
    | Acquire(t: ThreadId)
    | Begin(t: ThreadId, now: Time)
    | LookUp(t: ThreadId)
    | Insert(t: ThreadId, id: GroupId, createdAt: Time)
    | Upsert(t: ThreadId)
    | Commit(t: ThreadId)
    | Fail(t: ThreadId)
    | Release(t: ThreadId)

  // ---------------------------------------------------------------- steps

  /** The most recently created group of the hash that is younger than the cutoff. */
  function Newest(groups: seq<Group>, hash: Hash, cutoff: Time): Option<Group> {
    if groups == [] then None
    else
      var g, best := groups[|groups| - 1], Newest(groups[..|groups| - 1], hash, cutoff);
      if g.hash == hash && g.createdAt > cutoff && (best.None? || g.createdAt > best.value.createdAt) then Some(g)
      else best
  }

  /** The lookup returns a recent group of the hash, the youngest one, whenever there is one. */
  lemma {:induction false} NewestCorrect(groups: seq<Group>, hash: Hash, cutoff: Time)
    ensures var r := Newest(groups, hash, cutoff);
            && (r.Some? ==> r.value in groups && r.value.hash == hash && r.value.createdAt > cutoff)
            && (r.Some? ==> forall g :: g in groups && g.hash == hash ==> g.createdAt <= r.value.createdAt)
            && (r.None? ==> forall g :: g in groups && g.hash == hash ==> g.createdAt <= cutoff)
  {
    if groups != [] {
      NewestCorrect(groups[..|groups| - 1], hash, cutoff);
    }
  }

  predicate Enabled(s: State, a: Action) {
    if a.Arrive? then a.t !in s.threads
    else
      a.t in s.threads &&
      var p := s.threads[a.t].phase;
      match a
      case GetLock(_) => p.Start?
      case Acquire(_) => p.HasMutex? && p.mu !in s.holders
      case Begin(_, _) => p.Locked?
      case LookUp(_) => p.InTx?
      case Insert(_, id, createdAt) => p.Missing? && id !in s.used && createdAt >= p.now
      case Upsert(_) => p.HasGroup?
      case Commit(_) => p.Upserted?
      case Fail(_) => p.InTx? || p.Missing? || p.HasGroup? || p.Upserted?
      case Release(_) => p.Unlocking?
  }

  function SetPhase(s: State, t: ThreadId, p: Phase): State
    requires t in s.threads
  {
    s.(threads := s.threads[t := s.threads[t].(phase := p)])
  }

  function Apply(s: State, a: Action): State
    requires Enabled(s, a)
  {
    if a.Arrive? then s.(threads := s.threads[a.t := Thread(a.call, Start)])
    else
      var call, p := s.threads[a.t].call, s.threads[a.t].phase;
      match a
      case GetLock(t) =>
        if call.hash == "" then SetPhase(s, t, Done(NoGroup))
        else if call.hash in s.mutexes then SetPhase(s, t, HasMutex(s.mutexes[call.hash]))
        else SetPhase(s, t, HasMutex(s.nextMutex))
               .(mutexes := s.mutexes[call.hash := s.nextMutex], nextMutex := s.nextMutex + 1)
      case Acquire(t) => SetPhase(s, t, Locked(p.mu)).(holders := s.holders[p.mu := t])
      case Begin(t, now) => SetPhase(s, t, InTx(p.mu, now))
      case LookUp(t) =>
        var found := Newest(s.groups, call.hash, p.now - call.interval);
        SetPhase(s, t, if found.Some? then HasGroup(p.mu, p.now, found.value, false) else Missing(p.mu, p.now))
      case Insert(t, id, createdAt) =>
        var group := Group(id, call.notification, call.hash, createdAt, call.interval);
        SetPhase(s, t, HasGroup(p.mu, p.now, group, true)).(used := s.used + {id})
      case Upsert(t) => SetPhase(s, t, Upserted(p.mu, p.now, p.group, p.created))
      case Commit(t) =>
        SetPhase(s, t, Unlocking(p.mu, Success(p.now, p.group, p.created)))
          .(groups := if p.created then s.groups + [p.group] else s.groups,
            links := s.links + {Link(p.group.id, call.resource)})
      case Fail(t) => SetPhase(s, t, Unlocking(p.mu, Failed))
      case Release(t) => SetPhase(s, t, Done(p.outcome)).(holders := s.holders - {p.mu})
  }

  /** A run, given by its last step and the run before it. */
  datatype Run = Empty | Then(before: Run, step: Action)

  predicate ValidRun(s: State, run: Run)
    decreases run, 0
  {
    run.Empty? || (ValidRun(s, run.before) && Enabled(Execute(s, run.before), run.step))
  }

  function Execute(s: State, run: Run): State
    requires ValidRun(s, run)
    decreases run, 1
  {
    if run.Empty? then s else Apply(Execute(s, run.before), run.step)
  }

  // ---------------------------------------------------------------- the invariant

  predicate Critical(p: Phase) {
    !p.Start? && !p.HasMutex? && !p.Done?
  }

  /** The map never gives two hashes the same mutex. */
  ghost predicate MutexesDiffer(s: State) {
    && (forall h :: h in s.mutexes ==> s.mutexes[h] < s.nextMutex)
    && (forall h, k :: h in s.mutexes && k in s.mutexes && s.mutexes[h] == s.mutexes[k] ==> h == k)
  }

  /** A call past the map lookup works with the mutex of its own hash, and holds it while critical. */
  ghost predicate UsesOwnMutex(s: State, t: ThreadId)
    requires t in s.threads
  {
    var th := s.threads[t];
    && (th.phase.HasMutex? || Critical(th.phase) ==>
          th.call.hash in s.mutexes && th.phase.mu == s.mutexes[th.call.hash])
    && (Critical(th.phase) ==> th.phase.mu in s.holders && s.holders[th.phase.mu] == t)
  }

  ghost predicate HeldByCritical(s: State) {
    forall m :: m in s.holders ==>
      && s.holders[m] in s.threads
      && Critical(s.threads[s.holders[m]].phase) && s.threads[s.holders[m]].phase.mu == m
  }

  ghost predicate AllOlder(groups: seq<Group>, hash: Hash, cutoff: Time) {
    forall g :: g in groups && g.hash == hash ==> g.createdAt <= cutoff
  }

  /** Groups of one hash are committed at least the later creator's interval apart. */
  ghost predicate Spaced(groups: seq<Group>) {
    forall i, j :: 0 <= i < j < |groups| && groups[i].hash == groups[j].hash ==>
      groups[i].createdAt + groups[j].interval <= groups[j].createdAt
  }

  /** What a call knows about the group in its hands. */
  ghost predicate GroupInHand(s: State, call: Call, now: Time, group: Group, created: bool) {
    && group.hash == call.hash
    && if created then
         && group.notification == call.notification && group.interval == call.interval && group.createdAt >= now
         && AllOlder(s.groups, call.hash, group.createdAt - call.interval)
       else
         group in s.groups && group.createdAt > now - call.interval
  }

  /** What a successful call has achieved: its resource is linked to a suitable committed group. */
  ghost predicate Achieved(s: State, call: Call, o: Outcome) {
    o.Success? ==>
      && o.group in s.groups && o.group.hash == call.hash
      && Link(o.group.id, call.resource) in s.links
      && (if o.created then o.group.notification == call.notification && o.group.createdAt >= o.now
          else o.group.createdAt > o.now - call.interval)
  }

  ghost predicate ThreadOk(s: State, t: ThreadId)
    requires t in s.threads
  {
    var call := s.threads[t].call;
    && UsesOwnMutex(s, t)
    && match s.threads[t].phase
       case Missing(_, now) => AllOlder(s.groups, call.hash, now - call.interval)
       case HasGroup(_, now, group, created) => GroupInHand(s, call, now, group, created)
       case Upserted(_, now, group, created) => GroupInHand(s, call, now, group, created)
       case Unlocking(_, o) => Achieved(s, call, o)
       case Done(o) => Achieved(s, call, o)
       case _ => true
  }

  ghost predicate Inv(s: State) {
    && MutexesDiffer(s) && HeldByCritical(s) && Spaced(s.groups)
    && forall t :: t in s.threads ==> ThreadOk(s, t)
  }

  /** Two calls of one hash are never both between lock and unlock. */
  lemma MutualExclusion(s: State, t: ThreadId, u: ThreadId)
    requires Inv(s) && t in s.threads && u in s.threads
    requires Critical(s.threads[t].phase) && Critical(s.threads[u].phase)
    requires s.threads[t].call.hash == s.threads[u].call.hash
    ensures t == u
  {
    assert UsesOwnMutex(s, t) && UsesOwnMutex(s, u);
  }

  /** A step of `a.t` leaves what every other call knows intact. */
  lemma OthersKeep(s: State, a: Action, u: ThreadId)
    requires Inv(s) && Enabled(s, a) && u in s.threads && u != a.t
    ensures var n := Apply(s, a); u in n.threads && ThreadOk(n, u)
  {
    assert ThreadOk(s, u);
    if a.Commit? {
      CommitKeepsOther(s, a.t, u);
    } else {
      QuietForOther(s, a, u);
    }
  }

  /** Apart from commits, what a call knows depends on the mutexes and the holder of its own. */
  lemma QuietForOther(s: State, a: Action, u: ThreadId)
    requires Enabled(s, a) && !a.Commit? && u in s.threads && u != a.t && ThreadOk(s, u)
    requires a.Acquire? || a.Release? ==> UsesOwnMutex(s, a.t)
    requires a.Release? ==> s.holders[s.threads[a.t].phase.mu] == a.t
    ensures var n := Apply(s, a); u in n.threads && ThreadOk(n, u)
  {
    assert Apply(s, a).threads[u] == s.threads[u] && Apply(s, a).groups == s.groups;
  }

  /** A commit adds a group of another hash than that of any call in its critical section. */
  lemma CommitKeepsOther(s: State, t: ThreadId, u: ThreadId)
    requires Inv(s) && Enabled(s, Commit(t)) && u in s.threads && u != t
    ensures var n := Apply(s, Commit(t)); u in n.threads && ThreadOk(n, u)
  {
    var n := Apply(s, Commit(t));
    assert ThreadOk(s, u) && ThreadOk(s, t);
    assert n.threads[u] == s.threads[u];
    if Critical(s.threads[u].phase) && s.threads[u].call.hash == s.threads[t].call.hash {
      MutualExclusion(s, t, u);
    }
    assert forall g :: g in n.groups ==> g in s.groups || g == s.threads[t].phase.group;
  }

  /** A step keeps what the acting call knows. */
  lemma ActorKeeps(s: State, a: Action)
    requires Inv(s) && Enabled(s, a)
    ensures ThreadOk(Apply(s, a), a.t)
  {
    if !a.Arrive? { assert ThreadOk(s, a.t); }
    if a.LookUp? { LookUpKeeps(s, a.t); }
  }

  lemma LookUpKeeps(s: State, t: ThreadId)
    requires Inv(s) && Enabled(s, LookUp(t))
    ensures ThreadOk(Apply(s, LookUp(t)), t)
  {
    assert ThreadOk(s, t);
    NewestCorrect(s.groups, s.threads[t].call.hash, s.threads[t].phase.now - s.threads[t].call.interval);
  }

  lemma CommitSpaced(s: State, a: Action)
    requires Inv(s) && Enabled(s, a)
    ensures Spaced(Apply(s, a).groups)
  {
    if a.Commit? && s.threads[a.t].phase.created {
      assert ThreadOk(s, a.t);
      var g := s.threads[a.t].phase.group;
      forall i | 0 <= i < |s.groups| && s.groups[i].hash == g.hash
        ensures s.groups[i].createdAt + g.interval <= g.createdAt
      {
        assert s.groups[i] in s.groups;
      }
    }
  }

  lemma StepKeepsInv(s: State, a: Action)
    requires Inv(s) && Enabled(s, a)
    ensures Inv(Apply(s, a))
  {
    var n := Apply(s, a);
    CommitSpaced(s, a);
    forall t | t in n.threads ensures ThreadOk(n, t) {
      if t == a.t { ActorKeeps(s, a); } else { OthersKeep(s, a, t); }
    }
    MutexesKeep(s, a);
    HoldersKeep(s, a);
  }

  lemma HoldersKeep(s: State, a: Action)
    requires Inv(s) && Enabled(s, a)
    ensures HeldByCritical(Apply(s, a))
  {
    forall m | m in Apply(s, a).holders { HolderKeeps(s, a, m); }
  }

  lemma HolderKeeps(s: State, a: Action, m: MutexId)
    requires Inv(s) && Enabled(s, a) && m in Apply(s, a).holders
    ensures var n := Apply(s, a);
            n.holders[m] in n.threads && Critical(n.threads[n.holders[m]].phase) &&
                n.threads[n.holders[m]].phase.mu == m
  {
    if a.Acquire? && s.threads[a.t].phase.mu == m {
      assert ThreadOk(s, a.t);
    } else {
      HeldKeeps(s, a, m);
    }
  }

  /** A mutex that was held before the step and still is. */
  lemma HeldKeeps(s: State, a: Action, m: MutexId)
    requires Inv(s) && Enabled(s, a) && m in s.holders && m in Apply(s, a).holders
    requires a.Acquire? ==> s.threads[a.t].phase.mu != m
    ensures var n := Apply(s, a);
            && n.holders[m] == s.holders[m] && n.holders[m] in n.threads
            && Critical(n.threads[n.holders[m]].phase) && n.threads[n.holders[m]].phase.mu == m
  {
    HoldersStay(s, a, m);
    var h := s.holders[m];
    if h == a.t && !a.Arrive? { HolderSteps(s, a); } else { OtherThreadStays(s, a, h); }
  }

  lemma HoldersStay(s: State, a: Action, m: MutexId)
    requires Enabled(s, a) && HeldByCritical(s) && m in s.holders && m in Apply(s, a).holders
    requires a.Acquire? ==> s.threads[a.t].phase.mu != m
    ensures Apply(s, a).holders[m] == s.holders[m]
    ensures s.holders[m] == a.t && a.Release? ==> s.threads[a.t].phase.mu != m
    ensures s.holders[m] in s.threads && Critical(s.threads[s.holders[m]].phase)
            && s.threads[s.holders[m]].phase.mu == m
  {
  }

  lemma OtherThreadStays(s: State, a: Action, h: ThreadId)
    requires Enabled(s, a) && h in s.threads && (h != a.t || a.Arrive?)
    ensures h in Apply(s, a).threads && Apply(s, a).threads[h] == s.threads[h]
  {
  }

  /** A step inside the critical section stays there unless it releases the mutex. */
  lemma HolderSteps(s: State, a: Action)
    requires Enabled(s, a) && a.t in s.threads && Critical(s.threads[a.t].phase) && !a.Release?
    ensures var n := Apply(s, a);
            a.t in n.threads && Critical(n.threads[a.t].phase) && n.threads[a.t].phase.mu == s.threads[a.t].phase.mu
  {
  }

  lemma MutexesKeep(s: State, a: Action)
    requires Inv(s) && Enabled(s, a)
    ensures MutexesDiffer(Apply(s, a))
  {
  }

  /** The invariant holds after every run of every set of concurrent calls. */
  lemma {:induction false} RunKeepsInv(s: State, run: Run)
    requires Inv(s) && ValidRun(s, run)
    ensures Inv(Execute(s, run))
  {
    if run.Then? {
      RunKeepsInv(s, run.before);
      StepKeepsInv(Execute(s, run.before), run.step);
    }
  }

  // ---------------------------------------------------------------- the promises

  /** In every interleaving, two committed groups of one hash are the later creator's interval apart. */
  lemma GroupsAreSpaced(run: Run, i: nat, j: nat)
    requires ValidRun(INIT, run) && i < j < |Execute(INIT, run).groups|
    requires Execute(INIT, run).groups[i].hash == Execute(INIT, run).groups[j].hash
    ensures Execute(INIT, run).groups[i].createdAt + Execute(INIT, run).groups[j].interval
         <= Execute(INIT, run).groups[j].createdAt
  {
    RunKeepsInv(INIT, run);
  }

  /** Every call that succeeded linked its resource to a group of its own hash, new or recent. */
  lemma SuccessLinks(run: Run, t: ThreadId)
    requires ValidRun(INIT, run) && t in Execute(INIT, run).threads
    requires var th := Execute(INIT, run).threads[t]; th.phase.Done? && th.phase.result.Success?
    ensures var s := Execute(INIT, run);
            var call, o := s.threads[t].call, s.threads[t].phase.result;
            && o.group in s.groups && o.group.hash == call.hash && Link(o.group.id, call.resource) in s.links
            && (if o.created then
                  && Inserted(run, t) == Some(o.group.id)
                  && o.group.notification == call.notification && o.group.createdAt >= o.now
                else o.group.createdAt > o.now - call.interval)
  {
    RunKeepsInv(INIT, run);
    assert ThreadOk(Execute(INIT, run), t);
    CreatedWasInserted(run, t);
  }

  /** No call holds two locks. */
  lemma OneLockEach(run: Run, m: MutexId, k: MutexId)
    requires ValidRun(INIT, run)
    requires m in Execute(INIT, run).holders && k in Execute(INIT, run).holders
    requires Execute(INIT, run).holders[m] == Execute(INIT, run).holders[k]
    ensures m == k
  {
    RunKeepsInv(INIT, run);
  }

  lemma {:induction false} FreshNat(used: set<nat>) returns (x: nat)
    ensures x !in used
    ensures forall y :: y in used ==> y < x
  {
    if used == {} {
      x := 0;
    } else {
      var m :| m in used;
      assert used == (used - {m}) + {m};
      x := FreshNat(used - {m});
      if x <= m { x := m + 1; }
    }
  }

  predicate Waiting(s: State, t: ThreadId) {
    t in s.threads && s.threads[t].phase.HasMutex? && s.threads[t].phase.mu in s.holders
  }

  /** A call that is neither finished nor waiting for a held mutex can take a step. */
  lemma CanStep(s: State, t: ThreadId) returns (a: Action)
    requires t in s.threads && !s.threads[t].phase.Done? && !Waiting(s, t)
    ensures Enabled(s, a) && a.t == t && !a.Arrive? && !a.Fail?
  {
    match s.threads[t].phase
    case Start => a := GetLock(t);
    case HasMutex(_) => a := Acquire(t);
    case Locked(_) => a := Begin(t, 0);
    case InTx(_, _) => a := LookUp(t);
    case Missing(_, now) =>
      var id := FreshNat(s.used);
      a := Insert(t, id, now);
    case HasGroup(_, _, _, _) => a := Upsert(t);
    case Upserted(_, _, _, _) => a := Commit(t);
    case Unlocking(_, _) => a := Release(t);
  }

  /** While some call is unfinished, some call can take a step of its own: there is no deadlock. */
  lemma NoDeadlock(run: Run, t: ThreadId) returns (a: Action)
    requires ValidRun(INIT, run)
    requires t in Execute(INIT, run).threads && !Execute(INIT, run).threads[t].phase.Done?
    ensures Enabled(Execute(INIT, run), a) && !a.Arrive? && !a.Fail?
    ensures !Waiting(Execute(INIT, run), t) ==> a.t == t
    ensures Waiting(Execute(INIT, run), t) ==>
              a.t == Execute(INIT, run).holders[Execute(INIT, run).threads[t].phase.mu]
  {
    var s := Execute(INIT, run);
    RunKeepsInv(INIT, run);
    a := CanStep(s, if Waiting(s, t) then s.holders[s.threads[t].phase.mu] else t);
  }

  /** How many steps a call can still take. */
  function StepsLeft(p: Phase): nat {
    match p
    case Start => 8
    case HasMutex(_) => 7
    case Locked(_) => 6
    case InTx(_, _) => 5
    case Missing(_, _) => 4
    case HasGroup(_, _, _, _) => 3
    case Upserted(_, _, _, _) => 2
    case Unlocking(_, _) => 1
    case Done(_) => 0
  }

  /** The steps taken by call `t` in a run. */
  function StepsOf(run: Run, t: ThreadId): nat {
    if run.Empty? then 0
    else StepsOf(run.before, t) + if run.step.t == t && !run.step.Arrive? then 1 else 0
  }

  lemma StepCosts(s: State, a: Action, t: ThreadId)
    requires Enabled(s, a) && t in s.threads
    ensures t in Apply(s, a).threads
    ensures StepsLeft(Apply(s, a).threads[t].phase) + (if a.t == t && !a.Arrive? then 1 else 0)
         <= StepsLeft(s.threads[t].phase)
  {
  }

  /** A call takes at most eight steps, whatever the others do: no call livelocks. */
  lemma {:induction false} BoundedSteps(s: State, run: Run, t: ThreadId)
    requires ValidRun(s, run) && t in s.threads
    ensures t in Execute(s, run).threads
    ensures StepsOf(run, t) + StepsLeft(Execute(s, run).threads[t].phase) <= StepsLeft(s.threads[t].phase)
  {
    if run.Then? {
      BoundedSteps(s, run.before, t);
      StepCosts(Execute(s, run.before), run.step, t);
    }
  }

  // ---------------------------------------------------------------- identity of groups

  /** The id of a group row that a call has inserted but not committed. */
  ghost function InFlight(p: Phase): Option<GroupId> {
    if (p.HasGroup? || p.Upserted?) && p.created then Some(p.group.id) else None
  }

  ghost predicate IdsDiffer(groups: seq<Group>) {
    forall i, j :: 0 <= i < j < |groups| ==> groups[i].id != groups[j].id
  }

  ghost predicate GroupIdsOk(s: State) {
    NIL in s.used && IdsDiffer(s.groups) && forall g :: g in s.groups ==> g.id in s.used && g.id != NIL
  }

  ghost predicate NoneHasId(groups: seq<Group>, id: GroupId) {
    forall g :: g in groups ==> g.id != id
  }

  ghost predicate FlightOk(s: State, t: ThreadId)
    requires t in s.threads
  {
    var f := InFlight(s.threads[t].phase);
    f.Some? ==> f.value in s.used && f.value != NIL && NoneHasId(s.groups, f.value)
  }

  ghost predicate FlightsDiffer(s: State, t: ThreadId, u: ThreadId)
    requires t in s.threads && u in s.threads
  {
    InFlight(s.threads[t].phase).Some? ==> InFlight(s.threads[t].phase) != InFlight(s.threads[u].phase)
  }

  ghost predicate IdInv(s: State) {
    && GroupIdsOk(s)
    && (forall t :: t in s.threads ==> FlightOk(s, t))
    && (forall t, u :: t in s.threads && u in s.threads && t != u ==> FlightsDiffer(s, t, u))
  }

  lemma StepKeepsGroupIds(s: State, a: Action)
    requires GroupIdsOk(s) && Enabled(s, a) && (a.Arrive? || FlightOk(s, a.t))
    ensures GroupIdsOk(Apply(s, a))
  {
    if a.Commit? && s.threads[a.t].phase.created {
      var g := s.threads[a.t].phase.group;
      forall i | 0 <= i < |s.groups| ensures s.groups[i].id != g.id { assert s.groups[i] in s.groups; }
    }
  }

  lemma StepKeepsFlight(s: State, a: Action, t: ThreadId)
    requires IdInv(s) && Enabled(s, a) && t in Apply(s, a).threads
    ensures FlightOk(Apply(s, a), t)
  {
    var n := Apply(s, a);
    if t in s.threads { assert FlightOk(s, t); }
    if a.Commit? && t != a.t { assert FlightsDiffer(s, t, a.t); }
    if a.Insert? && t == a.t {
      forall g | g in s.groups ensures g.id != a.id { assert g.id in s.used; }
    }
  }

  lemma StepKeepsFlightsDiffer(s: State, a: Action, t: ThreadId, u: ThreadId)
    requires IdInv(s) && Enabled(s, a) && t in Apply(s, a).threads && u in Apply(s, a).threads && t != u
    ensures FlightsDiffer(Apply(s, a), t, u)
  {
    if t in s.threads && u in s.threads {
      assert FlightsDiffer(s, t, u) && FlightOk(s, t) && FlightOk(s, u);
    }
  }

  lemma StepKeepsIds(s: State, a: Action)
    requires IdInv(s) && Enabled(s, a)
    ensures IdInv(Apply(s, a))
  {
    StepKeepsGroupIds(s, a);
    forall t | t in Apply(s, a).threads { StepKeepsFlight(s, a, t); }
    forall t, u | t in Apply(s, a).threads && u in Apply(s, a).threads && t != u {
      StepKeepsFlightsDiffer(s, a, t, u);
    }
  }

  lemma {:induction false} RunKeepsIds(s: State, run: Run)
    requires IdInv(s) && ValidRun(s, run)
    ensures IdInv(Execute(s, run))
  {
    if run.Then? {
      RunKeepsIds(s, run.before);
      StepKeepsIds(Execute(s, run.before), run.step);
    }
  }

  /** Committed groups have different, non-nil ids, so every link names one group. */
  lemma LinksNameOneGroup(run: Run, i: nat, j: nat)
    requires ValidRun(INIT, run) && i < |Execute(INIT, run).groups| && j < |Execute(INIT, run).groups|
    requires Execute(INIT, run).groups[i].id == Execute(INIT, run).groups[j].id
    ensures i == j && Execute(INIT, run).groups[i].id != NIL
  {
    RunKeepsIds(INIT, run);
  }

  ghost predicate HasLink(links: set<Link>, id: GroupId) {
    exists l :: l in links && l.group == id
  }

  ghost predicate HasId(groups: seq<Group>, id: GroupId) {
    exists i :: 0 <= i < |groups| && groups[i].id == id
  }

  /** A transaction leaves all or nothing: every group has a link, and every link a group. */
  ghost predicate Atomic(s: State) {
    Paired(s.groups, s.links)
  }

  lemma HasLinkGrows(links: set<Link>, link: Link, id: GroupId)
    requires HasLink(links, id) || link.group == id
    ensures HasLink(links + {link}, id)
  {
    if HasLink(links, id) {
      var l :| l in links && l.group == id;
      assert l in links + {link};
    } else {
      assert link in links + {link};
    }
  }

  lemma HasIdGrows(groups: seq<Group>, group: Group, id: GroupId)
    requires HasId(groups, id) || group.id == id
    ensures HasId(groups + [group], id)
  {
    if HasId(groups, id) {
      var i :| 0 <= i < |groups| && groups[i].id == id;
      assert (groups + [group])[i].id == id;
    } else {
      assert (groups + [group])[|groups|].id == id;
    }
  }

  lemma StepKeepsAtomic(s: State, a: Action)
    requires Inv(s) && Atomic(s) && Enabled(s, a)
    ensures Atomic(Apply(s, a))
  {
    if a.Commit? {
      assert ThreadOk(s, a.t);
      var p := s.threads[a.t].phase;
      CommitStaysAtomic(s.groups, s.links, p.group, s.threads[a.t].call.resource, p.created);
    }
  }

  ghost predicate Paired(groups: seq<Group>, links: set<Link>) {
    && (forall i :: 0 <= i < |groups| ==> HasLink(links, groups[i].id))
    && (forall l :: l in links ==> HasId(groups, l.group))
  }

  /** A new or known group with its link. */
  lemma CommitStaysAtomic(groups: seq<Group>, links: set<Link>, group: Group, resource: Resource, created: bool)
    requires Paired(groups, links) && (!created ==> group in groups)
    ensures Paired(if created then groups + [group] else groups, links + {Link(group.id, resource)})
  {
    var link := Link(group.id, resource);
    forall i | 0 <= i < |groups| { HasLinkGrows(links, link, groups[i].id); }
    HasLinkGrows(links, link, group.id);
    forall l | l in links { HasIdGrows(groups, group, l.group); }
    HasIdGrows(groups, group, group.id);
    if !created {
      var i :| 0 <= i < |groups| && groups[i] == group;
    }
  }

  /** Groups and links always come together. */
  lemma {:induction false} RunsAreAtomic(s: State, run: Run)
    requires Inv(s) && Atomic(s) && ValidRun(s, run)
    ensures Atomic(Execute(s, run))
  {
    if run.Then? {
      RunsAreAtomic(s, run.before);
      RunKeepsInv(s, run.before);
      StepKeepsAtomic(Execute(s, run.before), run.step);
    }
  }

  // ---------------------------------------------------------------- what failed calls leave behind

  /** The id of the row that the call inserted in the run. */
  function Inserted(run: Run, t: ThreadId): Option<GroupId> {
    if run.Empty? then None
    else if run.step.Insert? && run.step.t == t then Some(run.step.id)
    else Inserted(run.before, t)
  }

  predicate Finishing(p: Phase, o: Outcome) {
    p == Done(o) || (p.Unlocking? && p.outcome == o)
  }

  /** The group that a call holds, or has committed, as its own creation. */
  function Created(p: Phase): Option<GroupId> {
    match p
    case HasGroup(_, _, group, true) => Some(group.id)
    case Upserted(_, _, group, true) => Some(group.id)
    case Unlocking(_, Success(_, group, true)) => Some(group.id)
    case Done(Success(_, group, true)) => Some(group.id)
    case _ => None
  }

  lemma StepKeepsCreated(s: State, a: Action, t: ThreadId)
    requires Enabled(s, a) && t in Apply(s, a).threads && Created(Apply(s, a).threads[t].phase).Some?
    ensures (a.Insert? && a.t == t && Created(Apply(s, a).threads[t].phase) == Some(a.id))
            || (!(a.Insert? && a.t == t) && t in s.threads
                && Created(s.threads[t].phase) == Created(Apply(s, a).threads[t].phase))
  {
  }

  /** A group that a call counts as its creation was inserted by that very call. */
  lemma {:induction false} CreatedWasInserted(run: Run, t: ThreadId)
    requires ValidRun(INIT, run) && t in Execute(INIT, run).threads
    ensures Created(Execute(INIT, run).threads[t].phase).Some? ==>
              Inserted(run, t) == Created(Execute(INIT, run).threads[t].phase)
  {
    if run.Then? && Created(Execute(INIT, run).threads[t].phase).Some? {
      StepKeepsCreated(Execute(INIT, run.before), run.step, t);
      if t in Execute(INIT, run.before).threads { CreatedWasInserted(run.before, t); }
    }
  }

  /** The id is spent, and neither committed nor in anybody's hands. */
  ghost predicate Discarded(s: State, id: GroupId) {
    id in s.used && NoneHasId(s.groups, id) && forall u :: u in s.threads ==> InFlight(s.threads[u].phase) != Some(id)
  }

  lemma DiscardedStays(s: State, a: Action, id: GroupId)
    requires Enabled(s, a) && Discarded(s, id)
    ensures Discarded(Apply(s, a), id)
  {
  }

  lemma FailDiscards(s: State, t: ThreadId)
    requires IdInv(s) && Enabled(s, Fail(t)) && InFlight(s.threads[t].phase).Some?
    ensures Discarded(Apply(s, Fail(t)), InFlight(s.threads[t].phase).value)
  {
    assert FlightOk(s, t);
    forall u | u in s.threads && u != t ensures InFlight(s.threads[u].phase) != InFlight(s.threads[t].phase) {
      assert FlightsDiffer(s, t, u);
    }
  }

  /** An inserted row is still in the hands of its call, or committed by it, or discarded. */
  ghost predicate Accounted(s: State, t: ThreadId, id: GroupId) {
    && t in s.threads
    && var p := s.threads[t].phase;
       || InFlight(p) == Some(id)
       || (Finishing(p, Failed) && Discarded(s, id))
       || exists o: Outcome :: o.Success? && Finishing(p, o)
  }

  lemma StepKeepsAccounted(s: State, a: Action, t: ThreadId, id: GroupId)
    requires IdInv(s) && Enabled(s, a) && Accounted(s, t, id)
    ensures Accounted(Apply(s, a), t, id)
  {
    var p := s.threads[t].phase;
    if Finishing(p, Failed) {
      DiscardedStays(s, a, id);
      FinishingStays(s, a, t, Failed);
    } else if InFlight(p) == Some(id) {
      FlightStepAccounted(s, a, t, id);
    } else {
      var o: Outcome :| o.Success? && Finishing(p, o);
      FinishingStays(s, a, t, o);
    }
  }

  lemma FinishingStays(s: State, a: Action, t: ThreadId, o: Outcome)
    requires Enabled(s, a) && t in s.threads && Finishing(s.threads[t].phase, o)
    ensures t in Apply(s, a).threads && Finishing(Apply(s, a).threads[t].phase, o)
  {
  }

  lemma FlightStepAccounted(s: State, a: Action, t: ThreadId, id: GroupId)
    requires IdInv(s) && Enabled(s, a) && t in s.threads && InFlight(s.threads[t].phase) == Some(id)
    ensures Accounted(Apply(s, a), t, id)
  {
    var p := s.threads[t].phase;
    if a == Fail(t) {
      FailDiscards(s, t);
    } else if a == Commit(t) {
      assert Finishing(Apply(s, a).threads[t].phase, Success(p.now, p.group, p.created));
    }
  }

  lemma {:induction false} InsertedAccounted(run: Run, t: ThreadId)
    requires ValidRun(INIT, run) && Inserted(run, t).Some?
    ensures Accounted(Execute(INIT, run), t, Inserted(run, t).value)
  {
    if !(run.step.Insert? && run.step.t == t) {
      InsertedAccounted(run.before, t);
      RunKeepsIds(INIT, run.before);
      StepKeepsAccounted(Execute(INIT, run.before), run.step, t, Inserted(run, t).value);
    }
  }

  /** A failed call leaves no trace: the row it inserted is in no committed group, and no link names it. */
  lemma FailedCallsLeaveNothing(run: Run, t: ThreadId)
    requires ValidRun(INIT, run) && Inserted(run, t).Some? && t in Execute(INIT, run).threads
    requires Finishing(Execute(INIT, run).threads[t].phase, Failed)
    ensures var s, id := Execute(INIT, run), Inserted(run, t).value;
            !HasId(s.groups, id) && !HasLink(s.links, id)
  {
    var s, id := Execute(INIT, run), Inserted(run, t).value;
    InsertedAccounted(run, t);
    RunsAreAtomic(INIT, run);
    NoneHasIdIff(s.groups, id);
  }

  lemma NoneHasIdIff(groups: seq<Group>, id: GroupId)
    ensures NoneHasId(groups, id) <==> !HasId(groups, id)
  {
    if HasId(groups, id) {
      var i :| 0 <= i < |groups| && groups[i].id == id;
      assert groups[i] in groups;
    }
  }
}

/** The imperative call, and the proof that, run alone, it performs a run of the machine. */
module GroupStore {
  import opened Base
  import opened NotificationGrouping

  /** What the database and the clock answer during one call. */
  datatype Environment = Environment(
    now: Time, freshId: GroupId, createdAt: Time, findFails: bool, createFails: bool, upsertFails: bool)

  datatype TxResult = TxResult(outcome: Outcome, used: set<GroupId>)

  /** What the transaction decides, given the committed groups. */
  function Decide(groups: seq<Group>, used: set<GroupId>, call: Call, env: Environment): TxResult {
    var found := Newest(groups, call.hash, env.now - call.interval);
    var group := Group(env.freshId, call.notification, call.hash, env.createdAt, call.interval);
    if env.findFails then TxResult(Failed, used)
    else if found.Some? then
      TxResult(if env.upsertFails then Failed else Success(env.now, found.value, false), used)
    else if env.createFails then TxResult(Failed, used)
    else TxResult(if env.upsertFails then Failed else Success(env.now, group, true), used + {env.freshId})
  }

  /** Some committed group of the call's hash is younger than its interval. */
  ghost predicate SomeRecent(groups: seq<Group>, call: Call, now: Time) {
    exists g :: g in groups && g.hash == call.hash && g.createdAt > now - call.interval
  }

  /** The committed group is younger than the call's interval, and no other of its hash is younger. */
  ghost predicate YoungestRecent(groups: seq<Group>, call: Call, now: Time, group: Group) {
    && group in groups && group.hash == call.hash && group.createdAt > now - call.interval
    && forall g :: g in groups && g.hash == call.hash ==> g.createdAt <= group.createdAt
  }

  /**
   What a call with a hash is owed.  It fails exactly when a step on its way fails; otherwise it gets the youngest
   recent group of its hash, or a new group of its own when, and only when, there is no recent one.
   */
  ghost predicate Answers(groups: seq<Group>, call: Call, env: Environment, o: Outcome) {
    && (o == Failed <==> env.findFails || (env.createFails && !SomeRecent(groups, call, env.now)) || env.upsertFails)
    && (o != Failed ==> o.Success? && o.now == env.now && (o.created <==> !SomeRecent(groups, call, env.now)))
    && (o.Success? ==>
          if o.created then
            o.group == Group(env.freshId, call.notification, call.hash, env.createdAt, call.interval)
          else YoungestRecent(groups, call, env.now, o.group))
  }

  lemma DecisionAnswers(groups: seq<Group>, used: set<GroupId>, call: Call, env: Environment)
    ensures Answers(groups, call, env, Decide(groups, used, call, env).outcome)
  {
    NewestCorrect(groups, call.hash, env.now - call.interval);
    var found := Newest(groups, call.hash, env.now - call.interval);
    assert found.Some? ==> found.value in groups;
  }

  function GroupsAfter(groups: seq<Group>, o: Outcome): seq<Group> {
    if o.Success? && o.created then groups + [o.group] else groups
  }

  function LinksAfter(links: set<Link>, call: Call, o: Outcome): set<Link> {
    if o.Success? then links + {Link(o.group.id, call.resource)} else links
  }

  /** The state after one call has run from start to end without interference. */
  ghost function Alone(s: State, t: ThreadId, call: Call, env: Environment): State {
    if call.hash == "" then s.(threads := s.threads[t := Thread(call, Done(NoGroup))])
    else
      var r := Decide(s.groups, s.used, call, env);
      s.(mutexes := if call.hash in s.mutexes then s.mutexes else s.mutexes[call.hash := s.nextMutex],
         nextMutex := if call.hash in s.mutexes then s.nextMutex else s.nextMutex + 1,
         groups := GroupsAfter(s.groups, r.outcome), links := LinksAfter(s.links, call, r.outcome), used := r.used,
         threads := s.threads[t := Thread(call, Done(r.outcome))])
  }

  /** No two hashes share a mutex. */
  ghost predicate Separate(mutexes: map<Hash, MutexId>, nextMutex: MutexId) {
    && (forall h :: h in mutexes ==> mutexes[h] < nextMutex)
    && (forall h, k :: h in mutexes && k in mutexes && h != k ==> mutexes[h] != mutexes[k])
  }

  class Store {
    var mutexes: map<Hash, MutexId>
    var nextMutex: MutexId
    var holders: map<MutexId, ThreadId>
    var groups: seq<Group>
    var links: set<Link>
    var used: set<GroupId>

    /** The shared state, together with where the calls of the process stand. */
    ghost function Abs(threads: map<ThreadId, Thread>): State
      reads this
    {
      State(mutexes, nextMutex, holders, groups, links, used, threads)
    }

    constructor ()
      ensures Abs(map[]) == INIT
    {
      mutexes, nextMutex, holders, groups, links, used := map[], 0, map[], [], {}, {NIL};
    }

    /** The mutex of a hash is the same one for every caller, and no other hash has it. */
    method GetOrCreateGroupLock(hash: Hash) returns (mu: MutexId)
      modifies this`mutexes, this`nextMutex
      ensures hash in mutexes && mutexes[hash] == mu
      ensures if hash in old(mutexes) then mutexes == old(mutexes) && nextMutex == old(nextMutex)
              else mutexes == old(mutexes)[hash := old(nextMutex)] && nextMutex == old(nextMutex) + 1
      ensures Separate(old(mutexes), old(nextMutex)) ==> Separate(mutexes, nextMutex)
    {
      if hash !in mutexes {
        mutexes, nextMutex := mutexes[hash := nextMutex], nextMutex + 1;
      }
      mu := mutexes[hash];
    }

    /** The transaction: look up or create, then link; a failure leaves groups and links as they were. */
    method Transact(call: Call, env: Environment) returns (outcome: Outcome)
      modifies this`groups, this`links, this`used
      ensures outcome == Decide(old(groups), old(used), call, env).outcome
      ensures used == Decide(old(groups), old(used), call, env).used
      ensures groups == GroupsAfter(old(groups), outcome) && links == LinksAfter(old(links), call, outcome)
      ensures Answers(old(groups), call, env, outcome)
    {
      DecisionAnswers(groups, used, call, env);
      if env.findFails {
        return Failed;
      }
      var group := Newest(groups, call.hash, env.now - call.interval);
      var created := false;
      if group.None? {
        if env.createFails {
          return Failed;
        }
        group := Some(Group(env.freshId, call.notification, call.hash, env.createdAt, call.interval));
        used, created := used + {env.freshId}, true;
      }
      if env.upsertFails {
        return Failed;
      }
      if created {
        groups := groups + [group.value];
      }
      links := links + {Link(group.value.id, call.resource)};
      return Success(env.now, group.value, created);
    }

    /** One call from start to end, made while no other call holds the mutex of its hash. */
    method AddResourceToGroup(t: ThreadId, call: Call, env: Environment, ghost threads: map<ThreadId, Thread>)
      returns (outcome: Outcome)
      requires Inv(Abs(threads)) && t !in threads && env.freshId !in used && env.createdAt >= env.now
      requires call.hash in mutexes ==> mutexes[call.hash] !in holders
      modifies this
      ensures Abs(threads[t := Thread(call, Done(outcome))]) == Alone(old(Abs(threads)), t, call, env)
      ensures if call.hash == "" then outcome == NoGroup else Answers(old(groups), call, env, outcome)
      ensures groups == (if outcome.Success? && outcome.created then old(groups) + [outcome.group] else old(groups))
      ensures links ==
              (if outcome.Success? then old(links) + {Link(outcome.group.id, call.resource)} else old(links))
      ensures holders == old(holders)
    {
      if call.hash == "" {
        return NoGroup;
      }
      var mu := GetOrCreateGroupLock(call.hash);
      UnusedMutexIsFree(old(Abs(threads)), call.hash);
      outcome := TransactLocked(t, mu, call, env);
    }

    method TransactLocked(t: ThreadId, mu: MutexId, call: Call, env: Environment) returns (outcome: Outcome)
      requires mu !in holders
      modifies this`holders, this`groups, this`links, this`used
      ensures holders == old(holders)
      ensures outcome == Decide(old(groups), old(used), call, env).outcome
      ensures used == Decide(old(groups), old(used), call, env).used
      ensures groups == GroupsAfter(old(groups), outcome) && links == LinksAfter(old(links), call, outcome)
      ensures Answers(old(groups), call, env, outcome)
    {
      holders := holders[mu := t];
      outcome := Transact(call, env);
      holders := holders - {mu};
    }
  }

  /** A mutex that is about to be created is not held. */
  lemma UnusedMutexIsFree(s: State, hash: Hash)
    requires Inv(s)
    ensures s.nextMutex !in s.holders
  {
    forall t | t in s.threads && Critical(s.threads[t].phase) ensures s.threads[t].phase.mu < s.nextMutex {
      assert UsesOwnMutex(s, t);
    }
  }

  lemma Extend(start: State, run: Run, a: Action)
    requires ValidRun(start, run) && Enabled(Execute(start, run), a)
    ensures ValidRun(start, Then(run, a)) && Execute(start, Then(run, a)) == Apply(Execute(start, run), a)
  {
  }

  ghost function MutexesWith(s: State, hash: Hash): map<Hash, MutexId> {
    if hash in s.mutexes then s.mutexes else s.mutexes[hash := s.nextMutex]
  }

  /** The state once the call is inside its transaction. */
  ghost function Entered(s: State, t: ThreadId, call: Call, now: Time): State {
    var mu := MutexesWith(s, call.hash)[call.hash];
    s.(mutexes := MutexesWith(s, call.hash),
       nextMutex := if call.hash in s.mutexes then s.nextMutex else s.nextMutex + 1,
       holders := s.holders[mu := t],
       threads := s.threads[t := Thread(call, InTx(mu, now))])
  }

  /** The state once the transaction has ended. */
  ghost function Transacted(s: State, t: ThreadId, call: Call, env: Environment, mu: MutexId): State {
    var r := Decide(s.groups, s.used, call, env);
    s.(groups := GroupsAfter(s.groups, r.outcome), links := LinksAfter(s.links, call, r.outcome), used := r.used,
       threads := s.threads[t := Thread(call, Unlocking(mu, r.outcome))])
  }

  /** The state once the lock is released. */
  ghost function Released(s: State, t: ThreadId): State
    requires t in s.threads && s.threads[t].phase.Unlocking?
  {
    var th := s.threads[t];
    s.(holders := s.holders - {th.phase.mu}, threads := s.threads[t := Thread(th.call, Done(th.phase.outcome))])
  }

  lemma ComposeAlone(s: State, t: ThreadId, call: Call, env: Environment)
    requires call.hash != "" && MutexesWith(s, call.hash)[call.hash] !in s.holders
    ensures var mu := MutexesWith(s, call.hash)[call.hash];
            Released(Transacted(Entered(s, t, call, env.now), t, call, env, mu), t) == Alone(s, t, call, env)
  {
    var mu := MutexesWith(s, call.hash)[call.hash];
    assert s.holders[mu := t] - {mu} == s.holders;
  }

  /** The run up to the start of the transaction. */
  lemma EntryRun(s: State, t: ThreadId, call: Call, now: Time) returns (run: Run)
    requires Inv(s) && t !in s.threads && call.hash != ""
    requires call.hash in s.mutexes ==> s.mutexes[call.hash] !in s.holders
    ensures ValidRun(s, run)
    ensures Execute(s, run) == Entered(s, t, call, now)
  {
    UnusedMutexIsFree(s, call.hash);
    Extend(s, Empty, Arrive(t, call));
    run := Then(Empty, Arrive(t, call));
    assert Execute(s, run) == s.(threads := s.threads[t := Thread(call, Start)]);
    GotLock(s, t, call);
    Extend(s, run, GetLock(t));
    run := Then(run, GetLock(t));
    var mu := MutexesWith(s, call.hash)[call.hash];
    run := LockRun(s, run, t, call, now, mu);
  }

  lemma GotLock(s: State, t: ThreadId, call: Call)
    requires call.hash != ""
    ensures var arrived := s.(threads := s.threads[t := Thread(call, Start)]);
            Apply(arrived, GetLock(t)) ==
            s.(mutexes := MutexesWith(s, call.hash),
               nextMutex := if call.hash in s.mutexes then s.nextMutex else s.nextMutex + 1,
               threads := s.threads[t := Thread(call, HasMutex(MutexesWith(s, call.hash)[call.hash]))])
  {
    var arrived := s.(threads := s.threads[t := Thread(call, Start)]);
    assert forall p :: arrived.threads[t := Thread(call, p)] == s.threads[t := Thread(call, p)];
  }

  lemma LockRun(start: State, before: Run, t: ThreadId, call: Call, now: Time, mu: MutexId) returns (run: Run)
    requires ValidRun(start, before) && t in Execute(start, before).threads
    requires Execute(start, before).threads[t] == Thread(call, HasMutex(mu)) && mu !in Execute(start, before).holders
    ensures ValidRun(start, run)
    ensures var s := Execute(start, before);
            Execute(start, run) ==
            s.(holders := s.holders[mu := t], threads := s.threads[t := Thread(call, InTx(mu, now))])
  {
    Extend(start, before, Acquire(t));
    run := Then(before, Acquire(t));
    Extend(start, run, Begin(t, now));
    run := Then(run, Begin(t, now));
  }

  /** The run of the transaction. */
  lemma TransactionRun(start: State, entry: Run, t: ThreadId, call: Call, env: Environment, mu: MutexId)
    returns (run: Run)
    requires ValidRun(start, entry) && env.freshId !in Execute(start, entry).used && env.createdAt >= env.now
    requires t in Execute(start, entry).threads
    requires Execute(start, entry).threads[t] == Thread(call, InTx(mu, env.now))
    ensures ValidRun(start, run)
    ensures Execute(start, run) == Transacted(Execute(start, entry), t, call, env, mu)
  {
    if env.findFails {
      Extend(start, entry, Fail(t));
      return Then(entry, Fail(t));
    }
    Extend(start, entry, LookUp(t));
    run := Then(entry, LookUp(t));
    var found := Newest(Execute(start, entry).groups, call.hash, env.now - call.interval);
    LookedUp(Execute(start, entry), t, call, env, mu);
    if found.Some? {
      run := FinishRun(start, run, t, call, env, mu, found.value, false);
    } else if env.createFails {
      Extend(start, run, Fail(t));
      return Then(run, Fail(t));
    } else {
      Extend(start, run, Insert(t, env.freshId, env.createdAt));
      run := Then(run, Insert(t, env.freshId, env.createdAt));
      var group := Group(env.freshId, call.notification, call.hash, env.createdAt, call.interval);
      run := FinishRun(start, run, t, call, env, mu, group, true);
    }
  }

  /** The lookup, and the insertion after it, lead to a group in hand. */
  lemma LookedUp(s: State, t: ThreadId, call: Call, env: Environment, mu: MutexId)
    requires t in s.threads && s.threads[t] == Thread(call, InTx(mu, env.now)) && !env.findFails
    ensures var found := Newest(s.groups, call.hash, env.now - call.interval);
            var looked := Apply(s, LookUp(t));
            && looked.threads[t].phase ==
               (if found.Some? then HasGroup(mu, env.now, found.value, false) else Missing(mu, env.now))
            && (found.Some? ==>
                  Finished(looked, t, call, env, mu, found.value, false) == Transacted(s, t, call, env, mu))
  {
  }

  /** The state once a transaction with a group in hand has ended. */
  ghost function Finished(s: State, t: ThreadId, call: Call, env: Environment, mu: MutexId,
                          group: Group, created: bool): State {
    var o := if env.upsertFails then Failed else Success(env.now, group, created);
    s.(groups := GroupsAfter(s.groups, o), links := LinksAfter(s.links, call, o),
       threads := s.threads[t := Thread(call, Unlocking(mu, o))])
  }

  lemma FinishRun(start: State, before: Run, t: ThreadId, call: Call, env: Environment, mu: MutexId,
                  group: Group, created: bool)
    returns (run: Run)
    requires ValidRun(start, before) && t in Execute(start, before).threads
    requires Execute(start, before).threads[t] == Thread(call, HasGroup(mu, env.now, group, created))
    ensures ValidRun(start, run)
    ensures Execute(start, run) == Finished(Execute(start, before), t, call, env, mu, group, created)
  {
    if env.upsertFails {
      Extend(start, before, Fail(t));
      return Then(before, Fail(t));
    }
    Extend(start, before, Upsert(t));
    run := Then(before, Upsert(t));
    Extend(start, run, Commit(t));
    run := Then(run, Commit(t));
  }

  lemma EmptyHashRun(s: State, t: ThreadId, call: Call, env: Environment) returns (run: Run)
    requires t !in s.threads && call.hash == ""
    ensures ValidRun(s, run) && Execute(s, run) == Alone(s, t, call, env)
  {
    Extend(s, Empty, Arrive(t, call));
    run := Then(Empty, Arrive(t, call));
    Extend(s, run, GetLock(t));
    run := Then(run, GetLock(t));
  }

  lemma ReleaseRun(start: State, before: Run, t: ThreadId) returns (run: Run)
    requires ValidRun(start, before) && t in Execute(start, before).threads
    requires Execute(start, before).threads[t].phase.Unlocking?
    ensures ValidRun(start, run)
    ensures Execute(start, run) == Released(Execute(start, before), t)
  {
    Extend(start, before, Release(t));
    run := Then(before, Release(t));
  }

  lemma HashRun(s: State, t: ThreadId, call: Call, env: Environment) returns (run: Run)
    requires Inv(s) && t !in s.threads && env.freshId !in s.used && env.createdAt >= env.now && call.hash != ""
    requires call.hash in s.mutexes ==> s.mutexes[call.hash] !in s.holders
    ensures ValidRun(s, run) && Execute(s, run) == Alone(s, t, call, env)
  {
    UnusedMutexIsFree(s, call.hash);
    var entry := EntryRun(s, t, call, env.now);
    var mu := MutexesWith(s, call.hash)[call.hash];
    ComposeAlone(s, t, call, env);
    var transaction := TransactionRun(s, entry, t, call, env, mu);
    run := ReleaseRun(s, transaction, t);
  }

  /** Run alone, the call is one of the machine's runs, so everything proved of runs holds of it. */
  lemma AloneIsRun(s: State, t: ThreadId, call: Call, env: Environment) returns (run: Run)
    requires Inv(s) && t !in s.threads && env.freshId !in s.used && env.createdAt >= env.now
    requires call.hash in s.mutexes ==> s.mutexes[call.hash] !in s.holders
    ensures ValidRun(s, run) && Execute(s, run) == Alone(s, t, call, env)
    ensures Inv(Alone(s, t, call, env))
  {
    if call.hash == "" {
      run := EmptyHashRun(s, t, call, env);
    } else {
      run := HashRun(s, t, call, env);
    }
    RunKeepsInv(s, run);
  }
}
