/**
 The cache of row-level-security payloads (auth/rls.go, auth/tokens.go) and the event loop that keeps
 it honest (cmd/server.go): a change of permissions, permission groups or scopes enqueues an event; the
 loop reloads the access policy and then, as a separate step, flushes the cache.
 */
module RlsCache {
  import opened Base
  import opened ScopeAlgebra
  import opened RlsPayload

  type User = string
  type Role = string
  type Session = string

  const GUEST: Role := "guest"

  datatype PermissionRow = PermissionRow(subject: string, read: bool, deleted: bool, permission: Permission)

  /** The tables that decide what a user may see. */
  datatype Db = Db(permissions: seq<PermissionRow>, scopes: map<ScopeRef, ScopeRow>, roles: map<User, seq<Role>>)

  /** The role assignments the enforcer holds in memory. */
  type Policy = map<User, seq<Role>>

  function LoadPolicy(db: Db): Policy {
    db.roles
  }

  function RolesFor(policy: Policy, user: User): seq<Role> {
    if user in policy then policy[user] else []
  }

  /** Live read permissions of the user or of one of the user's roles. */
  function RowsFor(rows: seq<PermissionRow>, subjects: seq<string>): seq<Permission> {
    if rows == [] then []
    else
      var r := rows[0];
      (if r.subject in subjects && r.read && !r.deleted then [r.permission] else []) + RowsFor(rows[1..], subjects)
  }

  function ScopeTableOf(db: Db): ScopeTable {
    (ref: ScopeRef) => if ref in db.scopes then Found(db.scopes[ref]) else NotFound
  }

  /** What the user's own permissions amount to. */
  function OwnPayload(db: Db, policy: Policy, user: User): Option<Payload> {
    var roles := RolesFor(policy, user);
    if GUEST !in roles then Some(DISABLED)
    else Build(RowsFor(db.permissions, [user] + roles), ScopeTableOf(db))
  }

  /** As long as the database answers, the payload can be built. */
  lemma OwnPayloadExists(db: Db, policy: Policy, user: User)
    ensures OwnPayload(db, policy, user).Some?
  {
    var perms := RowsFor(db.permissions, [user] + RolesFor(policy, user));
    BuildExact(LITERAL, perms, ScopeTableOf(db), Config, Resource("", map[], "", ""), "");
  }

  /** The payload a request deserves, impersonation included. */
  function Recompute(db: Db, policy: Policy, user: User, header: Option<Payload>): Payload {
    OwnPayloadExists(db, policy, user);
    ApplyImpersonation(OwnPayload(db, policy, user).value, header)
  }

  // ---------------------------------------------------------------- what a user deserves, in terms of the tables

  ghost predicate IsGuest(policy: Policy, user: User) {
    user in policy && "guest" in policy[user]
  }

  /** A live read row of the user or of one of the user's roles. */
  ghost predicate Concerns(row: PermissionRow, policy: Policy, user: User) {
    !row.deleted && row.read && (row.subject == user || (user in policy && row.subject in policy[user]))
  }

  /** Some scope that the permission refers to exists and has a target that matches. */
  ghost predicate ReachesThroughScope(like: NameTest, db: Db, refs: seq<ScopeRef>, kind: Kind, x: Resource) {
    exists ref :: ref in refs && ref in db.scopes && RowHits(like, db.scopes[ref], kind, x)
  }

  /** The permission reaches the resource by id, by a selector of its own, or through a scope. */
  ghost predicate PermissionReaches(like: NameTest, db: Db, perm: Permission, kind: Kind, x: Resource) {
    || ReachesById(perm, kind, x)
    || (perm.selector.Selectors? &&
        (|| SelectorsHit(like, SelectorsFor(perm.selector, kind), x)
         || (kind.View? && ViewsHit(like, perm.selector.views, x))
         || ReachesThroughScope(like, db, perm.selector.scopes, kind, x)))
  }

  /** Some row that concerns the user, with the given sign, reaches the resource. */
  ghost predicate SomeRowReaches(
      like: NameTest, db: Db, policy: Policy, user: User, deny: bool, kind: Kind, x: Resource) {
    exists row :: row in db.permissions && Concerns(row, policy, user) && row.permission.deny == deny
                  && PermissionReaches(like, db, row.permission, kind, x)
  }

  /** The permission refers to an existing scope with the id. */
  ghost predicate NamesScope(db: Db, perm: Permission, id: string) {
    perm.selector.Selectors? && exists ref :: ref in perm.selector.scopes && ref in db.scopes && db.scopes[ref].id == id
  }

  ghost predicate SomeRowNamesScope(db: Db, policy: Policy, user: User, id: string) {
    exists row :: row in db.permissions && Concerns(row, policy, user) && !row.permission.deny
                  && NamesScope(db, row.permission, id)
  }

  lemma {:induction false} InRowsFor(rows: seq<PermissionRow>, subjects: seq<string>, perm: Permission)
    ensures perm in RowsFor(rows, subjects) <==>
            exists row :: row in rows && !row.deleted && row.read && row.subject in subjects && row.permission == perm
  {
    if rows != [] {
      InRowsFor(rows[1..], subjects, perm);
      assert rows == [rows[0]] + rows[1..];
    }
  }

  /** The rows selected for a user are those that concern the user. */
  lemma SelectedConcern(db: Db, policy: Policy, user: User, perm: Permission)
    ensures perm in RowsFor(db.permissions, [user] + RolesFor(policy, user)) <==>
            exists row :: row in db.permissions && Concerns(row, policy, user) && row.permission == perm
  {
    InRowsFor(db.permissions, [user] + RolesFor(policy, user), perm);
    forall row: PermissionRow
      ensures row.subject in [user] + RolesFor(policy, user) <==>
              row.subject == user || (user in policy && row.subject in policy[user])
    {
    }
    if exists row :: row in db.permissions && Concerns(row, policy, user) && row.permission == perm {
      var row :| row in db.permissions && Concerns(row, policy, user) && row.permission == perm;
      assert row.subject in [user] + RolesFor(policy, user);
    }
  }

  lemma ReachesInDb(like: NameTest, db: Db, perm: Permission, kind: Kind, x: Resource, id: string)
    ensures Reaches(like, perm, ScopeTableOf(db), kind, x) <==> PermissionReaches(like, db, perm, kind, x)
    ensures Confers(perm, ScopeTableOf(db), id) <==> !perm.deny && NamesScope(db, perm, id)
  {
    var table := ScopeTableOf(db);
    if perm.selector.Selectors? {
      var refs := perm.selector.scopes;
      forall ref | ref in refs
        ensures RefHits(like, ref, table, kind, x) <==> ref in db.scopes && RowHits(like, db.scopes[ref], kind, x)
        ensures table(ref).Found? && table(ref).row.id == id <==> ref in db.scopes && db.scopes[ref].id == id
      {
      }
    }
  }

  lemma SelectedReach(like: NameTest, db: Db, policy: Policy, user: User, deny: bool, kind: Kind, x: Resource)
    ensures SomeReaches(like, RowsFor(db.permissions, [user] + RolesFor(policy, user)), ScopeTableOf(db), deny, kind, x)
            <==> SomeRowReaches(like, db, policy, user, deny, kind, x)
  {
    forall perm: Permission
      ensures perm in RowsFor(db.permissions, [user] + RolesFor(policy, user)) <==>
              exists row :: row in db.permissions && Concerns(row, policy, user) && row.permission == perm
      ensures Reaches(like, perm, ScopeTableOf(db), kind, x) <==> PermissionReaches(like, db, perm, kind, x)
    {
      SelectedConcern(db, policy, user, perm);
      ReachesInDb(like, db, perm, kind, x, "");
    }
  }

  lemma SelectedConfer(db: Db, policy: Policy, user: User, id: string)
    ensures SomeConfers(RowsFor(db.permissions, [user] + RolesFor(policy, user)), ScopeTableOf(db), id) <==>
            SomeRowNamesScope(db, policy, user, id)
  {
    forall perm: Permission
      ensures perm in RowsFor(db.permissions, [user] + RolesFor(policy, user)) <==>
              exists row :: row in db.permissions && Concerns(row, policy, user) && row.permission == perm
      ensures Confers(perm, ScopeTableOf(db), id) <==> !perm.deny && NamesScope(db, perm, id)
    {
      SelectedConcern(db, policy, user, perm);
      ReachesInDb(LITERAL, db, perm, Config, Resource("", map[], "", ""), id);
    }
  }

  /**
   A payload is what the user deserves: it restricts exactly the guests; a guest is granted a resource exactly when
   some row that concerns the user allows and reaches it and none denies and reaches it, and the rows of a scope exactly
   when an allowing row names the scope; anybody else is granted everything.
   */
  ghost predicate Deserved(db: Db, policy: Policy, user: User, p: Payload) {
    && (p.disable <==> !IsGuest(policy, user))
    && (forall like, kind, x :: GrantsBy(like, p, kind, x) <==>
          !IsGuest(policy, user) ||
          (SomeRowReaches(like, db, policy, user, false, kind, x)
           && !SomeRowReaches(like, db, policy, user, true, kind, x)))
    && (forall id :: GrantsRows(p, id) <==> !IsGuest(policy, user) || SomeRowNamesScope(db, policy, user, id))
  }

  /** Without a header the payload is what the user deserves. */
  lemma UnimpersonatedIsDeserved(db: Db, policy: Policy, user: User)
    ensures Deserved(db, policy, user, Recompute(db, policy, user, None))
  {
    var p := Recompute(db, policy, user, None);
    if IsGuest(policy, user) {
      OwnPayloadExists(db, policy, user);
      var perms := RowsFor(db.permissions, [user] + RolesFor(policy, user));
      BuildExact(LITERAL, perms, ScopeTableOf(db), Config, Resource("", map[], "", ""), "");
      forall like, kind, x ensures GrantsBy(like, p, kind, x) <==>
          SomeRowReaches(like, db, policy, user, false, kind, x)
          && !SomeRowReaches(like, db, policy, user, true, kind, x)
      {
        BuildExact(like, perms, ScopeTableOf(db), kind, x, "");
        SelectedReach(like, db, policy, user, false, kind, x);
        SelectedReach(like, db, policy, user, true, kind, x);
      }
      forall id ensures GrantsRows(p, id) <==> SomeRowNamesScope(db, policy, user, id) {
        BuildExact(LITERAL, perms, ScopeTableOf(db), Config, Resource("", map[], "", ""), id);
        SelectedConfer(db, policy, user, id);
      }
    }
  }

  /** With a header it is what the header leaves of that. */
  ghost predicate DeservedUnder(db: Db, policy: Policy, user: User, header: Option<Payload>, p: Payload) {
    exists own :: Deserved(db, policy, user, own) && p == ApplyImpersonation(own, header)
  }

  lemma RecomputedIsDeserved(db: Db, policy: Policy, user: User, header: Option<Payload>)
    ensures DeservedUnder(db, policy, user, header, Recompute(db, policy, user, header))
    ensures header.None? ==> Deserved(db, policy, user, Recompute(db, policy, user, header))
  {
    UnimpersonatedIsDeserved(db, policy, user);
    OwnPayloadExists(db, policy, user);
    assert Recompute(db, policy, user, header) == ApplyImpersonation(Recompute(db, policy, user, None), header);
  }

  // ---------------------------------------------------------------- the machine

  /** Cache keys: the user and the fingerprint of the impersonation header, if any. */
  datatype Key = Key(user: User, header: Option<Payload>)

  datatype JwtKey = JwtKey(session: Session, user: User)

  /** Bookkeeping: the database and the policy in memory that a payload was computed from. */
  datatype Origin = Origin(db: Db, policy: Policy)

  function From(origin: Origin, user: User, header: Option<Payload>): Payload {
    Recompute(origin.db, origin.policy, user, header)
  }

  datatype Cached = Cached(payload: Payload, origin: Origin)

  /** `header`, that of the request which created the token, is bookkeeping too. */
  datatype Jwt = Jwt(claims: Payload, header: Option<Payload>, origin: Origin)

  datatype Phase = Idle | Reloading | Flushing

  /** A payload computed but not yet stored, perhaps for the token of a session; `epoch` is when it was computed. */
  datatype Flight = Flight(key: Key, origin: Origin, epoch: nat, session: Option<Session>)

  /** A token made but not yet stored. */
  datatype JwtFlight = JwtFlight(key: JwtKey, jwt: Jwt, epoch: nat)

  /** `epoch` counts the flushes. */
  datatype State = State(
    db: Db, policy: Policy, payloads: map<Key, Cached>, jwts: map<JwtKey, Jwt>,
    inFlight: map<nat, Flight>, jwtsInFlight: map<nat, JwtFlight>, pending: nat, phase: Phase, epoch: nat)

  datatype Action =
    | ChangeDb(db: Db)
    | TakeEvent
    | Reload(ok: bool)
    | Flush
    | FlushAlone
    | ReloadAlone(ok: bool)
    | Read(user: User, header: Option<Payload>)
    | ReadJwt(session: Session, user: User, header: Option<Payload>)
    | Evict(key: Key)
    | EvictJwt(jwtKey: JwtKey)
    | Compute(reader: nat, user: User, header: Option<Payload>, forSession: Option<Session>)
    | Store(reader: nat)
    | MakeJwt(reader: nat, session: Session, user: User, header: Option<Payload>)
    | StoreJwt(reader: nat)

  function Init(db: Db): State {
    State(db, LoadPolicy(db), map[], map[], map[], map[], 0, Idle, 0)
  }

  predicate Enabled(s: State, a: Action) {
    match a
    case TakeEvent => s.phase.Idle? && s.pending > 0
    case Reload(_) => s.phase.Reloading?
    case Flush => s.phase.Flushing?
    case ReloadAlone(_) => s.phase.Idle?
    case Store(r) => r in s.inFlight
    case StoreJwt(r) => r in s.jwtsInFlight
    case _ => true
  }

  /** An atomic cached read. */
  function ReadPayload(s: State, user: User, header: Option<Payload>): (State, Cached) {
    var key := Key(user, header);
    if key in s.payloads then (s, s.payloads[key])
    else
      var c := Cached(From(InMemory(s), user, header), InMemory(s));
      (s.(payloads := s.payloads[key := c]), c)
  }

  function InMemory(s: State): Origin {
    Origin(s.db, s.policy)
  }

  /** What payloads should be computed from. */
  function Due(s: State): Origin {
    Origin(s.db, LoadPolicy(s.db))
  }

  /** Handlers of other events flush as well, without a reload. */
  function Flushed(s: State): State {
    s.(payloads := map[], jwts := map[], epoch := s.epoch + 1)
  }

  /** And handlers of yet others reload without a flush. */
  function Reloaded(s: State, ok: bool): State {
    s.(policy := if ok then LoadPolicy(s.db) else s.policy)
  }

  function Carried(f: Flight): Cached {
    Cached(From(f.origin, f.key.user, f.key.header), f.origin)
  }

  function WithJwt(s: State, key: JwtKey, c: Cached, header: Option<Payload>): State {
    s.(jwts := s.jwts[key := Jwt(c.payload, header, c.origin)])
  }

  function WithJwtFlight(s: State, r: nat, key: JwtKey, c: Cached, header: Option<Payload>, epoch: nat): State {
    s.(jwtsInFlight := s.jwtsInFlight[r := JwtFlight(key, Jwt(c.payload, header, c.origin), epoch)])
  }

  /** An atomic request for the token of a session. */
  function JwtAnswered(s: State, session: Session, user: User, header: Option<Payload>): State {
    if JwtKey(session, user) in s.jwts then s
    else
      var (t, c) := ReadPayload(s, user, header);
      WithJwt(t, JwtKey(session, user), c, header)
  }

  /** A request that has read its payload and made its token, but not stored it. */
  function JwtMade(s: State, r: nat, session: Session, user: User, header: Option<Payload>): State {
    var (t, c) := ReadPayload(s, user, header);
    WithJwtFlight(t, r, JwtKey(session, user), c, header, s.epoch)
  }

  function PayloadLanded(s: State, r: nat): State
    requires r in s.inFlight
  {
    var f := s.inFlight[r];
    s.(payloads := s.payloads[f.key := Carried(f)], inFlight := s.inFlight - {r})
  }

  /** A split read that was made for a token goes on to make it. */
  function Landed(s: State, r: nat): State
    requires r in s.inFlight
  {
    var f, t := s.inFlight[r], PayloadLanded(s, r);
    if f.session.None? then t
    else WithJwtFlight(t, r, JwtKey(f.session.value, f.key.user), Carried(f), f.key.header, f.epoch)
  }

  function JwtLanded(s: State, r: nat): State
    requires r in s.jwtsInFlight
  {
    s.(jwts := s.jwts[s.jwtsInFlight[r].key := s.jwtsInFlight[r].jwt], jwtsInFlight := s.jwtsInFlight - {r})
  }

  function Apply(s: State, a: Action): State
    requires Enabled(s, a)
  {
    match a
    case ChangeDb(db) => s.(db := db, pending := s.pending + 1)
    case TakeEvent => s.(pending := s.pending - 1, phase := Reloading)
    case Reload(ok) => Reloaded(s, ok).(phase := Flushing)
    case Flush => Flushed(s).(phase := Idle)
    case FlushAlone => Flushed(s)
    case ReloadAlone(ok) => Reloaded(s, ok)
    case Read(user, header) => ReadPayload(s, user, header).0
    case ReadJwt(session, user, header) => JwtAnswered(s, session, user, header)
    case Evict(key) => s.(payloads := s.payloads - {key})
    case EvictJwt(key) => s.(jwts := s.jwts - {key})
    case Compute(r, user, header, session) =>
      s.(inFlight := s.inFlight[r := Flight(Key(user, header), InMemory(s), s.epoch, session)])
    case Store(r) => Landed(s, r)
    case MakeJwt(r, session, user, header) => JwtMade(s, r, session, user, header)
    case StoreJwt(r) => JwtLanded(s, r)
  }

  datatype Run = Empty | Then(before: Run, step: Action)

  predicate ValidRun(s: State, run: Run)
    decreases run, 0
  {
    run.Empty? || (ValidRun(s, run.before) && Enabled(Execute(s, run.before), run.step))
  }

  function Execute(s: State, run: Run): State
    requires ValidRun(s, run)
    decreases run, 1
  {
    if run.Empty? then s else Apply(Execute(s, run.before), run.step)
  }

  lemma Extend(s: State, run: Run, a: Action)
    requires ValidRun(s, run) && Enabled(Execute(s, run), a)
    ensures ValidRun(s, Then(run, a)) && Execute(s, Then(run, a)) == Apply(Execute(s, run), a)
  {
  }

  /** Every reload that an event of permissions, permission groups or scopes asks for succeeds. */
  predicate ReloadsSucceed(run: Run) {
    run.Then? ==> ReloadsSucceed(run.before) && run.step != Reload(false)
  }

  /** What a split request stores was computed after the last flush. */
  predicate Prompt(s: State, a: Action)
    requires Enabled(s, a)
  {
    match a
    case Store(r) => s.inFlight[r].epoch == s.epoch
    case StoreJwt(r) => s.jwtsInFlight[r].epoch == s.epoch
    case _ => true
  }

  /** Split requests store before the next flush; atomic ones always do. */
  predicate StoresPrompt(s: State, run: Run)
    requires ValidRun(s, run)
  {
    run.Then? ==> StoresPrompt(s, run.before) && Prompt(Execute(s, run.before), run.step)
  }

  /** While nothing else is going on, a reload on its own brings nothing new. */
  predicate Changeless(s: State, a: Action) {
    a.ReloadAlone? && Quiet(s) ==> Reloaded(s, a.ok).policy == s.policy
  }

  predicate SoloReloadsChangeless(s: State, run: Run)
    requires ValidRun(s, run)
  {
    run.Then? ==> SoloReloadsChangeless(s, run.before) && Changeless(Execute(s, run.before), run.step)
  }

  /** No request carries an impersonation header. */
  predicate NoImpersonation(run: Run) {
    run.Then? ==>
      && NoImpersonation(run.before)
      && match run.step
         case ReadJwt(_, _, header) => header.None?
         case MakeJwt(_, _, _, header) => header.None?
         case Compute(_, _, header, _) => header.None?
         case _ => true
  }

  predicate Quiet(s: State) {
    s.pending == 0 && s.phase.Idle?
  }

  // ---------------------------------------------------------------- what cached payloads were computed from

  ghost predicate PayloadsSourced(s: State) {
    forall k :: k in s.payloads ==> s.payloads[k].payload == From(s.payloads[k].origin, k.user, k.header)
  }

  ghost predicate JwtSourced(key: JwtKey, jwt: Jwt) {
    jwt.claims == From(jwt.origin, key.user, jwt.header)
  }

  ghost predicate JwtsSourced(s: State) {
    && (forall k :: k in s.jwts ==> JwtSourced(k, s.jwts[k]))
    && (forall r :: r in s.jwtsInFlight ==> JwtSourced(s.jwtsInFlight[r].key, s.jwtsInFlight[r].jwt))
  }

  ghost predicate Sourced(s: State) {
    PayloadsSourced(s) && JwtsSourced(s)
  }

  lemma ReadSourced(s: State, user: User, header: Option<Payload>)
    requires Sourced(s)
    ensures Sourced(ReadPayload(s, user, header).0)
    ensures var c := ReadPayload(s, user, header).1; c.payload == From(c.origin, user, header)
  {
  }

  lemma WithJwtSourced(s: State, key: JwtKey, c: Cached, header: Option<Payload>)
    requires Sourced(s) && c.payload == From(c.origin, key.user, header)
    ensures Sourced(WithJwt(s, key, c, header))
  {
  }

  lemma WithJwtFlightSourced(s: State, r: nat, key: JwtKey, c: Cached, header: Option<Payload>, epoch: nat)
    requires Sourced(s) && c.payload == From(c.origin, key.user, header)
    ensures Sourced(WithJwtFlight(s, r, key, c, header, epoch))
  {
  }

  lemma JwtAnsweredSourced(s: State, session: Session, user: User, header: Option<Payload>)
    requires Sourced(s)
    ensures Sourced(JwtAnswered(s, session, user, header))
  {
    ReadSourced(s, user, header);
    var (t, c) := ReadPayload(s, user, header);
    WithJwtSourced(t, JwtKey(session, user), c, header);
  }

  lemma JwtMadeSourced(s: State, r: nat, session: Session, user: User, header: Option<Payload>)
    requires Sourced(s)
    ensures Sourced(JwtMade(s, r, session, user, header))
  {
    ReadSourced(s, user, header);
    var (t, c) := ReadPayload(s, user, header);
    WithJwtFlightSourced(t, r, JwtKey(session, user), c, header, s.epoch);
  }

  lemma PayloadLandedSourced(s: State, r: nat)
    requires Sourced(s) && r in s.inFlight
    ensures Sourced(PayloadLanded(s, r))
  {
  }

  lemma LandedSourced(s: State, r: nat)
    requires Sourced(s) && r in s.inFlight
    ensures Sourced(Landed(s, r))
  {
    PayloadLandedSourced(s, r);
    var f := s.inFlight[r];
    if f.session.Some? {
      var key := JwtKey(f.session.value, f.key.user);
      WithJwtFlightSourced(PayloadLanded(s, r), r, key, Carried(f), f.key.header, f.epoch);
    }
  }

  lemma JwtLandedSourced(s: State, r: nat)
    requires Sourced(s) && r in s.jwtsInFlight
    ensures Sourced(JwtLanded(s, r))
  {
  }

  lemma StepKeepsSourced(s: State, a: Action)
    requires Sourced(s) && Enabled(s, a)
    ensures Sourced(Apply(s, a))
  {
    match a
    case Read(user, header) => ReadSourced(s, user, header);
    case ReadJwt(session, user, header) => JwtAnsweredSourced(s, session, user, header);
    case MakeJwt(r, session, user, header) => JwtMadeSourced(s, r, session, user, header);
    case Store(r) => LandedSourced(s, r);
    case StoreJwt(r) => JwtLandedSourced(s, r);
    case _ =>
  }

  /** In every run every cached payload is the one that its bookkeeping says. */
  lemma {:induction false} RunKeepsSourced(db: Db, run: Run)
    requires ValidRun(Init(db), run)
    ensures Sourced(Execute(Init(db), run))
  {
    if run.Then? {
      RunKeepsSourced(db, run.before);
      StepKeepsSourced(Execute(Init(db), run.before), run.step);
    }
  }

  // ---------------------------------------------------------------- a quiet system

  /** The origin is the database of `s` and, when `policy` says so, the policy in memory. */
  predicate Follows(s: State, origin: Origin, policy: bool) {
    origin.db == s.db && (policy ==> origin.policy == s.policy)
  }

  ghost predicate PayloadsFollow(s: State, policy: bool) {
    forall k :: k in s.payloads ==> Follows(s, s.payloads[k].origin, policy)
  }

  ghost predicate JwtsFollow(s: State, policy: bool) {
    forall k :: k in s.jwts ==> Follows(s, s.jwts[k].origin, policy)
  }

  ghost predicate FlightsFollow(s: State, policy: bool) {
    forall r :: r in s.inFlight && s.inFlight[r].epoch == s.epoch ==> Follows(s, s.inFlight[r].origin, policy)
  }

  ghost predicate JwtFlightsFollow(s: State, policy: bool) {
    forall r :: r in s.jwtsInFlight && s.jwtsInFlight[r].epoch == s.epoch ==>
      Follows(s, s.jwtsInFlight[r].jwt.origin, policy)
  }

  ghost predicate AllFollow(s: State, policy: bool) {
    PayloadsFollow(s, policy) && JwtsFollow(s, policy) && FlightsFollow(s, policy) && JwtFlightsFollow(s, policy)
  }

  ghost predicate EpochsPast(s: State) {
    && (forall r :: r in s.inFlight ==> s.inFlight[r].epoch <= s.epoch)
    && (forall r :: r in s.jwtsInFlight ==> s.jwtsInFlight[r].epoch <= s.epoch)
  }

  ghost predicate Grounded(s: State, policy: bool) {
    EpochsPast(s) && (Quiet(s) ==> AllFollow(s, policy))
  }

  lemma ReadFollows(s: State, user: User, header: Option<Payload>, policy: bool)
    requires AllFollow(s, policy)
    ensures AllFollow(ReadPayload(s, user, header).0, policy)
    ensures Follows(s, ReadPayload(s, user, header).1.origin, policy)
  {
  }

  lemma WithJwtFollows(s: State, key: JwtKey, c: Cached, header: Option<Payload>, policy: bool)
    requires AllFollow(s, policy) && Follows(s, c.origin, policy)
    ensures AllFollow(WithJwt(s, key, c, header), policy)
  {
  }

  lemma WithJwtFlightFollows(
      s: State, r: nat, key: JwtKey, c: Cached, header: Option<Payload>, epoch: nat, policy: bool)
    requires AllFollow(s, policy) && Follows(s, c.origin, policy)
    ensures AllFollow(WithJwtFlight(s, r, key, c, header, epoch), policy)
  {
  }

  lemma JwtAnsweredFollows(s: State, session: Session, user: User, header: Option<Payload>, policy: bool)
    requires AllFollow(s, policy)
    ensures AllFollow(JwtAnswered(s, session, user, header), policy)
  {
    ReadFollows(s, user, header, policy);
    var (t, c) := ReadPayload(s, user, header);
    WithJwtFollows(t, JwtKey(session, user), c, header, policy);
  }

  lemma JwtMadeFollows(s: State, r: nat, session: Session, user: User, header: Option<Payload>, policy: bool)
    requires AllFollow(s, policy)
    ensures AllFollow(JwtMade(s, r, session, user, header), policy)
  {
    ReadFollows(s, user, header, policy);
    var (t, c) := ReadPayload(s, user, header);
    WithJwtFlightFollows(t, r, JwtKey(session, user), c, header, s.epoch, policy);
  }

  lemma PayloadLandedFollows(s: State, r: nat, policy: bool)
    requires AllFollow(s, policy) && r in s.inFlight && s.inFlight[r].epoch == s.epoch
    ensures AllFollow(PayloadLanded(s, r), policy) && Follows(PayloadLanded(s, r), s.inFlight[r].origin, policy)
  {
  }

  lemma LandedFollows(s: State, r: nat, policy: bool)
    requires AllFollow(s, policy) && r in s.inFlight && s.inFlight[r].epoch == s.epoch
    ensures AllFollow(Landed(s, r), policy)
  {
    PayloadLandedFollows(s, r, policy);
    var f := s.inFlight[r];
    if f.session.Some? {
      var key := JwtKey(f.session.value, f.key.user);
      WithJwtFlightFollows(PayloadLanded(s, r), r, key, Carried(f), f.key.header, f.epoch, policy);
    }
  }

  lemma JwtLandedFollows(s: State, r: nat, policy: bool)
    requires AllFollow(s, policy) && r in s.jwtsInFlight && s.jwtsInFlight[r].epoch == s.epoch
    ensures AllFollow(JwtLanded(s, r), policy)
  {
  }

  lemma QuietStepFollows(s: State, a: Action, policy: bool)
    requires AllFollow(s, policy) && Quiet(s) && Enabled(s, a) && Prompt(s, a) && (policy ==> Changeless(s, a))
    requires EpochsPast(s)
    ensures Quiet(Apply(s, a)) ==> AllFollow(Apply(s, a), policy)
  {
    match a
    case Read(user, header) => ReadFollows(s, user, header, policy);
    case ReadJwt(session, user, header) => JwtAnsweredFollows(s, session, user, header, policy);
    case MakeJwt(r, session, user, header) => JwtMadeFollows(s, r, session, user, header, policy);
    case Store(r) => LandedFollows(s, r, policy);
    case StoreJwt(r) => JwtLandedFollows(s, r, policy);
    case _ =>
  }

  lemma StepKeepsEpochs(s: State, a: Action)
    requires EpochsPast(s) && Enabled(s, a)
    ensures EpochsPast(Apply(s, a))
  {
  }

  lemma StepKeepsGrounded(s: State, a: Action, policy: bool)
    requires Grounded(s, policy) && Enabled(s, a) && Prompt(s, a) && (policy ==> Changeless(s, a))
    ensures Grounded(Apply(s, a), policy)
  {
    StepKeepsEpochs(s, a);
    if Quiet(s) { QuietStepFollows(s, a, policy); }
  }

  /**
   When split requests store before the next flush, a quiet system has cached only what was computed from the current
   database; and from the policy in memory if no reload on its own changed that policy under a quiet system.
   */
  lemma {:induction false} RunKeepsGrounded(db: Db, run: Run, policy: bool)
    requires ValidRun(Init(db), run) && StoresPrompt(Init(db), run)
    requires policy ==> SoloReloadsChangeless(Init(db), run)
    ensures Grounded(Execute(Init(db), run), policy)
  {
    if run.Then? {
      RunKeepsGrounded(db, run.before, policy);
      StepKeepsGrounded(Execute(Init(db), run.before), run.step, policy);
    }
  }

  /**
   Whichever reloads failed or came alone, a quiet cached payload is current exactly when the policy it was computed
   with and the database's give the same payload.
   */
  lemma CachedPayloadCurrentIff(db: Db, run: Run, k: Key)
    requires ValidRun(Init(db), run) && StoresPrompt(Init(db), run)
    requires Quiet(Execute(Init(db), run)) && k in Execute(Init(db), run).payloads
    ensures var s := Execute(Init(db), run);
            var used := s.payloads[k].origin.policy;
            && s.payloads[k].payload == Recompute(s.db, used, k.user, k.header)
            && (s.payloads[k].payload == From(Due(s), k.user, k.header) <==>
                Recompute(s.db, used, k.user, k.header) == Recompute(s.db, LoadPolicy(s.db), k.user, k.header))
            && (SoloReloadsChangeless(Init(db), run) ==> used == s.policy)
  {
    RunKeepsSourced(db, run);
    RunKeepsGrounded(db, run, false);
    if SoloReloadsChangeless(Init(db), run) { RunKeepsGrounded(db, run, true); }
  }

  /** The same of a cached JWT, with the header of the request that created it. */
  lemma CachedJwtCurrentIff(db: Db, run: Run, k: JwtKey)
    requires ValidRun(Init(db), run) && StoresPrompt(Init(db), run)
    requires Quiet(Execute(Init(db), run)) && k in Execute(Init(db), run).jwts
    ensures var s := Execute(Init(db), run);
            var header, used := s.jwts[k].header, s.jwts[k].origin.policy;
            && s.jwts[k].claims == Recompute(s.db, used, k.user, header)
            && (s.jwts[k].claims == From(Due(s), k.user, header) <==>
                Recompute(s.db, used, k.user, header) == Recompute(s.db, LoadPolicy(s.db), k.user, header))
            && (SoloReloadsChangeless(Init(db), run) ==> used == s.policy)
  {
    RunKeepsSourced(db, run);
    RunKeepsGrounded(db, run, false);
    if SoloReloadsChangeless(Init(db), run) { RunKeepsGrounded(db, run, true); }
  }

  // ---------------------------------------------------------------- coherence with the database

  ghost predicate PayloadsCurrent(s: State) {
    forall k :: k in s.payloads ==> s.payloads[k].payload == From(Due(s), k.user, k.header)
  }

  ghost predicate JwtsCurrent(s: State) {
    forall k :: k in s.jwts ==> s.jwts[k].claims == From(Due(s), k.user, s.jwts[k].header)
  }

  ghost predicate PolicyCurrent(s: State) {
    s.pending == 0 && !s.phase.Reloading? ==> s.policy == LoadPolicy(s.db)
  }

  ghost predicate Inv(s: State) {
    PolicyCurrent(s) && (Quiet(s) ==> PayloadsCurrent(s) && JwtsCurrent(s))
  }

  lemma StepKeepsPolicy(s: State, a: Action)
    requires PolicyCurrent(s) && Enabled(s, a) && a != Reload(false)
    ensures PolicyCurrent(Apply(s, a)) && Changeless(s, a)
  {
  }

  lemma {:induction false} RunKeepsPolicy(db: Db, run: Run)
    requires ValidRun(Init(db), run) && ReloadsSucceed(run)
    ensures PolicyCurrent(Execute(Init(db), run)) && SoloReloadsChangeless(Init(db), run)
  {
    if run.Then? {
      RunKeepsPolicy(db, run.before);
      StepKeepsPolicy(Execute(Init(db), run.before), run.step);
    }
  }

  /** In every run with successful reloads whose requests store before the next flush, a quiet system is current. */
  lemma RunKeepsInv(db: Db, run: Run)
    requires ValidRun(Init(db), run) && StoresPrompt(Init(db), run) && ReloadsSucceed(run)
    ensures Inv(Execute(Init(db), run))
  {
    RunKeepsPolicy(db, run);
    RunKeepsSourced(db, run);
    RunKeepsGrounded(db, run, true);
  }

  /** When no event is pending and the loop is idle, every cached payload equals its recomputation. */
  lemma CachedPayloadsAgree(db: Db, run: Run, user: User, header: Option<Payload>)
    requires ValidRun(Init(db), run) && StoresPrompt(Init(db), run) && ReloadsSucceed(run)
    requires Quiet(Execute(Init(db), run)) && Key(user, header) in Execute(Init(db), run).payloads
    ensures var s := Execute(Init(db), run);
            s.payloads[Key(user, header)].payload == Recompute(s.db, LoadPolicy(s.db), user, header)
  {
    RunKeepsInv(db, run);
  }

  /** So a cached read and an uncached one answer alike. */
  lemma CacheIsTransparent(db: Db, run: Run, user: User, header: Option<Payload>)
    requires ValidRun(Init(db), run) && StoresPrompt(Init(db), run) && ReloadsSucceed(run)
    requires Quiet(Execute(Init(db), run))
    ensures var s := Execute(Init(db), run);
            ReadPayload(s, user, header).1.payload == Recompute(s.db, LoadPolicy(s.db), user, header)
  {
    RunKeepsInv(db, run);
  }

  /** Judged by the tables alone: what a quiet read answers is what the user deserves by the tables of that moment. */
  lemma QuietReadIsDeserved(db: Db, run: Run, user: User, header: Option<Payload>)
    requires ValidRun(Init(db), run) && StoresPrompt(Init(db), run) && ReloadsSucceed(run)
    requires Quiet(Execute(Init(db), run))
    ensures var s := Execute(Init(db), run);
            var p := ReadPayload(s, user, header).1.payload;
            DeservedUnder(s.db, s.db.roles, user, header, p) && (header.None? ==> Deserved(s.db, s.db.roles, user, p))
  {
    var s := Execute(Init(db), run);
    CacheIsTransparent(db, run, user, header);
    RecomputedIsDeserved(s.db, s.db.roles, user, header);
  }

  /** Neither a cached token, nor one in flight, nor a payload in flight carries a header. */
  ghost predicate Headerless(s: State) {
    && (forall k :: k in s.jwts ==> s.jwts[k].header.None?)
    && (forall r :: r in s.inFlight ==> s.inFlight[r].key.header.None?)
    && (forall r :: r in s.jwtsInFlight ==> s.jwtsInFlight[r].jwt.header.None?)
  }

  lemma StepKeepsHeaderless(s: State, a: Action)
    requires Headerless(s) && Enabled(s, a) && NoImpersonation(Then(Empty, a))
    ensures Headerless(Apply(s, a))
  {
    match a
    case ReadJwt(session, user, _) => HeaderlessAnswer(s, session, user);
    case MakeJwt(r, session, user, _) => HeaderlessMade(s, r, session, user);
    case Store(r) => HeaderlessLanded(s, r);
    case _ =>
  }

  lemma HeaderlessAnswer(s: State, session: Session, user: User)
    requires Headerless(s)
    ensures Headerless(JwtAnswered(s, session, user, None))
  {
  }

  lemma HeaderlessMade(s: State, r: nat, session: Session, user: User)
    requires Headerless(s)
    ensures Headerless(JwtMade(s, r, session, user, None))
  {
  }

  lemma HeaderlessLanded(s: State, r: nat)
    requires Headerless(s) && r in s.inFlight
    ensures Headerless(Landed(s, r))
  {
  }

  lemma {:induction false} HeadersAbsent(db: Db, run: Run)
    requires ValidRun(Init(db), run) && NoImpersonation(run)
    ensures Headerless(Execute(Init(db), run))
  {
    if run.Then? {
      HeadersAbsent(db, run.before);
      StepKeepsHeaderless(Execute(Init(db), run.before), run.step);
    }
  }

  /** Without impersonation the payload inside every cached JWT is current as well. */
  lemma CachedJwtsAgree(db: Db, run: Run, k: JwtKey)
    requires ValidRun(Init(db), run) && StoresPrompt(Init(db), run) && ReloadsSucceed(run) && NoImpersonation(run)
    requires Quiet(Execute(Init(db), run)) && k in Execute(Init(db), run).jwts
    ensures var s := Execute(Init(db), run);
            s.jwts[k].claims == Recompute(s.db, LoadPolicy(s.db), k.user, None)
  {
    RunKeepsInv(db, run);
    HeadersAbsent(db, run);
  }

  // ---------------------------------------------------------------- impersonation and JWTs

  /** The header takes nothing from the user's own payload. */
  ghost predicate Harmless(own: Payload, header: Option<Payload>) {
    header.Some? ==> if own.disable then header.value.disable else ListsCover(header.value, own)
  }

  lemma HarmlessIff(own: Payload, header: Option<Payload>)
    ensures SameGrants(ApplyImpersonation(own, header), own) <==> Harmless(own, header)
  {
    if header.Some? { HeaderChangesNothingIff(own, header.value); }
  }

  lemma JwtIsCurrent(db: Db, run: Run, k: JwtKey)
    requires ValidRun(Init(db), run) && StoresPrompt(Init(db), run) && ReloadsSucceed(run)
    requires Quiet(Execute(Init(db), run)) && k in Execute(Init(db), run).jwts
    ensures var s := Execute(Init(db), run);
            s.jwts[k].claims == ApplyImpersonation(From(Due(s), k.user, None), s.jwts[k].header)
  {
    RunKeepsInv(db, run);
  }

  lemma SessionServesItsJwt(s: State, k: JwtKey, later: Option<Payload>)
    requires k in s.jwts
    ensures Apply(s, ReadJwt(k.session, k.user, later)) == s
  {
  }

  /**
   The JWT key does not mention the header: whatever header a later request carries, it is served the JWT that the
   session's first request made.  That JWT means the same as the user's own payload exactly when its header is absent,
   or disabled for an unrestricted user, or covers all that a restricted user has.
   */
  lemma HeaderSticksToSession(db: Db, run: Run, k: JwtKey, later: Option<Payload>)
    requires ValidRun(Init(db), run) && StoresPrompt(Init(db), run) && ReloadsSucceed(run)
    requires Quiet(Execute(Init(db), run)) && k in Execute(Init(db), run).jwts
    ensures var s := Execute(Init(db), run);
            var own := From(Due(s), k.user, None);
            && Apply(s, ReadJwt(k.session, k.user, later)) == s
            && s.jwts[k].claims == ApplyImpersonation(own, s.jwts[k].header)
            && (SameGrants(s.jwts[k].claims, own) <==> Harmless(own, s.jwts[k].header))
  {
    var s := Execute(Init(db), run);
    JwtIsCurrent(db, run, k);
    SessionServesItsJwt(s, k, later);
    HarmlessIff(From(Due(s), k.user, None), s.jwts[k].header);
  }

  /** Any header gets into a session that starts with it. */
  lemma HeaderOpensSession(db: Db, session: Session, user: User, h: Payload)
    ensures var run := Then(Then(Empty, ReadJwt(session, user, Some(h))), ReadJwt(session, user, None));
            && ValidRun(Init(db), run) && StoresPrompt(Init(db), run) && ReloadsSucceed(run)
            && var s := Execute(Init(db), run);
            && Quiet(s) && JwtKey(session, user) in s.jwts && s.jwts[JwtKey(session, user)].header == Some(h)
            && s.jwts[JwtKey(session, user)].claims == Recompute(db, LoadPolicy(db), user, Some(h))
  {
    var first := Then(Empty, ReadJwt(session, user, Some(h)));
    Extend(Init(db), Empty, ReadJwt(session, user, Some(h)));
    var made := Jwt(Recompute(db, LoadPolicy(db), user, Some(h)), Some(h), Due(Init(db)));
    assert Execute(Init(db), first).jwts[JwtKey(session, user)] == made;
    Extend(Init(db), first, ReadJwt(session, user, None));
    SessionServesItsJwt(Execute(Init(db), first), JwtKey(session, user), None);
    assert StoresPrompt(Init(db), Empty) && StoresPrompt(Init(db), first);
    assert ReloadsSucceed(Empty) && ReloadsSucceed(first);
  }

  // ---------------------------------------------------------------- requests that store late

  /** What storing the payload does to the currency of the payloads. */
  ghost predicate CoherentIff(s: State, r: nat)
    requires r in s.inFlight
  {
    var f := s.inFlight[r];
    PayloadsCurrent(Landed(s, r)) <==>
    From(f.origin, f.key.user, f.key.header) == From(Due(s), f.key.user, f.key.header)
  }

  lemma LandedCurrentIff(s: State, r: nat)
    requires PayloadsCurrent(s) && r in s.inFlight
    ensures CoherentIff(s, r)
  {
    var n, f := Landed(s, r), s.inFlight[r];
    assert f.key in n.payloads && n.payloads[f.key] == Carried(f);
    forall k | k in n.payloads && k != f.key
      ensures n.payloads[k].payload == From(Due(s), k.user, k.header)
    {
      assert k in s.payloads && n.payloads[k] == s.payloads[k];
    }
  }

  lemma QuietPayloads(db: Db, run: Run)
    requires ValidRun(Init(db), run) && StoresPrompt(Init(db), run) && ReloadsSucceed(run)
    requires Quiet(Execute(Init(db), run))
    ensures PayloadsCurrent(Execute(Init(db), run))
  {
    RunKeepsInv(db, run);
  }

  /**
   A split request that stores late, after any run in which none did so: the cache stays current exactly when what
   changed since the payload was computed makes no difference to it.
   */
  lemma LateStoreCoherentIff(db: Db, run: Run, r: nat)
    requires ValidRun(Init(db), run) && StoresPrompt(Init(db), run) && ReloadsSucceed(run)
    requires Quiet(Execute(Init(db), run)) && r in Execute(Init(db), run).inFlight
    ensures var s := Execute(Init(db), run);
            Apply(s, Store(r)) == Landed(s, r) && Quiet(Landed(s, r)) && CoherentIff(s, r)
  {
    QuietPayloads(db, run);
    LandedCurrentIff(Execute(Init(db), run), r);
    LandedQuiet(Execute(Init(db), run), r);
  }

  lemma LandedQuiet(s: State, r: nat)
    requires Quiet(s) && r in s.inFlight
    ensures Apply(s, Store(r)) == Landed(s, r) && Quiet(Landed(s, r))
  {
  }

  lemma QuietJwts(db: Db, run: Run)
    requires ValidRun(Init(db), run) && StoresPrompt(Init(db), run) && ReloadsSucceed(run)
    requires Quiet(Execute(Init(db), run))
    ensures JwtsCurrent(Execute(Init(db), run)) && JwtsSourced(Execute(Init(db), run))
  {
    RunKeepsInv(db, run);
    RunKeepsSourced(db, run);
  }

  /** What storing the token does to the currency of the tokens. */
  ghost predicate JwtCoherentIff(s: State, r: nat)
    requires r in s.jwtsInFlight
  {
    var f := s.jwtsInFlight[r];
    JwtsCurrent(JwtLanded(s, r)) <==>
    From(f.jwt.origin, f.key.user, f.jwt.header) == From(Due(s), f.key.user, f.jwt.header)
  }

  /** The same of a token that is stored late. */
  lemma LateJwtCoherentIff(db: Db, run: Run, r: nat)
    requires ValidRun(Init(db), run) && StoresPrompt(Init(db), run) && ReloadsSucceed(run)
    requires Quiet(Execute(Init(db), run)) && r in Execute(Init(db), run).jwtsInFlight
    ensures var s := Execute(Init(db), run);
            Apply(s, StoreJwt(r)) == JwtLanded(s, r) && Quiet(JwtLanded(s, r)) && JwtCoherentIff(s, r)
  {
    QuietJwts(db, run);
    JwtLandedCurrentIff(Execute(Init(db), run), r);
    JwtLandedQuiet(Execute(Init(db), run), r);
  }

  lemma JwtLandedQuiet(s: State, r: nat)
    requires Quiet(s) && r in s.jwtsInFlight
    ensures Apply(s, StoreJwt(r)) == JwtLanded(s, r) && Quiet(JwtLanded(s, r))
  {
  }

  lemma JwtLandedCurrentIff(s: State, r: nat)
    requires JwtsCurrent(s) && JwtsSourced(s) && r in s.jwtsInFlight
    ensures JwtCoherentIff(s, r)
  {
    var n, f := JwtLanded(s, r), s.jwtsInFlight[r];
    assert f.key in n.jwts && n.jwts[f.key] == f.jwt;
    forall k | k in n.jwts && k != f.key ensures n.jwts[k].claims == From(Due(s), k.user, n.jwts[k].header) {
      assert k in s.jwts && n.jwts[k] == s.jwts[k];
    }
  }

  /** The run in which a change is handled completely while a read is between computing and storing. */
  function RacyRun(db': Db, user: User): Run {
    var computed := Then(Empty, Compute(0, user, None, None));
    Then(Then(Then(Then(Then(computed, ChangeDb(db')), TakeEvent), Reload(true)), Flush), Store(0))
  }

  /**
   Such late stores happen: when a read computes before a change and stores after the flush, the loop is quiet again
   and yet the cached payload is the old one, stale exactly when the change mattered.
   */
  lemma RacyReadLeavesOldPayload(db: Db, db': Db, user: User)
    ensures ValidRun(Init(db), RacyRun(db', user)) && Quiet(Execute(Init(db), RacyRun(db', user)))
    ensures var s := Execute(Init(db), RacyRun(db', user));
            && s.db == db' && Key(user, None) in s.payloads
            && s.payloads[Key(user, None)].payload == Recompute(db, LoadPolicy(db), user, None)
            && (PayloadsCurrent(s) <==>
                Recompute(db, LoadPolicy(db), user, None) == Recompute(db', LoadPolicy(db'), user, None))
  {
    var s0, f := Init(db), Flight(Key(user, None), Due(Init(db)), 0, None);
    var r1 := Then(Empty, Compute(0, user, None, None));
    var r2 := Then(r1, ChangeDb(db'));
    var r3 := Then(r2, TakeEvent);
    var r4 := Then(r3, Reload(true));
    Extend(s0, Empty, Compute(0, user, None, None));
    assert Execute(s0, r1) == s0.(inFlight := map[0 := f]);
    Extend(s0, r1, ChangeDb(db'));
    Extend(s0, r2, TakeEvent);
    assert Execute(s0, r3) == State(db', LoadPolicy(db), map[], map[], map[0 := f], map[], 0, Reloading, 0);
    Extend(s0, r3, Reload(true));
    Extend(s0, r4, Flush);
    assert Execute(s0, Then(r4, Flush)) == State(db', LoadPolicy(db'), map[], map[], map[0 := f], map[], 0, Idle, 1);
    Extend(s0, Then(r4, Flush), Store(0));
  }

  // ---------------------------------------------------------------- reloads that fail or come alone

  function FailedReloadRun(db': Db, user: User): Run {
    Then(Then(Then(Then(Then(Empty, ChangeDb(db')), TakeEvent), Reload(false)), Flush), Read(user, None))
  }

  /**
   After a failed reload the cache is flushed all the same and refilled from the old policy: the payload is stale
   exactly when the two policies make a difference to it.
   */
  lemma FailedReloadUsesOldPolicy(db: Db, db': Db, user: User)
    ensures ValidRun(Init(db), FailedReloadRun(db', user)) && StoresPrompt(Init(db), FailedReloadRun(db', user))
    ensures var s, c := Execute(Init(db), FailedReloadRun(db', user)),
                        Cached(Recompute(db', LoadPolicy(db), user, None), Origin(db', LoadPolicy(db)));
            && s == State(db', LoadPolicy(db), map[Key(user, None) := c], map[], map[], map[], 0, Idle, 1)
            && (PayloadsCurrent(s) <==>
                Recompute(db', LoadPolicy(db), user, None) == Recompute(db', LoadPolicy(db'), user, None))
  {
    var s0 := Init(db);
    var r1 := Then(Empty, ChangeDb(db'));
    var r2 := Then(r1, TakeEvent);
    var r3 := Then(r2, Reload(false));
    var r4 := Then(r3, Flush);
    Extend(s0, Empty, ChangeDb(db'));
    Extend(s0, r1, TakeEvent);
    assert Execute(s0, r2) == State(db', LoadPolicy(db), map[], map[], map[], map[], 0, Reloading, 0);
    Extend(s0, r2, Reload(false));
    Extend(s0, r3, Flush);
    assert Execute(s0, r4) == State(db', LoadPolicy(db), map[], map[], map[], map[], 0, Idle, 1);
    Extend(s0, r4, Read(user, None));
    assert StoresPrompt(s0, Empty) && StoresPrompt(s0, r1) && StoresPrompt(s0, r2);
    assert StoresPrompt(s0, r3) && StoresPrompt(s0, r4);
  }

  /** A notification or playbook update reloads the policy, successfully now, and flushes nothing. */
  function LateReloadRun(db': Db, user: User): Run {
    Then(FailedReloadRun(db', user), ReloadAlone(true))
  }

  /**
   Then the policy in memory is current again and the cached payload still is the one of the old policy, stale exactly
   when the two make a difference to it.
   */
  lemma LateReloadLeavesOldPayload(db: Db, db': Db, user: User)
    ensures ValidRun(Init(db), LateReloadRun(db', user)) && StoresPrompt(Init(db), LateReloadRun(db', user))
    ensures var s := Execute(Init(db), LateReloadRun(db', user));
            && Quiet(s) && s.db == db' && s.policy == LoadPolicy(db') && Key(user, None) in s.payloads
            && s.payloads[Key(user, None)].payload == Recompute(db', LoadPolicy(db), user, None)
            && (PayloadsCurrent(s) <==>
                Recompute(db', LoadPolicy(db), user, None) == Recompute(db', LoadPolicy(db'), user, None))
  {
    FailedReloadUsesOldPolicy(db, db', user);
    Extend(Init(db), FailedReloadRun(db', user), ReloadAlone(true));
  }

  /** So a user whom the change makes a guest without permissions keeps full access. */
  lemma LateReloadKeepsFullAccess(db: Db, db': Db, user: User)
    requires GUEST !in RolesFor(LoadPolicy(db), user)
    requires db'.permissions == [] && db'.roles == map[user := [GUEST]]
    ensures ValidRun(Init(db), LateReloadRun(db', user))
    ensures var s := Execute(Init(db), LateReloadRun(db', user));
            && s.db == db' && Key(user, None) in s.payloads && s.payloads[Key(user, None)].payload == DISABLED
    ensures Recompute(db', LoadPolicy(db'), user, None) == EMPTY
  {
    LateReloadLeavesOldPayload(db, db', user);
    NoGuestNoLimit(db', LoadPolicy(db), user);
    GuestWithoutRows(db', user);
  }

  lemma NoGuestNoLimit(db: Db, policy: Policy, user: User)
    requires GUEST !in RolesFor(policy, user)
    ensures Recompute(db, policy, user, None) == DISABLED
  {
  }

  lemma GuestWithoutRows(db: Db, user: User)
    requires db.permissions == [] && db.roles == map[user := [GUEST]]
    ensures Recompute(db, LoadPolicy(db), user, None) == EMPTY
  {
    assert RowsFor([], [user] + RolesFor(LoadPolicy(db), user)) == [];
  }
}

/** The imperative cache operations; each one performs a step of the machine. */
module RlsCacheStore {
  import opened Base
  import opened ScopeAlgebra
  import opened RlsPayload
  import opened RlsCache

  class Server {
    var db: Db
    var policy: Policy
    var payloads: map<Key, Cached>
    var jwts: map<JwtKey, Jwt>
    var pending: nat
    ghost var phase: Phase
    ghost var epoch: nat

    ghost function Abs(): State
      reads this
    {
      State(db, policy, payloads, jwts, map[], map[], pending, phase, epoch)
    }

    constructor (db: Db)
      ensures Abs() == Init(db)
    {
      this.db, policy, payloads, jwts := db, LoadPolicy(db), map[], map[];
      pending, phase, epoch := 0, Idle, 0;
    }

    /**
     The payload of a request.  With the feature off nothing is restricted and nothing is cached; a
     failing query returns an error and caches nothing.
     */
    method GetRLSPayload(enabled: bool, user: Option<User>, header: Option<Payload>, queriesFail: bool)
      returns (r: Option<Payload>)
      modifies this`payloads
      ensures !enabled ==> r == Some(DISABLED)
      ensures enabled && user.None? ==> r.None?
      ensures !enabled || user.None? ==> payloads == old(payloads)
      ensures enabled && user.Some? && Key(user.value, header) !in old(payloads) && queriesFail ==>
                r.None? && payloads == old(payloads)
      ensures enabled && user.Some? && (Key(user.value, header) in old(payloads) || !queriesFail) ==>
                && r == Some(ReadPayload(old(Abs()), user.value, header).1.payload)
                && Abs() == Apply(old(Abs()), Read(user.value, header))
      ensures enabled && user.Some? && Key(user.value, header) !in old(payloads) && !queriesFail ==>
                && r.Some? && DeservedUnder(db, policy, user.value, header, r.value)
                && (header.None? ==> Deserved(db, policy, user.value, r.value))
    {
      if !enabled {
        return Some(DISABLED);
      }
      if user.None? {
        return None;
      }
      var key := Key(user.value, header);
      if key in payloads {
        return Some(payloads[key].payload);
      }
      if queriesFail {
        return None;
      }
      OwnPayloadExists(db, policy, user.value);
      RecomputedIsDeserved(db, policy, user.value, header);
      var payload: Payload;
      var roles := RolesFor(policy, user.value);
      if GUEST !in roles {
        payload := DISABLED;
        if header.Some? {
          payload := ApplyImpersonation(payload, header);
        }
      } else {
        var built := Build(RowsFor(db.permissions, [user.value] + roles), ScopeTableOf(db));
        payload := built.value;
        if header.Some? {
          payload := ApplyImpersonation(payload, header);
        }
      }
      payloads := payloads[key := Cached(payload, Origin(db, policy))];
      return Some(payload);
    }

    /**
     The token of a session; it embeds the payload and is cached under session and user alone.  A payload that cannot
     be read, or a token that cannot be signed, is an error and caches no token.
     */
    method GetOrCreateJWTToken(enabled: bool, session: Session, user: User, header: Option<Payload>,
                               queriesFail: bool, signingFails: bool)
      returns (claims: Option<Payload>)
      modifies this`payloads, this`jwts
      ensures var key, before := JwtKey(session, user), old(Abs());
              var readable := !enabled || Key(user, header) in before.payloads || !queriesFail;
              && (key in before.jwts ==> claims == Some(before.jwts[key].claims) && Abs() == before)
              && (key !in before.jwts && !readable ==> claims.None? && Abs() == before)
              && (key !in before.jwts && readable ==>
                    && claims.Some? == !signingFails
                    && payloads == if enabled then ReadPayload(before, user, header).0.payloads else before.payloads)
              && (key !in before.jwts && readable && signingFails ==> jwts == before.jwts)
              && (key !in before.jwts && readable && !signingFails && enabled ==>
                    && Abs() == JwtAnswered(before, session, user, header) && key in jwts
                    && claims == Some(jwts[key].claims))
              && (key !in before.jwts && readable && !signingFails && !enabled ==>
                    claims == Some(DISABLED) && jwts == before.jwts[key := Jwt(DISABLED, header, InMemory(before))])
    {
      var key := JwtKey(session, user);
      if key in jwts {
        return Some(jwts[key].claims);
      }
      var payload := GetRLSPayload(enabled, Some(user), header, queriesFail);
      if payload.None? || signingFails {
        return None;
      }
      var origin := if enabled then payloads[Key(user, header)].origin else Origin(db, policy);
      jwts := jwts[key := Jwt(payload.value, header, origin)];
      return payload;
    }

    method FlushTokenCache()
      modifies this`payloads, this`jwts, this`epoch
      ensures Abs() == Apply(old(Abs()), FlushAlone)
      ensures payloads == map[] && jwts == map[]
    {
      payloads, jwts := map[], map[];
      epoch := epoch + 1;
    }

    method InvalidateRLSCacheForUser(user: User)
      modifies this`payloads
      ensures Abs() == Apply(old(Abs()), Evict(Key(user, None)))
      ensures Key(user, None) !in payloads
      ensures forall k :: k in old(payloads) && k != Key(user, None) ==>
                k in payloads && payloads[k] == old(payloads)[k]
    {
      payloads := payloads - {Key(user, None)};
    }

    /** Notification and playbook updates reload the policy and leave the caches alone. */
    method ReloadPolicyAlone(reloadOk: bool)
      requires phase.Idle?
      modifies this`policy
      ensures Abs() == Apply(old(Abs()), ReloadAlone(reloadOk))
      ensures policy == if reloadOk then db.roles else old(policy)
    {
      if reloadOk {
        policy := LoadPolicy(db);
      }
    }

    /** One turn of the event loop: reload, then flush even if the reload failed. */
    method HandlePolicyEvent(reloadOk: bool)
      requires phase.Idle? && pending > 0
      modifies this
      ensures ValidRun(old(Abs()), Then(Then(Then(Empty, TakeEvent), Reload(reloadOk)), Flush))
      ensures Abs() == Execute(old(Abs()), Then(Then(Then(Empty, TakeEvent), Reload(reloadOk)), Flush))
      ensures policy == (if reloadOk then db.roles else old(policy)) && payloads == map[] && jwts == map[]
      ensures pending == old(pending) - 1 && phase.Idle?
    {
      ghost var start := Abs();
      pending, phase := pending - 1, Reloading;
      assert Abs() == Execute(start, Then(Empty, TakeEvent));
      if reloadOk {
        policy := LoadPolicy(db);
      }
      phase := Flushing;
      assert Abs() == Execute(start, Then(Then(Empty, TakeEvent), Reload(reloadOk)));
      FlushTokenCache();
      phase := Idle;
    }
  }
}
