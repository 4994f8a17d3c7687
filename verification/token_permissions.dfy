/**
 Delegated permissions (auth/controllers.go, auth/tokens.go): an access token gets a person of its own, grouped under
 its creator and denied everything outside the requested scope. Deny overrides allow and grouping is transitive.
 */
module TokenPermissions {
  datatype Permission = Permission(
    subject: string, obj: string, action: string, deny: bool, condition: string, id: string)

  /** What is asked of the enforcer; `resource` stands for the attributes that conditions look at. */
  datatype Request = Request(obj: string, action: string, resource: string)

  datatype Rule = Rule(person: string, permission: Permission)

  datatype Policy = Policy(groups: set<(string, string)>, rules: set<Rule>)

  /** Which rules cover which requests is the enforcer's matcher, left open here. */
  type Matcher = (Permission, Request) -> bool

  // ---------------------------------------------------------------- what a policy means

  predicate Chain(groups: set<(string, string)>, chain: seq<string>) {
    forall k :: 0 <= k < |chain| - 1 ==> (chain[k], chain[k + 1]) in groups
  }

  predicate Links(groups: set<(string, string)>, chain: seq<string>, a: string, b: string) {
    |chain| > 0 && chain[0] == a && chain[|chain| - 1] == b && Chain(groups, chain)
  }

  ghost predicate Reaches(groups: set<(string, string)>, a: string, b: string) {
    exists chain :: Links(groups, chain, a, b)
  }

  ghost predicate Hit(policy: Policy, covers: Matcher, person: string, request: Request, deny: bool) {
    exists rule :: rule in policy.rules && rule.permission.deny == deny
                   && covers(rule.permission, request) && Reaches(policy.groups, person, rule.person)
  }

  ghost predicate Allowed(policy: Policy, covers: Matcher, person: string, request: Request) {
    Hit(policy, covers, person, request, false) && !Hit(policy, covers, person, request, true)
  }

  /** Nobody may do more under `after` than under `before`. */
  ghost predicate GrantsNothing(before: Policy, after: Policy, covers: Matcher) {
    forall person, request :: Allowed(after, covers, person, request) ==> Allowed(before, covers, person, request)
  }

  lemma ReachSelf(groups: set<(string, string)>, a: string)
    ensures Reaches(groups, a, a)
  {
    assert Links(groups, [a], a, a);
  }

  lemma ReachPrepend(groups: set<(string, string)>, a: string, b: string, c: string)
    requires (a, b) in groups && Reaches(groups, b, c)
    ensures Reaches(groups, a, c)
  {
    var chain :| Links(groups, chain, b, c);
    assert Links(groups, [a] + chain, a, c);
  }

  /** The first step of a chain. */
  lemma ReachSplit(groups: set<(string, string)>, a: string, c: string) returns (b: string)
    requires Reaches(groups, a, c) && a != c
    ensures (a, b) in groups && Reaches(groups, b, c)
  {
    var chain :| Links(groups, chain, a, c);
    b := chain[1];
    assert Links(groups, chain[1..], b, c);
  }

  lemma ReachMonotone(less: set<(string, string)>, more: set<(string, string)>, a: string, b: string)
    requires less <= more && Reaches(less, a, b)
    ensures Reaches(more, a, b)
  {
    var chain :| Links(less, chain, a, b);
    assert Links(more, chain, a, b);
  }

  /** Cutting every edge out of `t` breaks only chains through `t`. */
  lemma {:induction false} ReachAvoiding(groups: set<(string, string)>, t: string, chain: seq<string>, a: string,
        b: string)
    requires Links(groups, chain, a, b)
    ensures Reaches(Cut(groups, t), a, b) || Reaches(Cut(groups, t), a, t)
    decreases |chain|
  {
    var cut := Cut(groups, t);
    if a == t || |chain| == 1 {
      ReachSelf(cut, a);
    } else {
      ReachAvoiding(groups, t, chain[1..], chain[1], b);
      assert (a, chain[1]) in cut;
      if Reaches(cut, chain[1], b) { ReachPrepend(cut, a, chain[1], b); } else { ReachPrepend(cut, a, chain[1], t); }
    }
  }

  function Cut(groups: set<(string, string)>, t: string): set<(string, string)> {
    set edge | edge in groups && edge.0 != t
  }

  // ---------------------------------------------------------------- the requested scope

  function Blank(p: Permission): Permission {
    p.(subject := "")
  }

  /** The listed permissions that the scope leaves out, as deny rules. */
  function Outside(listed: seq<Permission>, scope: seq<Permission>): set<Permission> {
    set k | 0 <= k < |listed| && !InScope(scope, listed[k]) :: listed[k].(deny := true)
  }

  /** The scope names the permission, whatever subject it was sent with. */
  predicate InScope(scope: seq<Permission>, p: Permission) {
    exists k :: 0 <= k < |scope| && Blank(scope[k]) == p
  }

  /** Every object combined with every action, with no subject. */
  function AllPermissions(objects: seq<string>, actions: seq<string>): (all: seq<Permission>)
    ensures forall p :: p in all <==> p.obj in objects && p.action in actions && p == Listed(p.obj, p.action)
  {
    if objects == [] then []
    else AllPermissions(objects[..|objects| - 1], actions) + ForObject(objects[|objects| - 1], actions)
  }

  function Listed(obj: string, action: string): Permission {
    Permission("", obj, action, false, "", "")
  }

  function ForObject(obj: string, actions: seq<string>): (some: seq<Permission>)
    ensures forall p :: p in some <==> p.action in actions && p == Listed(obj, p.action)
  {
    if actions == [] then [] else ForObject(obj, actions[..|actions| - 1]) + [Listed(obj, actions[|actions| - 1])]
  }

  // ---------------------------------------------------------------- the machine

  datatype Stage = Person | Grouped | Done

  datatype Token = Token(creator: string, scope: seq<Permission>, born: nat, stage: Stage, deleting: bool)

  datatype State = State(policy: Policy, tokens: map<string, Token>)

  /**
   One enforcer call, or the creation of the token's person. Any number of creations and deletions interleave, and
   administrators edit everything except the token persons.
   */
  datatype Step =
    | Create(t: string, creator: string, scope: seq<Permission>)
    | Group(t: string)
    | Restrict(t: string)
    | CutRoles(t: string)
    | RolesFail(t: string)
    | CutRules(t: string)
    | Administer(policy: Policy)

  ghost predicate Mentions(policy: Policy, t: string) {
    || (exists edge :: edge in policy.groups && (edge.0 == t || edge.1 == t))
    || (exists rule :: rule in policy.rules && rule.person == t)
  }

  /** An edit that leaves the token persons alone. */
  ghost predicate LeavesTokensAlone(s: State, policy: Policy) {
    && (forall edge: (string, string) :: edge.0 in s.tokens || edge.1 in s.tokens ==>
          (edge in policy.groups <==> edge in s.policy.groups))
    && (forall rule: Rule :: rule.person in s.tokens ==> (rule in policy.rules <==> rule in s.policy.rules))
  }

  ghost predicate Enabled(s: State, step: Step) {
    match step
    case Create(t, creator, _) =>
      t !in s.tokens && t != creator && !Mentions(s.policy, t) && forall u :: u in s.tokens ==> s.tokens[u].creator != t
    case Group(t) => t in s.tokens && s.tokens[t].stage == Person
    case Restrict(t) => t in s.tokens && s.tokens[t].stage == Grouped
    case CutRoles(t) => t in s.tokens
    case RolesFail(t) => t in s.tokens
    case CutRules(t) => t in s.tokens && s.tokens[t].deleting
    case Administer(policy) => LeavesTokensAlone(s, policy)
  }

  function AddGroup(policy: Policy, t: string, creator: string): Policy {
    policy.(groups := policy.groups + {(t, creator)})
  }

  function AddRules(policy: Policy, t: string, permissions: set<Permission>): Policy {
    policy.(rules := policy.rules + set p | p in permissions :: Rule(t, p))
  }

  function WithoutRoles(policy: Policy, t: string): Policy {
    policy.(groups := Cut(policy.groups, t))
  }

  function WithoutRules(policy: Policy, t: string): Policy {
    policy.(rules := set rule | rule in policy.rules && rule.person != t)
  }

  ghost function Next(s: State, listed: seq<Permission>, step: Step): State
    requires Enabled(s, step)
  {
    match step
    case Create(t, creator, scope) => s.(tokens := s.tokens[t := Token(creator, scope, |s.tokens|, Person, false)])
    case Group(t) =>
      State(AddGroup(s.policy, t, s.tokens[t].creator),
            s.tokens[t := s.tokens[t].(stage := if s.tokens[t].scope == [] then Done else Grouped)])
    case Restrict(t) =>
      State(AddRules(s.policy, t, Outside(listed, s.tokens[t].scope)), s.tokens[t := s.tokens[t].(stage := Done)])
    case CutRoles(t) => State(WithoutRoles(s.policy, t), s.tokens[t := s.tokens[t].(deleting := true)])
    case RolesFail(t) => s.(tokens := s.tokens[t := s.tokens[t].(deleting := true)])
    case CutRules(t) => s.(policy := WithoutRules(s.policy, t))
    case Administer(policy) => s.(policy := policy)
  }

  datatype Run = Start(policy: Policy) | Then(before: Run, step: Step)

  ghost predicate ValidRun(run: Run, listed: seq<Permission>)
    decreases run, 0
  {
    run.Then? ==> ValidRun(run.before, listed) && Enabled(After(run.before, listed), run.step)
  }

  ghost function After(run: Run, listed: seq<Permission>): State
    requires ValidRun(run, listed)
    decreases run, 1
  {
    match run
    case Start(policy) => State(policy, map[])
    case Then(before, step) => Next(After(before, listed), listed, step)
  }

  // ---------------------------------------------------------------- what every run keeps

  ghost predicate EdgesOk(s: State) {
    forall edge :: edge in s.policy.groups ==>
      && (edge.0 in s.tokens ==> edge.1 == s.tokens[edge.0].creator)
      && (edge.1 in s.tokens ==> edge.0 in s.tokens)
  }

  ghost predicate RulesOk(s: State, listed: seq<Permission>) {
    forall rule: Rule :: rule in s.policy.rules && rule.person in s.tokens ==>
      rule.permission in Outside(listed, s.tokens[rule.person].scope) && s.tokens[rule.person].scope != []
  }

  ghost predicate BornOk(s: State) {
    forall t :: t in s.tokens ==>
      && s.tokens[t].born < |s.tokens|
      && (s.tokens[t].stage == Grouped ==> s.tokens[t].scope != [])
      && (s.tokens[t].creator in s.tokens ==> s.tokens[s.tokens[t].creator].born < s.tokens[t].born)
  }

  /** A token that was completely set up and is not being deleted. */
  ghost predicate Live(s: State, t: string) {
    t in s.tokens && s.tokens[t].stage == Done && !s.tokens[t].deleting
  }

  ghost predicate Restricted(s: State, listed: seq<Permission>, t: string)
    requires t in s.tokens
  {
    s.tokens[t].scope != [] ==> forall p :: p in Outside(listed, s.tokens[t].scope) ==> Rule(t, p) in s.policy.rules
  }

  ghost predicate StagesOk(s: State, listed: seq<Permission>) {
    forall t :: t in s.tokens && !s.tokens[t].deleting ==>
      && (s.tokens[t].stage != Person ==> (t, s.tokens[t].creator) in s.policy.groups)
      && (s.tokens[t].stage == Done ==> Restricted(s, listed, t))
  }

  ghost predicate Inv(s: State, listed: seq<Permission>) {
    EdgesOk(s) && RulesOk(s, listed) && BornOk(s) && StagesOk(s, listed)
  }

  lemma StagesKept(s: State, listed: seq<Permission>, step: Step)
    requires Inv(s, listed) && Enabled(s, step)
    ensures StagesOk(Next(s, listed, step), listed)
  {
    var s' := Next(s, listed, step);
    forall t | t in s'.tokens && !s'.tokens[t].deleting
      ensures s'.tokens[t].stage != Person ==> (t, s'.tokens[t].creator) in s'.policy.groups
      ensures s'.tokens[t].stage == Done ==> Restricted(s', listed, t)
    {
      if t in s.tokens { StageKept(s, listed, step, t); }
    }
  }

  lemma StageKept(s: State, listed: seq<Permission>, step: Step, t: string)
    requires Inv(s, listed) && Enabled(s, step) && t in s.tokens
    requires !Next(s, listed, step).tokens[t].deleting
    ensures var s' := Next(s, listed, step);
            && (s'.tokens[t].stage != Person ==> (t, s'.tokens[t].creator) in s'.policy.groups)
            && (s'.tokens[t].stage == Done ==> Restricted(s', listed, t))
  {
    var s' := Next(s, listed, step);
    if s'.tokens[t].stage == Done && s'.tokens[t].scope != [] {
      forall p | p in Outside(listed, s'.tokens[t].scope) ensures Rule(t, p) in s'.policy.rules {
        if s.tokens[t].stage == Done { assert Rule(t, p) in s.policy.rules; }
      }
    }
  }

  lemma StepKeepsInv(s: State, listed: seq<Permission>, step: Step)
    requires Inv(s, listed) && Enabled(s, step)
    ensures Inv(Next(s, listed, step), listed)
  {
    EdgesKept(s, listed, step);
    RulesKept(s, listed, step);
    BornKept(s, listed, step);
    StagesKept(s, listed, step);
  }

  lemma EdgesKept(s: State, listed: seq<Permission>, step: Step)
    requires EdgesOk(s) && BornOk(s) && Enabled(s, step)
    ensures EdgesOk(Next(s, listed, step))
  {
  }

  lemma RulesKept(s: State, listed: seq<Permission>, step: Step)
    requires RulesOk(s, listed) && BornOk(s) && Enabled(s, step)
    ensures RulesOk(Next(s, listed, step), listed)
  {
  }

  lemma BornKept(s: State, listed: seq<Permission>, step: Step)
    requires BornOk(s) && Enabled(s, step)
    ensures BornOk(Next(s, listed, step))
  {
    if step.Create? { BirthKept(s, step.t, step.creator, step.scope); }
  }

  lemma BirthKept(s: State, t: string, creator: string, scope: seq<Permission>)
    requires BornOk(s) && Enabled(s, Create(t, creator, scope))
    ensures BornOk(s.(tokens := s.tokens[t := Token(creator, scope, |s.tokens|, Person, false)]))
  {
  }

  lemma {:induction false} RunKeepsInv(run: Run, listed: seq<Permission>)
    requires ValidRun(run, listed)
    ensures Inv(After(run, listed), listed)
  {
    if run.Then? {
      RunKeepsInv(run.before, listed);
      StepKeepsInv(After(run.before, listed), listed, run.step);
    }
  }

  // ---------------------------------------------------------------- reaching and being reached by tokens

  /** From a token the only way leads to itself or through its creator. */
  lemma FromToken(s: State, listed: seq<Permission>, t: string, b: string)
    requires Inv(s, listed) && t in s.tokens
    ensures Reaches(s.policy.groups, t, b) <==>
            t == b || ((t, s.tokens[t].creator) in s.policy.groups && Reaches(s.policy.groups, s.tokens[t].creator, b))
  {
    if t == b {
      ReachSelf(s.policy.groups, t);
    } else if Reaches(s.policy.groups, t, b) {
      var next := ReachSplit(s.policy.groups, t, b);
    } else if (t, s.tokens[t].creator) in s.policy.groups && Reaches(s.policy.groups, s.tokens[t].creator, b) {
      ReachPrepend(s.policy.groups, t, s.tokens[t].creator, b);
    }
  }

  /** Only tokens born later reach a token. */
  lemma {:induction false} IntoToken(s: State, listed: seq<Permission>, chain: seq<string>, a: string, t: string)
    requires Inv(s, listed) && t in s.tokens && Links(s.policy.groups, chain, a, t)
    ensures a in s.tokens && (a == t || s.tokens[a].born > s.tokens[t].born)
    decreases |chain|
  {
    if |chain| > 1 {
      assert (a, chain[1]) in s.policy.groups;
      IntoToken(s, listed, chain[1..], chain[1], t);
    }
  }

  lemma ReachIntoToken(s: State, listed: seq<Permission>, a: string, t: string)
    requires Inv(s, listed) && t in s.tokens && Reaches(s.policy.groups, a, t)
    ensures a in s.tokens && (a == t || s.tokens[a].born > s.tokens[t].born)
  {
    var chain :| Links(s.policy.groups, chain, a, t);
    IntoToken(s, listed, chain, a, t);
  }

  /** What a person who reaches a token can reach: other tokens, or what the token reaches. */
  lemma {:induction false} ThroughToken(
      s: State, listed: seq<Permission>, chain: seq<string>, a: string, t: string, b: string)
    requires Inv(s, listed) && t in s.tokens && Links(s.policy.groups, chain, a, t) && Reaches(s.policy.groups, a, b)
    ensures b in s.tokens || Reaches(s.policy.groups, t, b)
    decreases |chain|
  {
    IntoToken(s, listed, chain, a, t);
    if |chain| > 1 && a != b {
      FromToken(s, listed, a, b);
      assert (a, chain[1]) in s.policy.groups;
      ThroughToken(s, listed, chain[1..], chain[1], t, b);
    }
  }

  /** Token persons carry deny rules only. */
  lemma TokenRulesDeny(s: State, listed: seq<Permission>, rule: Rule)
    requires Inv(s, listed) && rule in s.policy.rules
    ensures rule.person in s.tokens ==> rule.permission.deny
  {
  }

  /** An allow rule that a follower of a token relies on is also reached from the token's creator. */
  lemma AllowComesFromCreator(s: State, listed: seq<Permission>, a: string, t: string, rule: Rule)
    requires Inv(s, listed) && t in s.tokens && Reaches(s.policy.groups, a, t)
    requires rule in s.policy.rules && !rule.permission.deny && Reaches(s.policy.groups, a, rule.person)
    ensures (t, s.tokens[t].creator) in s.policy.groups && Reaches(s.policy.groups, s.tokens[t].creator, rule.person)
  {
    var chain :| Links(s.policy.groups, chain, a, t);
    ThroughToken(s, listed, chain, a, t, rule.person);
    TokenRulesDeny(s, listed, rule);
    FromToken(s, listed, t, rule.person);
  }

  // ---------------------------------------------------------------- delegation

  lemma DenyPassesDown(s: State, listed: seq<Permission>, covers: Matcher, t: string, request: Request)
    requires Inv(s, listed) && t in s.tokens && (t, s.tokens[t].creator) in s.policy.groups
    requires Hit(s.policy, covers, s.tokens[t].creator, request, true)
    ensures Hit(s.policy, covers, t, request, true)
  {
    var rule :| rule in s.policy.rules && rule.permission.deny && covers(rule.permission, request)
                && Reaches(s.policy.groups, s.tokens[t].creator, rule.person);
    ReachPrepend(s.policy.groups, t, s.tokens[t].creator, rule.person);
  }

  /**
   At every moment of every run, half-made and half-deleted tokens included, a token may do nothing that its creator
   may not do.
   */
  lemma TokensNeverExceedCreators(run: Run, listed: seq<Permission>, covers: Matcher, t: string, request: Request)
    requires ValidRun(run, listed) && t in After(run, listed).tokens
    ensures var s := After(run, listed);
            Allowed(s.policy, covers, t, request) ==> Allowed(s.policy, covers, s.tokens[t].creator, request)
  {
    RunKeepsInv(run, listed);
    var s := After(run, listed);
    if Allowed(s.policy, covers, t, request) {
      WithinCreator(s, listed, covers, t, request);
    }
  }

  lemma WithinCreator(s: State, listed: seq<Permission>, covers: Matcher, t: string, request: Request)
    requires Inv(s, listed) && t in s.tokens && Allowed(s.policy, covers, t, request)
    ensures (t, s.tokens[t].creator) in s.policy.groups && Allowed(s.policy, covers, s.tokens[t].creator, request)
  {
    var rule :| rule in s.policy.rules && !rule.permission.deny && covers(rule.permission, request)
                && Reaches(s.policy.groups, t, rule.person);
    ReachSelf(s.policy.groups, t);
    AllowComesFromCreator(s, listed, t, t, rule);
    if Hit(s.policy, covers, s.tokens[t].creator, request, true) { DenyPassesDown(s, listed, covers, t, request); }
  }

  /** The listed permissions outside the scope leave the request alone. */
  ghost predicate ScopeAdmits(listed: seq<Permission>, covers: Matcher, scope: seq<Permission>, request: Request) {
    scope == [] || forall k :: 0 <= k < |listed| && covers(listed[k].(deny := true), request) ==>
        InScope(scope, listed[k])
  }

  /** A live token may do exactly what its creator may do and its scope admits. */
  lemma LiveTokensExact(run: Run, listed: seq<Permission>, covers: Matcher, t: string, request: Request)
    requires ValidRun(run, listed) && Live(After(run, listed), t)
    ensures var s := After(run, listed);
            Allowed(s.policy, covers, t, request) <==>
            Allowed(s.policy, covers, s.tokens[t].creator, request)
            && ScopeAdmits(listed, covers, s.tokens[t].scope, request)
  {
    RunKeepsInv(run, listed);
    var s := After(run, listed);
    if Allowed(s.policy, covers, t, request) {
      WithinCreator(s, listed, covers, t, request);
    }
    if !ScopeAdmits(listed, covers, s.tokens[t].scope, request) {
      ScopeWithholds(s, listed, covers, t, request);
    }
    if Allowed(s.policy, covers, s.tokens[t].creator, request)
       && ScopeAdmits(listed, covers, s.tokens[t].scope, request) {
      AdmittedIsAllowed(s, listed, covers, t, request);
    }
  }

  lemma ScopeWithholds(s: State, listed: seq<Permission>, covers: Matcher, t: string, request: Request)
    requires Inv(s, listed) && Live(s, t) && !ScopeAdmits(listed, covers, s.tokens[t].scope, request)
    ensures Hit(s.policy, covers, t, request, true)
  {
    ReachSelf(s.policy.groups, t);
    var k :| 0 <= k < |listed| && covers(listed[k].(deny := true), request) && !InScope(s.tokens[t].scope, listed[k]);
    assert listed[k].(deny := true) in Outside(listed, s.tokens[t].scope);
    assert Rule(t, listed[k].(deny := true)) in s.policy.rules;
  }

  lemma AdmittedIsAllowed(s: State, listed: seq<Permission>, covers: Matcher, t: string, request: Request)
    requires Inv(s, listed) && Live(s, t) && Allowed(s.policy, covers, s.tokens[t].creator, request)
    requires ScopeAdmits(listed, covers, s.tokens[t].scope, request)
    ensures Allowed(s.policy, covers, t, request)
  {
    var rule :| rule in s.policy.rules && !rule.permission.deny && covers(rule.permission, request)
                && Reaches(s.policy.groups, s.tokens[t].creator, rule.person);
    ReachPrepend(s.policy.groups, t, s.tokens[t].creator, rule.person);
    forall rule | rule in s.policy.rules && rule.permission.deny && Reaches(s.policy.groups, t, rule.person)
      ensures !covers(rule.permission, request)
    {
      FromToken(s, listed, t, rule.person);
    }
  }

  /**
   A listed permission that no other listed permission covers is allowed to a live token exactly when its creator has
   it and the scope names it.
   */
  lemma ListedPermissionExact(run: Run, listed: seq<Permission>, covers: Matcher, t: string, k: nat, request: Request)
    requires ValidRun(run, listed) && Live(After(run, listed), t) && k < |listed|
    requires forall j :: 0 <= j < |listed| ==> (covers(listed[j].(deny := true), request) <==> listed[j] == listed[k])
    ensures var s := After(run, listed);
            Allowed(s.policy, covers, t, request) <==>
            Allowed(s.policy, covers, s.tokens[t].creator, request)
            && (s.tokens[t].scope == [] || InScope(s.tokens[t].scope, listed[k]))
  {
    LiveTokensExact(run, listed, covers, t, request);
  }

  // ---------------------------------------------------------------- deletion

  /** Once its grouping is gone, neither the token nor any token made from it may do anything. */
  lemma CutTokensAreDead(run: Run, listed: seq<Permission>, covers: Matcher, t: string, person: string,
        request: Request)
    requires ValidRun(run, listed) && t in After(run, listed).tokens
    requires (t, After(run, listed).tokens[t].creator) !in After(run, listed).policy.groups
    requires Reaches(After(run, listed).policy.groups, person, t)
    ensures !Allowed(After(run, listed).policy, covers, person, request)
  {
    RunKeepsInv(run, listed);
    var s := After(run, listed);
    if Allowed(s.policy, covers, person, request) {
      var rule :| rule in s.policy.rules && !rule.permission.deny && covers(rule.permission, request)
                  && Reaches(s.policy.groups, person, rule.person);
      AllowComesFromCreator(s, listed, person, t, rule);
      assert false;
    }
  }

  lemma CutRolesGrantsNothing(s: State, listed: seq<Permission>, covers: Matcher, t: string)
    requires Inv(s, listed) && t in s.tokens
    ensures GrantsNothing(s.policy, WithoutRoles(s.policy, t), covers)
  {
    var after := Next(s, listed, CutRoles(t));
    StepKeepsInv(s, listed, CutRoles(t));
    forall person, request | Allowed(after.policy, covers, person, request)
      ensures Allowed(s.policy, covers, person, request)
    {
      var rule :| rule in after.policy.rules && !rule.permission.deny && covers(rule.permission, request)
                  && Reaches(after.policy.groups, person, rule.person);
      if Reaches(after.policy.groups, person, t) {
        AllowComesFromCreator(after, listed, person, t, rule);
      } else {
        CutKeepsOthers(s.policy, covers, t, person, request);
      }
    }
  }

  lemma CutKeepsOthers(policy: Policy, covers: Matcher, t: string, person: string, request: Request)
    requires !Reaches(Cut(policy.groups, t), person, t) && Allowed(WithoutRoles(policy, t), covers, person, request)
    ensures Allowed(policy, covers, person, request)
  {
    var allow :| allow in policy.rules && !allow.permission.deny && covers(allow.permission, request)
                 && Reaches(Cut(policy.groups, t), person, allow.person);
    ReachMonotone(Cut(policy.groups, t), policy.groups, person, allow.person);
    forall rule | rule in policy.rules && rule.permission.deny && Reaches(policy.groups, person, rule.person)
      ensures !covers(rule.permission, request)
    {
      var chain :| Links(policy.groups, chain, person, rule.person);
      ReachAvoiding(policy.groups, t, chain, person, rule.person);
    }
  }

  ghost predicate OwnDeny(policy: Policy, covers: Matcher, t: string, request: Request) {
    exists rule :: rule in policy.rules && rule.person == t && rule.permission.deny && covers(rule.permission, request)
  }

  /** Who gains when the rules of a token go: only someone held back by those rules alone. */
  lemma GainNeedsOwnDeny(s: State, listed: seq<Permission>, covers: Matcher, t: string, person: string,
        request: Request)
    requires Inv(s, listed) && t in s.tokens
    requires Allowed(WithoutRules(s.policy, t), covers, person, request) && !Allowed(s.policy, covers, person, request)
    ensures (t, s.tokens[t].creator) in s.policy.groups
    ensures Allowed(s.policy, covers, s.tokens[t].creator, request) && OwnDeny(s.policy, covers, t, request)
  {
    var allow :| allow in WithoutRules(s.policy, t).rules && !allow.permission.deny && covers(allow.permission, request)
                 && Reaches(s.policy.groups, person, allow.person);
    var deny :| deny in s.policy.rules && deny.permission.deny && covers(deny.permission, request)
                && Reaches(s.policy.groups, person, deny.person);
    assert deny.person == t;
    AllowComesFromCreator(s, listed, person, t, allow);
    if Hit(s.policy, covers, s.tokens[t].creator, request, true) {
      CreatorDenyStays(s, listed, covers, t, person, request);
    }
  }

  /** A denial that comes from the creator outlives the token's own rules. */
  lemma CreatorDenyStays(s: State, listed: seq<Permission>, covers: Matcher, t: string, person: string,
        request: Request)
    requires Inv(s, listed) && t in s.tokens && (t, s.tokens[t].creator) in s.policy.groups
    requires Reaches(s.policy.groups, person, t) && Hit(s.policy, covers, s.tokens[t].creator, request, true)
    ensures Hit(WithoutRules(s.policy, t), covers, person, request, true)
  {
    var rule :| rule in s.policy.rules && rule.permission.deny && covers(rule.permission, request)
                && Reaches(s.policy.groups, s.tokens[t].creator, rule.person);
    CreatorAboveToken(s, listed, t);
    ReachPrepend(s.policy.groups, t, s.tokens[t].creator, rule.person);
    ReachTransitive(s.policy.groups, person, t, rule.person);
    assert rule in WithoutRules(s.policy, t).rules;
  }

  lemma CreatorAboveToken(s: State, listed: seq<Permission>, t: string)
    requires Inv(s, listed) && t in s.tokens
    ensures !Reaches(s.policy.groups, s.tokens[t].creator, t)
  {
    if Reaches(s.policy.groups, s.tokens[t].creator, t) {
      ReachIntoToken(s, listed, s.tokens[t].creator, t);
    }
  }

  lemma ReachTransitive(groups: set<(string, string)>, a: string, b: string, c: string)
    requires Reaches(groups, a, b) && Reaches(groups, b, c)
    ensures Reaches(groups, a, c)
  {
    var first :| Links(groups, first, a, b);
    var second :| Links(groups, second, b, c);
    assert Links(groups, first + second[1..], a, c);
  }

  /** Removing the rules of a token that is still grouped gives the token back whatever only its scope withheld. */
  lemma OwnDenyIsGained(s: State, listed: seq<Permission>, covers: Matcher, t: string, request: Request)
    requires Inv(s, listed) && t in s.tokens && (t, s.tokens[t].creator) in s.policy.groups
    requires Allowed(s.policy, covers, s.tokens[t].creator, request) && OwnDeny(s.policy, covers, t, request)
    ensures Allowed(WithoutRules(s.policy, t), covers, t, request) && !Allowed(s.policy, covers, t, request)
  {
    var after := WithoutRules(s.policy, t);
    ReachSelf(s.policy.groups, t);
    var allow :| allow in s.policy.rules && !allow.permission.deny && covers(allow.permission, request)
                 && Reaches(s.policy.groups, s.tokens[t].creator, allow.person);
    TokenRulesDeny(s, listed, allow);
    ReachPrepend(s.policy.groups, t, s.tokens[t].creator, allow.person);
    assert allow in after.rules;
    forall rule | rule in after.rules && rule.permission.deny && Reaches(after.groups, t, rule.person)
      ensures !covers(rule.permission, request)
    {
      FromToken(s, listed, t, rule.person);
    }
  }

  /** Of two persons that a token reaches, one being a token, one reaches the other. */
  lemma {:induction false} ReachIsLinear(
      s: State, listed: seq<Permission>, chain: seq<string>, a: string, t: string, b: string)
    requires Inv(s, listed) && t in s.tokens && Links(s.policy.groups, chain, a, t) && Reaches(s.policy.groups, a, b)
    ensures Reaches(s.policy.groups, t, b) || Reaches(s.policy.groups, b, t)
    decreases |chain|
  {
    IntoToken(s, listed, chain, a, t);
    if a == b {
      assert Reaches(s.policy.groups, a, t);
    } else if |chain| > 1 {
      FromToken(s, listed, a, b);
      assert (a, chain[1]) in s.policy.groups;
      ReachIsLinear(s, listed, chain[1..], chain[1], t, b);
    }
  }

  /** No other token between the person and `t` withholds the request. */
  ghost predicate NoneBetweenDenies(policy: Policy, covers: Matcher, person: string, t: string, request: Request) {
    forall u :: u != t && Reaches(policy.groups, person, u) && Reaches(policy.groups, u, t) ==>
                  !OwnDeny(policy, covers, u, request)
  }

  /** What still denies a follower once the rules of `t` are gone: a token in between, or what denies the creator. */
  lemma RemainingDenial(s: State, listed: seq<Permission>, covers: Matcher, t: string, person: string, request: Request)
    requires Inv(s, listed) && t in s.tokens && Reaches(s.policy.groups, person, t)
    requires (t, s.tokens[t].creator) in s.policy.groups && Allowed(s.policy, covers, s.tokens[t].creator, request)
    requires Hit(WithoutRules(s.policy, t), covers, person, request, true)
    ensures !NoneBetweenDenies(s.policy, covers, person, t, request)
  {
    var rule :| rule in WithoutRules(s.policy, t).rules && rule.permission.deny && covers(rule.permission, request)
                && Reaches(s.policy.groups, person, rule.person);
    var chain :| Links(s.policy.groups, chain, person, t);
    ReachIsLinear(s, listed, chain, person, t, rule.person);
    FromToken(s, listed, t, rule.person);
    assert OwnDeny(s.policy, covers, rule.person, request);
  }

  lemma DenialInBetween(s: State, covers: Matcher, t: string, person: string, request: Request)
    requires !NoneBetweenDenies(s.policy, covers, person, t, request)
    ensures Hit(WithoutRules(s.policy, t), covers, person, request, true)
  {
    var u :| u != t && Reaches(s.policy.groups, person, u) && Reaches(s.policy.groups, u, t)
             && OwnDeny(s.policy, covers, u, request);
    var rule :| rule in s.policy.rules && rule.person == u && rule.permission.deny && covers(rule.permission, request);
    assert rule in WithoutRules(s.policy, t).rules;
  }

  /** The creator's allow rule reaches every follower of the token, with or without the token's rules. */
  lemma FollowersInheritAllow(
      s: State, listed: seq<Permission>, covers: Matcher, t: string, person: string, request: Request)
    requires Inv(s, listed) && t in s.tokens && Reaches(s.policy.groups, person, t)
    requires (t, s.tokens[t].creator) in s.policy.groups && Allowed(s.policy, covers, s.tokens[t].creator, request)
    ensures Hit(WithoutRules(s.policy, t), covers, person, request, false)
  {
    var allow :| allow in s.policy.rules && !allow.permission.deny && covers(allow.permission, request)
                 && Reaches(s.policy.groups, s.tokens[t].creator, allow.person);
    TokenRulesDeny(s, listed, allow);
    ReachPrepend(s.policy.groups, t, s.tokens[t].creator, allow.person);
    ReachTransitive(s.policy.groups, person, t, allow.person);
    assert allow in WithoutRules(s.policy, t).rules;
  }

  /** The person gains the request when the rules of `t` are removed. */
  ghost predicate Gains(policy: Policy, covers: Matcher, t: string, person: string, request: Request) {
    Allowed(WithoutRules(policy, t), covers, person, request) && !Allowed(policy, covers, person, request)
  }

  /**
   Who gains what when the rules of a token go while its roles stay: the token and those made from it, whatever its
   creator may do, the token's own rules withheld, and no other token in between withholds.
   */
  lemma GainsExactly(run: Run, listed: seq<Permission>, covers: Matcher, t: string, person: string, request: Request)
    requires ValidRun(run, listed) && t in After(run, listed).tokens
    ensures var s := After(run, listed);
            Gains(s.policy, covers, t, person, request) <==>
            && (t, s.tokens[t].creator) in s.policy.groups && Reaches(s.policy.groups, person, t)
            && Allowed(s.policy, covers, s.tokens[t].creator, request) && OwnDeny(s.policy, covers, t, request)
            && NoneBetweenDenies(s.policy, covers, person, t, request)
  {
    RunKeepsInv(run, listed);
    var s := After(run, listed);
    if Gains(s.policy, covers, t, person, request) {
      GainNeedsOwnDeny(s, listed, covers, t, person, request);
      GainerFollows(s, covers, t, person, request);
      if !NoneBetweenDenies(s.policy, covers, person, t, request) { DenialInBetween(s, covers, t, person, request); }
    }
    if && (t, s.tokens[t].creator) in s.policy.groups && Reaches(s.policy.groups, person, t)
       && Allowed(s.policy, covers, s.tokens[t].creator, request) && OwnDeny(s.policy, covers, t, request)
       && NoneBetweenDenies(s.policy, covers, person, t, request)
    {
      FollowersInheritAllow(s, listed, covers, t, person, request);
      if Hit(WithoutRules(s.policy, t), covers, person, request, true) {
        RemainingDenial(s, listed, covers, t, person, request);
      }
      OwnDenyHits(s.policy, covers, t, person, request);
    }
  }

  lemma GainerFollows(s: State, covers: Matcher, t: string, person: string, request: Request)
    requires Gains(s.policy, covers, t, person, request)
    ensures Reaches(s.policy.groups, person, t)
  {
    if !Hit(s.policy, covers, person, request, true) {
      AllowOutlives(s, covers, t, person, request);
    }
    var deny :| deny in s.policy.rules && deny.permission.deny && covers(deny.permission, request)
                && Reaches(s.policy.groups, person, deny.person);
    assert deny.person != t ==> deny in WithoutRules(s.policy, t).rules;
  }

  lemma AllowOutlives(s: State, covers: Matcher, t: string, person: string, request: Request)
    requires Hit(WithoutRules(s.policy, t), covers, person, request, false)
    ensures Hit(s.policy, covers, person, request, false)
  {
  }

  lemma OwnDenyHits(policy: Policy, covers: Matcher, t: string, person: string, request: Request)
    requires OwnDeny(policy, covers, t, request) && Reaches(policy.groups, person, t)
    ensures Hit(policy, covers, person, request, true)
  {
  }

  /**
   Deleting a token removes its roles and then its rules. The first call never grants anybody anything. The second
   grants nothing exactly when the roles are gone, or when the rules withheld nothing that the creator has.
   */
  lemma DeletionGrantsNothingIff(run: Run, listed: seq<Permission>, covers: Matcher, t: string)
    requires ValidRun(run, listed) && t in After(run, listed).tokens
    ensures var s := After(run, listed);
            && GrantsNothing(s.policy, WithoutRoles(s.policy, t), covers)
            && GrantsNothing(WithoutRoles(s.policy, t), WithoutRules(WithoutRoles(s.policy, t), t), covers)
            && (GrantsNothing(s.policy, WithoutRules(s.policy, t), covers) <==>
                (t, s.tokens[t].creator) !in s.policy.groups
                || forall request :: Allowed(s.policy, covers, s.tokens[t].creator, request) ==>
                                       !OwnDeny(s.policy, covers, t, request))
  {
    RunKeepsInv(run, listed);
    var s := After(run, listed);
    CutRolesGrantsNothing(s, listed, covers, t);
    var cut := Next(s, listed, CutRoles(t));
    StepKeepsInv(s, listed, CutRoles(t));
    CutRulesGrantsNothingIff(cut, listed, covers, t);
    CutRulesGrantsNothingIff(s, listed, covers, t);
  }

  lemma CutRulesGrantsNothingIff(s: State, listed: seq<Permission>, covers: Matcher, t: string)
    requires Inv(s, listed) && t in s.tokens
    ensures GrantsNothing(s.policy, WithoutRules(s.policy, t), covers) <==>
            (t, s.tokens[t].creator) !in s.policy.groups
            || forall request :: Allowed(s.policy, covers, s.tokens[t].creator, request) ==>
                                   !OwnDeny(s.policy, covers, t, request)
  {
    if !GrantsNothing(s.policy, WithoutRules(s.policy, t), covers) {
      var person, request :| Allowed(WithoutRules(s.policy, t), covers, person, request)
                             && !Allowed(s.policy, covers, person, request);
      GainNeedsOwnDeny(s, listed, covers, t, person, request);
    }
    if (t, s.tokens[t].creator) in s.policy.groups {
      forall request | Allowed(s.policy, covers, s.tokens[t].creator, request) && OwnDeny(s.policy, covers, t, request)
        ensures !GrantsNothing(s.policy, WithoutRules(s.policy, t), covers)
      {
        OwnDenyIsGained(s, listed, covers, t, request);
      }
    }
  }

  // ---------------------------------------------------------------- tokens made by tokens

  /** The person at the end of the chain of creators. */
  ghost function Origin(s: State, person: string): string
    requires BornOk(s)
    decreases if person in s.tokens then s.tokens[person].born + 1 else 0
  {
    if person in s.tokens then Origin(s, s.tokens[person].creator) else person
  }

  /** However many tokens lie between, a token never exceeds the person at the origin of its chain. */
  lemma {:induction false} TokensNeverExceedOrigin(
      s: State, listed: seq<Permission>, covers: Matcher, t: string, request: Request)
    requires Inv(s, listed) && Allowed(s.policy, covers, t, request)
    ensures Allowed(s.policy, covers, Origin(s, t), request)
    decreases if t in s.tokens then s.tokens[t].born + 1 else 0
  {
    if t in s.tokens {
      WithinCreator(s, listed, covers, t, request);
      TokensNeverExceedOrigin(s, listed, covers, s.tokens[t].creator, request);
    }
  }

  // ---------------------------------------------------------------- a failed role removal

  const READ := Listed("catalog", "read")
  const UPDATE := Listed("catalog", "update")

  predicate Literal(p: Permission, request: Request) {
    p.obj == request.obj && p.action == request.action
  }

  /** A read-only token of a user who may also update; its roles cannot be removed. */
  ghost function FailedDeletion(): Run {
    Then(Then(GroupedRun(), Restrict("token")), RolesFail("token"))
  }

  ghost function GroupedRun(): Run {
    var start := Start(Policy({}, {Rule("user", READ), Rule("user", UPDATE)}));
    Then(Then(start, Create("token", "user", [READ])), Group("token"))
  }

  /** The failure is logged only, and removing the rules next turns the read-only token into a full one. */
  lemma FailedRoleRemovalEscalates()
    ensures var listed, run := [READ, UPDATE], FailedDeletion();
            && ValidRun(run, listed) && Enabled(After(run, listed), CutRules("token"))
            && !Allowed(After(run, listed).policy, Literal, "token", Request("catalog", "update", ""))
            && Allowed(After(Then(run, CutRules("token")), listed).policy, Literal, "token",
                Request("catalog", "update", ""))
  {
    var listed, run, request := [READ, UPDATE], FailedDeletion(), Request("catalog", "update", "");
    FailedDeletionReached();
    RunKeepsInv(run, listed);
    var s := After(run, listed);
    UserMayUpdate(s);
    OwnDenyIsGained(s, listed, Literal, "token", request);
  }

  lemma OnlyUpdateOutside()
    ensures Outside([READ, UPDATE], [READ]) == {UPDATE.(deny := true)}
  {
    var listed := [READ, UPDATE];
    assert InScope([READ], READ) by { assert Blank([READ][0]) == READ; }
    assert listed[1] == UPDATE && !InScope([READ], UPDATE);
  }

  lemma FailedDeletionReached()
    ensures var listed, run := [READ, UPDATE], FailedDeletion();
            && ValidRun(run, listed)
            && After(run, listed).policy.groups == {("token", "user")}
            && After(run, listed).policy.rules ==
               {Rule("user", READ), Rule("user", UPDATE), Rule("token", UPDATE.(deny := true))}
            && After(run, listed).tokens == map["token" := Token("user", [READ], 0, Done, true)]
  {
    GroupedReached();
    OnlyUpdateOutside();
    var s2 := After(GroupedRun(), [READ, UPDATE]);
    var s3 := Next(s2, [READ, UPDATE], Restrict("token"));
    assert s3.policy.rules == s2.policy.rules + {Rule("token", UPDATE.(deny := true))};
  }

  lemma GroupedReached()
    ensures ValidRun(GroupedRun(), [READ, UPDATE])
    ensures After(GroupedRun(), [READ, UPDATE]) ==
            State(Policy({("token", "user")}, {Rule("user", READ), Rule("user", UPDATE)}),
                  map["token" := Token("user", [READ], 0, Grouped, false)])
  {
    var s0 := State(Policy({}, {Rule("user", READ), Rule("user", UPDATE)}), map[]);
    assert Enabled(s0, Create("token", "user", [READ]));
    var s1 := Next(s0, [READ, UPDATE], Create("token", "user", [READ]));
    assert s1.tokens == map["token" := Token("user", [READ], 0, Person, false)];
  }

  lemma UserMayUpdate(s: State)
    requires s.policy.groups == {("token", "user")}
    requires s.policy.rules == {Rule("user", READ), Rule("user", UPDATE), Rule("token", UPDATE.(deny := true))}
    ensures Allowed(s.policy, Literal, "user", Request("catalog", "update", ""))
    ensures OwnDeny(s.policy, Literal, "token", Request("catalog", "update", ""))
  {
    ReachSelf(s.policy.groups, "user");
    assert Rule("user", UPDATE) in s.policy.rules && Rule("token", UPDATE.(deny := true)) in s.policy.rules;
    if Reaches(s.policy.groups, "user", "token") {
      var next := ReachSplit(s.policy.groups, "user", "token");
    }
  }
}

/** The handlers, as calls on an enforcer whose policy they change in place. */
module TokenHandlers {
  import opened TokenPermissions

  class Enforcer {
    var policy: Policy

    constructor (policy: Policy)
      ensures this.policy == policy
    {
      this.policy := policy;
    }

    method AddGroupingPolicy(person: string, group: string)
      modifies this
      ensures policy == AddGroup(old(policy), person, group)
    {
      policy := policy.(groups := policy.groups + {(person, group)});
    }

    method AddPermissionsForUser(person: string, permissions: seq<Permission>)
      modifies this
      ensures policy == AddRules(old(policy), person, set p | p in permissions)
    {
      var i := 0;
      while i < |permissions|
        invariant 0 <= i <= |permissions| && policy.groups == old(policy).groups
        invariant policy.rules == old(policy).rules + set k | 0 <= k < i :: Rule(person, permissions[k])
      {
        policy := policy.(rules := policy.rules + {Rule(person, permissions[i])});
        i := i + 1;
      }
    }

    method DeleteRolesForUser(person: string)
      modifies this
      ensures policy == WithoutRoles(old(policy), person)
    {
      policy := policy.(groups := set edge | edge in policy.groups && edge.0 != person);
    }

    method DeletePermissionsForUser(person: string)
      modifies this
      ensures policy == WithoutRules(old(policy), person)
    {
      policy := policy.(rules := set rule | rule in policy.rules && rule.person != person);
    }
  }

  /** Subjects that callers put into the scope are removed in place. */
  method BlankSubjects(scope: array<Permission>)
    modifies scope
    ensures forall k :: 0 <= k < scope.Length ==> scope[k] == Blank(old(scope[k]))
    ensures forall k :: 0 <= k < scope.Length ==> scope[k] == old(scope[k]).(subject := "")
  {
    var i := 0;
    while i < scope.Length
      invariant 0 <= i <= scope.Length
      invariant forall k :: 0 <= k < i ==> scope[k] == Blank(old(scope[k]))
      invariant forall k :: i <= k < scope.Length ==> scope[k] == old(scope[k])
    {
      scope[i] := scope[i].(subject := "");
      i := i + 1;
    }
  }

  /** The deny rules for every listed permission that a scope without subjects leaves out. */
  method PermissionsToDeny(listed: seq<Permission>, scope: seq<Permission>) returns (permsToDeny: seq<Permission>)
    requires forall k :: 0 <= k < |scope| ==> scope[k].subject == ""
    ensures (set p | p in permsToDeny) == Outside(listed, scope)
  {
    permsToDeny := [];
    var i := 0;
    while i < |listed|
      invariant 0 <= i <= |listed|
      invariant (set p | p in permsToDeny) == Outside(listed[..i], scope)
    {
      OutsideStep(listed, scope, i);
      if listed[i] !in scope {
        permsToDeny := permsToDeny + [listed[i].(deny := true)];
      }
      i := i + 1;
    }
    assert listed[..i] == listed;
  }

  lemma OutsideStep(listed: seq<Permission>, scope: seq<Permission>, i: nat)
    requires i < |listed| && forall k :: 0 <= k < |scope| ==> scope[k].subject == ""
    ensures InScope(scope, listed[i]) <==> listed[i] in scope
    ensures Outside(listed[..i + 1], scope) ==
            Outside(listed[..i], scope) + if listed[i] in scope then {} else {listed[i].(deny := true)}
  {
    forall k | 0 <= k < |scope| ensures Blank(scope[k]) == scope[k] {}
    var longer := listed[..i + 1];
    assert longer == listed[..i] + [listed[i]];
    assert longer[i] == listed[i];
    forall k | 0 <= k < i ensures longer[k] == listed[..i][k] {}
    forall p | p in Outside(listed[..i], scope) ensures p in Outside(longer, scope) {
      var k :| 0 <= k < i && !InScope(scope, listed[..i][k]) && p == listed[..i][k].(deny := true);
    }
    forall p | p in Outside(longer, scope) && p !in Outside(listed[..i], scope)
      ensures listed[i] !in scope && p == listed[i].(deny := true)
    {
      var k :| 0 <= k <= i && !InScope(scope, longer[k]) && p == longer[k].(deny := true);
    }
  }

  /** A scope names the same permissions before and after its subjects are removed. */
  lemma BlankingKeepsScope(before: seq<Permission>, after: seq<Permission>, listed: seq<Permission>)
    requires |before| == |after| && forall k :: 0 <= k < |before| ==> after[k] == Blank(before[k])
    ensures Outside(listed, after) == Outside(listed, before)
  {
    forall k | 0 <= k < |listed| ensures InScope(after, listed[k]) <==> InScope(before, listed[k]) {
      forall j | 0 <= j < |before| ensures Blank(after[j]) == Blank(before[j]) {}
    }
  }

  /** What creating a token leaves in the policy, wherever it stops. */
  function AfterCreation(policy: Policy, listed: seq<Permission>, person: string, user: string, scope: seq<Permission>,
                         groupFails: bool, denyFails: bool): Policy {
    if groupFails then policy
    else if scope == [] || denyFails then AddGroup(policy, person, user)
    else AddRules(AddGroup(policy, person, user), person, Outside(listed, scope))
  }

  /** The listed permission is none of those in the scope, whatever their subjects. */
  ghost predicate LeftOut(scope: seq<Permission>, p: Permission) {
    forall k :: 0 <= k < |scope| ==> scope[k].(subject := "") != p
  }

  /** The deny rules that a scope asks for; an empty one asks for none. */
  ghost predicate Withheld(listed: seq<Permission>, scope: seq<Permission>, p: Permission) {
    scope != [] && exists k :: 0 <= k < |listed| && LeftOut(scope, listed[k]) && p == listed[k].(deny := true)
  }

  lemma OutsideIsWithheld(listed: seq<Permission>, scope: seq<Permission>, p: Permission)
    requires scope != []
    ensures p in Outside(listed, scope) <==> Withheld(listed, scope, p)
  {
    forall q ensures InScope(scope, q) <==> !LeftOut(scope, q) {
      if InScope(scope, q) { var k :| 0 <= k < |scope| && Blank(scope[k]) == q; }
      if !LeftOut(scope, q) {
        var k :| 0 <= k < |scope| && scope[k].(subject := "") == q;
        assert Blank(scope[k]) == q;
      }
    }
  }

  /** Edges and rules after a creation: one step that fails leaves what the steps before it did, and nothing else. */
  ghost predicate CreationLeaves(before: Policy, after: Policy, listed: seq<Permission>, person: string, user: string,
                                 scope: seq<Permission>, groupFails: bool, denyFails: bool) {
    && after.groups == (if groupFails then before.groups else before.groups + {(person, user)})
    && forall rule: Rule :: rule in after.rules <==>
         || rule in before.rules
         || (!groupFails && !denyFails && rule.person == person && Withheld(listed, scope, rule.permission))
  }

  lemma CreationIsExact(policy: Policy, listed: seq<Permission>, person: string, user: string,
                        scope: seq<Permission>, groupFails: bool, denyFails: bool)
    ensures CreationLeaves(policy, AfterCreation(policy, listed, person, user, scope, groupFails, denyFails),
                           listed, person, user, scope, groupFails, denyFails)
  {
    if scope != [] {
      forall p { OutsideIsWithheld(listed, scope, p); }
    }
  }

  /** Either enforcer call may fail; the handler then stops and keeps what was already done. */
  method CreateToken(enforcer: Enforcer, listed: seq<Permission>, person: string, user: string,
                     scope: array<Permission>, groupFails: bool, denyFails: bool)
    returns (created: bool)
    modifies enforcer, scope
    ensures enforcer.policy ==
            AfterCreation(old(enforcer.policy), listed, person, user, old(scope[..]), groupFails, denyFails)
    ensures created <==> !groupFails
                         && (!denyFails || scope.Length == 0 || Outside(listed, old(scope[..])) == {})
    ensures CreationLeaves(old(enforcer.policy), enforcer.policy, listed, person, user, old(scope[..]),
                           groupFails, denyFails)
  {
    ghost var asked := scope[..];
    CreationIsExact(enforcer.policy, listed, person, user, asked, groupFails, denyFails);
    if groupFails { return false; }
    enforcer.AddGroupingPolicy(person, user);
    if scope.Length > 0 {
      BlankSubjects(scope);
      BlankingKeepsScope(asked, scope[..], listed);
      var permsToDeny := PermissionsToDeny(listed, scope[..]);
      if |permsToDeny| > 0 {
        assert permsToDeny[0] in Outside(listed, scope[..]);
        if denyFails { return false; }
        enforcer.AddPermissionsForUser(person, permsToDeny);
      } else {
        NothingOutside(enforcer.policy, listed, person, asked, permsToDeny);
      }
    }
    return true;
  }

  lemma NothingOutside(
      policy: Policy, listed: seq<Permission>, person: string, scope: seq<Permission>, denied: seq<Permission>)
    requires denied == [] && (set p | p in denied) == Outside(listed, scope)
    ensures Outside(listed, scope) == {} && AddRules(policy, person, Outside(listed, scope)) == policy
  {
  }

  /** The steps of the machine that a creation runs through without interference. */
  lemma CreationIsRun(s: State, listed: seq<Permission>, t: string, user: string, scope: seq<Permission>)
    requires Enabled(s, Create(t, user, scope))
    ensures var s1 := Next(s, listed, Create(t, user, scope));
            && Enabled(s1, Group(t))
            && var s2 := Next(s1, listed, Group(t));
            && s2.policy == AfterCreation(s.policy, listed, t, user, scope, false, true)
            && var done := AfterCreation(s.policy, listed, t, user, scope, false, false);
            && (scope != [] ==> Enabled(s2, Restrict(t)) && Next(s2, listed, Restrict(t)).policy == done)
            && (scope == [] ==> s2.policy == done && Live(s2, t))
  {
  }

  /** The end of a token's deletion: roles, then rules, each failure only logged. */
  method DeleteGrants(enforcer: Enforcer, person: string, rolesFail: bool, rulesFail: bool)
    modifies enforcer
    ensures var before := old(enforcer.policy);
            var cut := if rolesFail then before else WithoutRoles(before, person);
            enforcer.policy == if rulesFail then cut else WithoutRules(cut, person)
    ensures forall edge :: edge in enforcer.policy.groups <==>
              edge in old(enforcer.policy).groups && (rolesFail || edge.0 != person)
    ensures forall rule :: rule in enforcer.policy.rules <==>
              rule in old(enforcer.policy).rules && (rulesFail || rule.person != person)
  {
    if !rolesFail {
      enforcer.DeleteRolesForUser(person);
    }
    if !rulesFail {
      enforcer.DeletePermissionsForUser(person);
    }
  }
}
