/**
 Building a guest's row-level-security payload from permission rows and scope rows (auth/rls.go).
 The functions give the value the loops accumulate; the lemmas say what the finished payload permits.
 */
module RlsPayload {
  import opened Base
  import opened ScopeAlgebra

  /** A selector on agent, name and tags; the other selector fields are ignored by the program. */
  datatype Selector = Selector(agent: string, name: string, tags: map<string, string>)

  datatype ViewRef = ViewRef(id: string, namespace: string, name: string)

  datatype ScopeRef = ScopeRef(namespace: string, name: string)

  /** One target of a scope row: at most one selector per kind, and one for all kinds. */
  datatype Target = Target(perKind: map<Kind, Selector>, all: Option<Selector>)

  /** A scope row; `targets` is absent when its JSON does not parse. */
  datatype ScopeRow = ScopeRow(id: string, targets: Option<seq<Target>>)

  datatype Lookup = NotFound | Broken | Found(row: ScopeRow)

  type ScopeTable = ScopeRef -> Lookup

  /** The object selector column: empty, unreadable, or parsed. */
  datatype ObjectSelector =
    | NoSelector
    | Unreadable
    | Selectors(scopes: seq<ScopeRef>, configs: seq<Selector>, components: seq<Selector>,
                playbooks: seq<Selector>, views: seq<ViewRef>)

  datatype Permission = Permission(
    configId: Option<string>, componentId: Option<string>, playbookId: Option<string>, canaryId: Option<string>,
    selector: ObjectSelector, deny: bool)

  // ---------------------------------------------------------------- conversions

  function ConvertSelector(s: Selector): Scope {
    Scope("", s.tags, if s.agent != "" then [s.agent] else [], if s.name != "" then [s.name] else [], false)
  }

  /** Views are matched by id and name only. */
  function ConvertViewRef(v: ViewRef): Scope {
    UNRESTRICTED.(names := if v.name != "" then [v.name] else [], id := v.id)
  }

  // ---------------------------------------------------------------- the accumulated value

  function Add(p: Payload, kind: Kind, s: Scope, deny: bool): Payload {
    var t := s.(deny := deny);
    match kind
    case Config => p.(config := p.config + [t])
    case Component => p.(component := p.component + [t])
    case Playbook => p.(playbook := p.playbook + [t])
    case Canary => p.(canary := p.canary + [t])
    case View => p.(view := p.view + [t])
  }

  function AddId(p: Payload, kind: Kind, id: Option<string>, deny: bool): Payload {
    if id.Some? then Add(p, kind, UNRESTRICTED.(id := id.value), deny) else p
  }

  function AddOne(p: Payload, kind: Kind, target: Target, deny: bool): Payload {
    if kind in target.perKind then Add(p, kind, ConvertSelector(target.perKind[kind]), deny) else p
  }

  function AddEach(p: Payload, target: Target, deny: bool): Payload {
    var p := AddOne(p, Config, target, deny);
    var p := AddOne(p, Component, target, deny);
    var p := AddOne(p, Playbook, target, deny);
    var p := AddOne(p, Canary, target, deny);
    AddOne(p, View, target, deny)
  }

  function AddAll(p: Payload, s: Scope, deny: bool): Payload {
    Add(Add(Add(Add(Add(p, Config, s, deny), Component, s, deny), Playbook, s, deny), Canary, s, deny), View, s, deny)
  }

  function AddTarget(p: Payload, target: Target, deny: bool): Payload {
    var p := AddEach(p, target, deny);
    if target.all.None? then p else AddAll(p, ConvertSelector(target.all.value), deny)
  }

  function AddTargets(p: Payload, targets: seq<Target>, deny: bool): Payload {
    if targets == [] then p
    else AddTarget(AddTargets(p, targets[..|targets| - 1], deny), targets[|targets| - 1], deny)
  }

  function AddRow(p: Payload, row: ScopeRow, deny: bool): Payload {
    var q := if deny then p else p.(scopes := p.scopes + [row.id]);
    if row.targets.Some? then AddTargets(q, row.targets.value, deny) else q
  }

  /** A missing scope is skipped; a failing query aborts. */
  function AddRef(p: Payload, ref: ScopeRef, table: ScopeTable, deny: bool): Option<Payload> {
    match table(ref)
    case NotFound => Some(p)
    case Broken => None
    case Found(row) => Some(AddRow(p, row, deny))
  }

  function AddRefs(p: Payload, refs: seq<ScopeRef>, table: ScopeTable, deny: bool): Option<Payload> {
    if refs == [] then Some(p)
    else
      var q := AddRefs(p, refs[..|refs| - 1], table, deny);
      if q.None? then None else AddRef(q.value, refs[|refs| - 1], table, deny)
  }

  function AddSelectors(p: Payload, kind: Kind, selectors: seq<Selector>, deny: bool): Payload {
    if selectors == [] then p
    else
      Add(AddSelectors(p, kind, selectors[..|selectors| - 1], deny), kind,
          ConvertSelector(selectors[|selectors| - 1]), deny)
  }

  function AddViews(p: Payload, views: seq<ViewRef>, deny: bool): Payload {
    if views == [] then p
    else Add(AddViews(p, views[..|views| - 1], deny), View, ConvertViewRef(views[|views| - 1]), deny)
  }

  function AddIds(p: Payload, perm: Permission): Payload {
    AddId(AddId(AddId(AddId(p, Config, perm.configId, perm.deny), Component, perm.componentId, perm.deny),
                Playbook, perm.playbookId, perm.deny), Canary, perm.canaryId, perm.deny)
  }

  function AddPermission(p: Payload, perm: Permission, table: ScopeTable): Option<Payload> {
    var q := AddIds(p, perm);
    if !perm.selector.Selectors? then Some(q)
    else
      var sel := perm.selector;
      var r := AddRefs(q, sel.scopes, table, perm.deny);
      if r.None? then None
      else
        Some(AddViews(
          AddSelectors(AddSelectors(AddSelectors(r.value, Config, sel.configs, perm.deny),
                                    Component, sel.components, perm.deny),
                       Playbook, sel.playbooks, perm.deny),
          sel.views, perm.deny))
  }

  /** The payload built from the rows, or nothing when a scope query fails. */
  function Build(perms: seq<Permission>, table: ScopeTable): Option<Payload> {
    if perms == [] then Some(EMPTY)
    else
      var q := Build(perms[..|perms| - 1], table);
      if q.None? then None else AddPermission(q.value, perms[|perms| - 1], table)
  }

  // ---------------------------------------------------------------- what a permission row reaches

  ghost predicate SelectorHits(like: NameTest, s: Selector, x: Resource) {
    && TagsMatch(s.tags, x) && (s.agent == "" || s.agent == x.agent) && (s.name == "" || like(s.name, x.name))
  }

  ghost predicate ViewHits(like: NameTest, v: ViewRef, x: Resource) {
    (v.id == "" || v.id == x.id) && (v.name == "" || like(v.name, x.name))
  }

  ghost predicate SelectorsHit(like: NameTest, selectors: seq<Selector>, x: Resource) {
    exists s :: s in selectors && SelectorHits(like, s, x)
  }

  ghost predicate ViewsHit(like: NameTest, views: seq<ViewRef>, x: Resource) {
    exists v :: v in views && ViewHits(like, v, x)
  }

  function IdFor(perm: Permission, kind: Kind): Option<string> {
    match kind
    case Config => perm.configId
    case Component => perm.componentId
    case Playbook => perm.playbookId
    case Canary => perm.canaryId
    case View => None
  }

  /** The row names the resource by id. */
  ghost predicate ReachesById(perm: Permission, kind: Kind, x: Resource) {
    var id := IdFor(perm, kind);
    id.Some? && (id.value == "" || id.value == x.id)
  }

  function SelectorsFor(sel: ObjectSelector, kind: Kind): seq<Selector>
    requires sel.Selectors?
  {
    match kind
    case Config => sel.configs
    case Component => sel.components
    case Playbook => sel.playbooks
    case _ => []
  }

  ghost predicate TargetHits(like: NameTest, t: Target, kind: Kind, x: Resource) {
    (kind in t.perKind && SelectorHits(like, t.perKind[kind], x)) || (t.all.Some? && SelectorHits(like, t.all.value, x))
  }

  ghost predicate TargetsHit(like: NameTest, targets: seq<Target>, kind: Kind, x: Resource) {
    exists t :: t in targets && TargetHits(like, t, kind, x)
  }

  ghost predicate RowHits(like: NameTest, row: ScopeRow, kind: Kind, x: Resource) {
    row.targets.Some? && TargetsHit(like, row.targets.value, kind, x)
  }

  ghost predicate RefHits(like: NameTest, ref: ScopeRef, table: ScopeTable, kind: Kind, x: Resource) {
    table(ref).Found? && RowHits(like, table(ref).row, kind, x)
  }

  /** The row reaches the resource: by id, by one of its selectors, or through a scope it refers to. */
  ghost predicate Reaches(like: NameTest, perm: Permission, table: ScopeTable, kind: Kind, x: Resource) {
    || ReachesById(perm, kind, x)
    || (perm.selector.Selectors? &&
        (|| SelectorsHit(like, SelectorsFor(perm.selector, kind), x)
         || (kind.View? && ViewsHit(like, perm.selector.views, x))
         || RefsHit(like, perm.selector.scopes, table, kind, x)))
  }

  /** The row confers the row-level grant of a scope. */
  ghost predicate Confers(perm: Permission, table: ScopeTable, id: string) {
    !perm.deny && perm.selector.Selectors? && RefsFind(perm.selector.scopes, table, id)
  }

  // ---------------------------------------------------------------- one step at a time

  /** `q` matches what `p` matches, plus, with the given sign, what `hit` says. */
  ghost predicate Grew(like: NameTest, p: Payload, q: Payload, kind: Kind, x: Resource, deny: bool, hit: bool) {
    && (Hits(like, ListOf(q, kind), false, x) <==> Hits(like, ListOf(p, kind), false, x) || (!deny && hit))
    && (Hits(like, ListOf(q, kind), true, x) <==> Hits(like, ListOf(p, kind), true, x) || (deny && hit))
    && q.disable == p.disable
  }

  ghost predicate Hits(like: NameTest, list: seq<Scope>, deny: bool, x: Resource) {
    exists i :: 0 <= i < |list| && list[i].deny == deny && MatchesBy(like, list[i], x)
  }

  lemma HitsPermits(like: NameTest, list: seq<Scope>, x: Resource)
    ensures PermitsBy(like, list, x) <==> Hits(like, list, false, x) && !Hits(like, list, true, x)
  {
    if PermitsBy(like, list, x) {
      var s :| s in list && !s.deny && MatchesBy(like, s, x);
      var i :| 0 <= i < |list| && list[i] == s;
    }
    if exists s :: s in list && s.deny && MatchesBy(like, s, x) {
      var s :| s in list && s.deny && MatchesBy(like, s, x);
      var i :| 0 <= i < |list| && list[i] == s;
    }
  }

  lemma HitsAppend(like: NameTest, list: seq<Scope>, s: Scope, deny: bool, x: Resource)
    ensures Hits(like, list + [s], deny, x) <==> Hits(like, list, deny, x) || (s.deny == deny && MatchesBy(like, s, x))
  {
    var longer := list + [s];
    if Hits(like, list, deny, x) {
      var i :| 0 <= i < |list| && list[i].deny == deny && MatchesBy(like, list[i], x);
      assert longer[i] == list[i];
    }
    if s.deny == deny && MatchesBy(like, s, x) { assert longer[|list|] == s; }
    if Hits(like, longer, deny, x) {
      var i :| 0 <= i < |longer| && longer[i].deny == deny && MatchesBy(like, longer[i], x);
      if i < |list| { assert list[i] == longer[i]; }
    }
  }

  lemma AddGrows(like: NameTest, p: Payload, k: Kind, s: Scope, deny: bool, kind: Kind, x: Resource)
    ensures Grew(like, p, Add(p, k, s, deny), kind, x, deny, kind == k && MatchesBy(like, s, x))
    ensures Add(p, k, s, deny).scopes == p.scopes
  {
    var t := s.(deny := deny);
    HitsAppend(like, ListOf(p, kind), t, false, x);
    HitsAppend(like, ListOf(p, kind), t, true, x);
  }

  lemma ConvertSelectorMeans(like: NameTest, s: Selector, x: Resource)
    ensures MatchesBy(like, ConvertSelector(s), x) <==> SelectorHits(like, s, x)
  {
  }

  lemma ConvertViewMeans(like: NameTest, v: ViewRef, x: Resource)
    ensures MatchesBy(like, ConvertViewRef(v), x) <==> ViewHits(like, v, x)
  {
  }

  lemma AddIdGrows(like: NameTest, p: Payload, k: Kind, id: Option<string>, deny: bool, kind: Kind, x: Resource)
    ensures Grew(like, p, AddId(p, k, id, deny), kind, x, deny,
                 kind == k && id.Some? && (id.value == "" || id.value == x.id))
    ensures AddId(p, k, id, deny).scopes == p.scopes
  {
    if id.Some? {
      AddGrows(like, p, k, UNRESTRICTED.(id := id.value), deny, kind, x);
    }
  }

  lemma AddIdsGrows(like: NameTest, p: Payload, perm: Permission, kind: Kind, x: Resource)
    ensures Grew(like, p, AddIds(p, perm), kind, x, perm.deny, ReachesById(perm, kind, x))
    ensures AddIds(p, perm).scopes == p.scopes
  {
    var p1 := AddId(p, Config, perm.configId, perm.deny);
    var p2 := AddId(p1, Component, perm.componentId, perm.deny);
    var p3 := AddId(p2, Playbook, perm.playbookId, perm.deny);
    AddIdGrows(like, p, Config, perm.configId, perm.deny, kind, x);
    AddIdGrows(like, p1, Component, perm.componentId, perm.deny, kind, x);
    AddIdGrows(like, p2, Playbook, perm.playbookId, perm.deny, kind, x);
    AddIdGrows(like, p3, Canary, perm.canaryId, perm.deny, kind, x);
  }

  lemma AddOneGrows(like: NameTest, p: Payload, k: Kind, target: Target, deny: bool, kind: Kind, x: Resource)
    ensures Grew(like, p, AddOne(p, k, target, deny), kind, x, deny,
                 kind == k && k in target.perKind && SelectorHits(like, target.perKind[k], x))
    ensures AddOne(p, k, target, deny).scopes == p.scopes
  {
    if k in target.perKind {
      ConvertSelectorMeans(like, target.perKind[k], x);
      AddGrows(like, p, k, ConvertSelector(target.perKind[k]), deny, kind, x);
    }
  }

  lemma AddAllGrows(like: NameTest, p: Payload, s: Scope, deny: bool, kind: Kind, x: Resource)
    ensures Grew(like, p, AddAll(p, s, deny), kind, x, deny, MatchesBy(like, s, x))
    ensures AddAll(p, s, deny).scopes == p.scopes
  {
    var p1 := Add(p, Config, s, deny);
    var p2 := Add(p1, Component, s, deny);
    var p3 := Add(p2, Playbook, s, deny);
    var p4 := Add(p3, Canary, s, deny);
    AddGrows(like, p, Config, s, deny, kind, x);
    AddGrows(like, p1, Component, s, deny, kind, x);
    AddGrows(like, p2, Playbook, s, deny, kind, x);
    AddGrows(like, p3, Canary, s, deny, kind, x);
    AddGrows(like, p4, View, s, deny, kind, x);
  }

  lemma AddTargetGrows(like: NameTest, p: Payload, target: Target, deny: bool, kind: Kind, x: Resource)
    ensures Grew(like, p, AddTarget(p, target, deny), kind, x, deny, TargetHits(like, target, kind, x))
    ensures AddTarget(p, target, deny).scopes == p.scopes
  {
    var p1 := AddOne(p, Config, target, deny);
    var p2 := AddOne(p1, Component, target, deny);
    var p3 := AddOne(p2, Playbook, target, deny);
    var p4 := AddOne(p3, Canary, target, deny);
    var p5 := AddOne(p4, View, target, deny);
    AddOneGrows(like, p, Config, target, deny, kind, x);
    AddOneGrows(like, p1, Component, target, deny, kind, x);
    AddOneGrows(like, p2, Playbook, target, deny, kind, x);
    AddOneGrows(like, p3, Canary, target, deny, kind, x);
    AddOneGrows(like, p4, View, target, deny, kind, x);
    if target.all.Some? {
      ConvertSelectorMeans(like, target.all.value, x);
      AddAllGrows(like, p5, ConvertSelector(target.all.value), deny, kind, x);
    }
  }

  lemma TargetsSplit(like: NameTest, front: seq<Target>, last: Target, kind: Kind, x: Resource)
    ensures TargetsHit(like, front + [last], kind, x) <==>
            TargetsHit(like, front, kind, x) || TargetHits(like, last, kind, x)
  {
    assert forall t :: t in front + [last] <==> t in front || t == last;
  }

  lemma {:induction false} AddTargetsGrows(like: NameTest, p: Payload, targets: seq<Target>, deny: bool, kind: Kind,
        x: Resource)
    ensures Grew(like, p, AddTargets(p, targets, deny), kind, x, deny,
                 TargetsHit(like, targets, kind, x))
    ensures AddTargets(p, targets, deny).scopes == p.scopes
  {
    if targets != [] {
      var front, last := targets[..|targets| - 1], targets[|targets| - 1];
      assert targets == front + [last];
      AddTargetsGrows(like, p, front, deny, kind, x);
      AddTargetGrows(like, AddTargets(p, front, deny), last, deny, kind, x);
      TargetsSplit(like, front, last, kind, x);
    }
  }

  lemma AddRowGrows(like: NameTest, p: Payload, row: ScopeRow, deny: bool, kind: Kind, x: Resource)
    ensures Grew(like, p, AddRow(p, row, deny), kind, x, deny, RowHits(like, row, kind, x))
    ensures AddRow(p, row, deny).scopes == if deny then p.scopes else p.scopes + [row.id]
  {
    if row.targets.Some? {
      AddTargetsGrows(like, if deny then p else p.(scopes := p.scopes + [row.id]), row.targets.value, deny, kind, x);
    }
  }

  ghost predicate RefsHit(like: NameTest, refs: seq<ScopeRef>, table: ScopeTable, kind: Kind, x: Resource) {
    exists ref :: ref in refs && RefHits(like, ref, table, kind, x)
  }

  ghost predicate RefsFind(refs: seq<ScopeRef>, table: ScopeTable, id: string) {
    exists ref :: ref in refs && table(ref).Found? && table(ref).row.id == id
  }

  ghost predicate RefsFail(refs: seq<ScopeRef>, table: ScopeTable) {
    exists ref :: ref in refs && table(ref).Broken?
  }

  lemma RefsSplit(like: NameTest, front: seq<ScopeRef>, last: ScopeRef, table: ScopeTable, kind: Kind, x: Resource,
        id: string)
    ensures RefsHit(like, front + [last], table, kind, x) <==>
        RefsHit(like, front, table, kind, x) || RefHits(like, last, table, kind, x)
    ensures RefsFind(front + [last], table, id) <==>
            RefsFind(front, table, id) || (table(last).Found? && table(last).row.id == id)
    ensures RefsFail(front + [last], table) <==> RefsFail(front, table) || table(last).Broken?
  {
    assert forall ref :: ref in front + [last] <==> ref in front || ref == last;
  }

  lemma AddRefGrows(
      like: NameTest, p: Payload, ref: ScopeRef, table: ScopeTable, deny: bool, kind: Kind, x: Resource, id: string)
    ensures AddRef(p, ref, table, deny).None? <==> table(ref).Broken?
    ensures AddRef(p, ref, table, deny).Some? ==>
              var q := AddRef(p, ref, table, deny).value;
              && Grew(like, p, q, kind, x, deny, RefHits(like, ref, table, kind, x))
              && (id in q.scopes <==> id in p.scopes || (!deny && table(ref).Found? && table(ref).row.id == id))
  {
    if table(ref).Found? { AddRowGrows(like, p, table(ref).row, deny, kind, x); }
  }

  lemma {:induction false} AddRefsGrows(
      like: NameTest, p: Payload, refs: seq<ScopeRef>, table: ScopeTable, deny: bool, kind: Kind, x: Resource,
          id: string)
    ensures AddRefs(p, refs, table, deny).None? <==> RefsFail(refs, table)
    ensures AddRefs(p, refs, table, deny).Some? ==>
              var q := AddRefs(p, refs, table, deny).value;
              && Grew(like, p, q, kind, x, deny, RefsHit(like, refs, table, kind, x))
              && (id in q.scopes <==> id in p.scopes || (!deny && RefsFind(refs, table, id)))
  {
    if refs != [] {
      var front, last := refs[..|refs| - 1], refs[|refs| - 1];
      assert refs == front + [last];
      AddRefsGrows(like, p, front, table, deny, kind, x, id);
      var q := AddRefs(p, front, table, deny);
      if q.Some? { AddRefGrows(like, q.value, last, table, deny, kind, x, id); }
      RefsSplit(like, front, last, table, kind, x, id);
    }
  }

  lemma {:induction false} AddSelectorsGrows(
      like: NameTest, p: Payload, k: Kind, selectors: seq<Selector>, deny: bool, kind: Kind, x: Resource)
    ensures Grew(like, p, AddSelectors(p, k, selectors, deny), kind, x, deny,
                 kind == k && SelectorsHit(like, selectors, x))
    ensures AddSelectors(p, k, selectors, deny).scopes == p.scopes
  {
    if selectors != [] {
      var front, last := selectors[..|selectors| - 1], selectors[|selectors| - 1];
      assert selectors == front + [last];
      AddSelectorsGrows(like, p, k, front, deny, kind, x);
      ConvertSelectorMeans(like, last, x);
      AddGrows(like, AddSelectors(p, k, front, deny), k, ConvertSelector(last), deny, kind, x);
      assert SelectorsHit(like, selectors, x) <==> SelectorsHit(like, front, x) || SelectorHits(like, last, x);
    }
  }

  lemma {:induction false} AddViewsGrows(like: NameTest, p: Payload, views: seq<ViewRef>, deny: bool, kind: Kind,
        x: Resource)
    ensures Grew(like, p, AddViews(p, views, deny), kind, x, deny,
                 kind.View? && ViewsHit(like, views, x))
    ensures AddViews(p, views, deny).scopes == p.scopes
  {
    if views != [] {
      var front, last := views[..|views| - 1], views[|views| - 1];
      assert views == front + [last];
      AddViewsGrows(like, p, front, deny, kind, x);
      ConvertViewMeans(like, last, x);
      AddGrows(like, AddViews(p, front, deny), View, ConvertViewRef(last), deny, kind, x);
      assert ViewsHit(like, views, x) <==> ViewsHit(like, front, x) || ViewHits(like, last, x);
    }
  }

  /** A permission row refers to a scope whose query fails. */
  ghost predicate Fails(perm: Permission, table: ScopeTable) {
    perm.selector.Selectors? && RefsFail(perm.selector.scopes, table)
  }

  lemma AddPermissionGrows(like: NameTest, p: Payload, perm: Permission, table: ScopeTable, kind: Kind, x: Resource,
        id: string)
    ensures AddPermission(p, perm, table).None? <==> Fails(perm, table)
    ensures AddPermission(p, perm, table).Some? ==>
              && Grew(like, p, AddPermission(p, perm, table).value, kind, x, perm.deny,
                  Reaches(like, perm, table, kind, x))
              && (id in AddPermission(p, perm, table).value.scopes <==> id in p.scopes || Confers(perm, table, id))
  {
    var q := AddIds(p, perm);
    AddIdsGrows(like, p, perm, kind, x);
    if perm.selector.Selectors? {
      var sel := perm.selector;
      AddRefsGrows(like, q, sel.scopes, table, perm.deny, kind, x, id);
      var r := AddRefs(q, sel.scopes, table, perm.deny);
      if r.Some? {
        var r1 := AddSelectors(r.value, Config, sel.configs, perm.deny);
        var r2 := AddSelectors(r1, Component, sel.components, perm.deny);
        var r3 := AddSelectors(r2, Playbook, sel.playbooks, perm.deny);
        AddSelectorsGrows(like, r.value, Config, sel.configs, perm.deny, kind, x);
        AddSelectorsGrows(like, r1, Component, sel.components, perm.deny, kind, x);
        AddSelectorsGrows(like, r2, Playbook, sel.playbooks, perm.deny, kind, x);
        AddViewsGrows(like, r3, sel.views, perm.deny, kind, x);
      }
    }
  }

  // ---------------------------------------------------------------- the finished payload

  ghost predicate SomeReaches(like: NameTest, perms: seq<Permission>, table: ScopeTable, deny: bool, kind: Kind,
        x: Resource) {
    exists perm :: perm in perms && perm.deny == deny && Reaches(like, perm, table, kind, x)
  }

  ghost predicate SomeConfers(perms: seq<Permission>, table: ScopeTable, id: string) {
    exists perm :: perm in perms && Confers(perm, table, id)
  }

  ghost predicate SomeFails(perms: seq<Permission>, table: ScopeTable) {
    exists perm :: perm in perms && Fails(perm, table)
  }

  lemma {:induction false} BuildHits(like: NameTest, perms: seq<Permission>, table: ScopeTable, kind: Kind,
        x: Resource, id: string)
    ensures Build(perms, table).None? <==> SomeFails(perms, table)
    ensures Build(perms, table).Some? ==>
              var p := Build(perms, table).value;
              && (Hits(like, ListOf(p, kind), false, x) <==> SomeReaches(like, perms, table, false, kind, x))
              && (Hits(like, ListOf(p, kind), true, x) <==> SomeReaches(like, perms, table, true, kind, x))
              && (id in p.scopes <==> SomeConfers(perms, table, id)) && !p.disable
  {
    if perms != [] {
      var front, last := perms[..|perms| - 1], perms[|perms| - 1];
      BuildHits(like, front, table, kind, x, id);
      assert perms == front + [last];
      var q := Build(front, table);
      if q.Some? {
        AddPermissionGrows(like, q.value, last, table, kind, x, id);
      }
      SplitReaches(like, front, last, table, false, kind, x);
      SplitReaches(like, front, last, table, true, kind, x);
      assert SomeConfers(perms, table, id) <==> SomeConfers(front, table, id) || Confers(last, table, id);
    }
  }

  lemma SplitReaches(like: NameTest, front: seq<Permission>, last: Permission, table: ScopeTable, deny: bool,
        kind: Kind, x: Resource)
    ensures SomeReaches(like, front + [last], table, deny, kind, x) <==>
            SomeReaches(like, front, table, deny, kind, x) || (last.deny == deny && Reaches(like, last, table, kind, x))
  {
    if SomeReaches(like, front, table, deny, kind, x) {
      var perm :| perm in front && perm.deny == deny && Reaches(like, perm, table, kind, x);
      assert perm in front + [last];
    }
    assert last in front + [last];
  }

  /**
   The payload permits a resource exactly when some allowing permission row reaches it and no denying
   row does; its scope ids are exactly those of the scopes found through allowing rows.  Building fails
   exactly when a row refers to a scope whose query fails.
   */
  lemma BuildExact(like: NameTest, perms: seq<Permission>, table: ScopeTable, kind: Kind, x: Resource, id: string)
    ensures Build(perms, table).None? <==> SomeFails(perms, table)
    ensures Build(perms, table).Some? ==>
              var p := Build(perms, table).value;
              && (GrantsBy(like, p, kind, x) <==>
                  SomeReaches(like, perms, table, false, kind, x) && !SomeReaches(like, perms, table, true, kind, x))
              && (GrantsRows(p, id) <==> SomeConfers(perms, table, id)) && !p.disable
  {
    BuildHits(like, perms, table, kind, x, id);
    if Build(perms, table).Some? { HitsPermits(like, ListOf(Build(perms, table).value, kind), x); }
  }

  /** Equal up to the order, and repetition, of everything listed inside the row. */
  ghost predicate SameRow(a: Permission, b: Permission) {
    && a.(selector := NoSelector) == b.(selector := NoSelector)
    && a.selector.Selectors? == b.selector.Selectors?
    && (a.selector.Selectors? ==>
          && SameElements(a.selector.scopes, b.selector.scopes)
          && SameElements(a.selector.configs, b.selector.configs)
          && SameElements(a.selector.components, b.selector.components)
          && SameElements(a.selector.playbooks, b.selector.playbooks)
          && SameElements(a.selector.views, b.selector.views))
  }

  /** The same scope rows, up to the order, and repetition, of their targets. */
  ghost predicate SameScope(a: Lookup, b: Lookup) {
    match (a, b)
    case (Found(r), Found(q)) =>
      && r.id == q.id && r.targets.Some? == q.targets.Some?
      && (r.targets.Some? ==> SameElements(r.targets.value, q.targets.value))
    case _ => a == b
  }

  ghost predicate SameTable(t: ScopeTable, u: ScopeTable) {
    forall ref :: SameScope(t(ref), u(ref))
  }

  lemma SameTableHits(like: NameTest, refs: seq<ScopeRef>, t: ScopeTable, u: ScopeTable, kind: Kind, x: Resource,
        id: string)
    requires SameTable(t, u)
    ensures RefsHit(like, refs, t, kind, x) <==> RefsHit(like, refs, u, kind, x)
    ensures RefsFind(refs, t, id) <==> RefsFind(refs, u, id)
    ensures RefsFail(refs, t) <==> RefsFail(refs, u)
  {
    forall ref | ref in refs
      ensures RefHits(like, ref, t, kind, x) <==> RefHits(like, ref, u, kind, x)
      ensures t(ref).Broken? <==> u(ref).Broken?
      ensures t(ref).Found? <==> u(ref).Found?
      ensures t(ref).Found? ==> t(ref).row.id == u(ref).row.id
    {
      assert SameScope(t(ref), u(ref));
    }
  }

  lemma SameRowReaches(like: NameTest, a: Permission, b: Permission, t: ScopeTable, u: ScopeTable,
                       kind: Kind, x: Resource, id: string)
    requires SameRow(a, b) && SameTable(t, u)
    ensures Reaches(like, a, t, kind, x) <==> Reaches(like, b, u, kind, x)
    ensures Confers(a, t, id) <==> Confers(b, u, id)
    ensures Fails(a, t) <==> Fails(b, u)
  {
    if a.selector.Selectors? {
      SameTableHits(like, a.selector.scopes, t, u, kind, x, id);
      assert SameElements(SelectorsFor(a.selector, kind), SelectorsFor(b.selector, kind));
      assert RefsHit(like, a.selector.scopes, u, kind, x) <==> RefsHit(like, b.selector.scopes, u, kind, x);
      assert RefsFind(a.selector.scopes, u, id) <==> RefsFind(b.selector.scopes, u, id);
      assert RefsFail(a.selector.scopes, u) <==> RefsFail(b.selector.scopes, u);
    }
  }

  /** Every row of `a` occurs, up to its inner order, in `b`. */
  ghost predicate RowsWithin(a: seq<Permission>, b: seq<Permission>) {
    forall p :: p in a ==> exists q :: q in b && SameRow(p, q)
  }

  ghost predicate SameRows(a: seq<Permission>, b: seq<Permission>) {
    RowsWithin(a, b) && RowsWithin(b, a)
  }

  /** Whatever some row of `a` does with `t`, some row of `b` does with `u`. */
  ghost predicate Carries(like: NameTest, a: seq<Permission>, b: seq<Permission>, t: ScopeTable, u: ScopeTable,
                          deny: bool, kind: Kind, x: Resource, id: string) {
    && (SomeReaches(like, a, t, deny, kind, x) ==> SomeReaches(like, b, u, deny, kind, x))
    && (SomeConfers(a, t, id) ==> SomeConfers(b, u, id))
    && (SomeFails(a, t) ==> SomeFails(b, u))
  }

  lemma RowsWithinReach(like: NameTest, a: seq<Permission>, b: seq<Permission>, t: ScopeTable, u: ScopeTable,
                        deny: bool, kind: Kind, x: Resource, id: string)
    requires RowsWithin(a, b) && SameTable(t, u)
    ensures Carries(like, a, b, t, u, deny, kind, x, id)
  {
    forall p | p in a
      ensures p.deny == deny && Reaches(like, p, t, kind, x) ==> SomeReaches(like, b, u, deny, kind, x)
      ensures Confers(p, t, id) ==> SomeConfers(b, u, id)
      ensures Fails(p, t) ==> SomeFails(b, u)
    {
      var q :| q in b && SameRow(p, q);
      SameRowReaches(like, p, q, t, u, kind, x, id);
    }
  }

  lemma SameTableSymmetric(t: ScopeTable, u: ScopeTable)
    requires SameTable(t, u)
    ensures SameTable(u, t)
  {
    forall ref ensures SameScope(u(ref), t(ref)) { assert SameScope(t(ref), u(ref)); }
  }

  lemma SameRowsReach(like: NameTest, a: seq<Permission>, b: seq<Permission>, t: ScopeTable, u: ScopeTable,
                      deny: bool, kind: Kind, x: Resource, id: string)
    requires SameRows(a, b) && SameTable(t, u)
    ensures SomeReaches(like, a, t, deny, kind, x) <==> SomeReaches(like, b, u, deny, kind, x)
    ensures SomeConfers(a, t, id) <==> SomeConfers(b, u, id)
    ensures SomeFails(a, t) <==> SomeFails(b, u)
  {
    SameTableSymmetric(t, u);
    RowsWithinReach(like, a, b, t, u, deny, kind, x, id);
    RowsWithinReach(like, b, a, u, t, deny, kind, x, id);
    CarriesBoth(like, a, b, t, u, deny, kind, x, id);
  }

  lemma CarriesBoth(like: NameTest, a: seq<Permission>, b: seq<Permission>, t: ScopeTable, u: ScopeTable,
                    deny: bool, kind: Kind, x: Resource, id: string)
    requires Carries(like, a, b, t, u, deny, kind, x, id) && Carries(like, b, a, u, t, deny, kind, x, id)
    ensures SomeReaches(like, a, t, deny, kind, x) <==> SomeReaches(like, b, u, deny, kind, x)
    ensures SomeConfers(a, t, id) <==> SomeConfers(b, u, id)
    ensures SomeFails(a, t) <==> SomeFails(b, u)
  {
  }

  /**
   Neither the order of the rows, nor the order inside a row, nor the order of a scope's targets matters, whether
   building succeeds or fails.
   */
  lemma BuildIgnoresOrder(like: NameTest, a: seq<Permission>, b: seq<Permission>, t: ScopeTable, u: ScopeTable,
                          kind: Kind, x: Resource, id: string)
    requires SameRows(a, b) && SameTable(t, u)
    ensures Build(a, t).None? <==> Build(b, u).None?
    ensures Build(a, t).Some? ==>
              && (GrantsBy(like, Build(a, t).value, kind, x) <==> GrantsBy(like, Build(b, u).value, kind, x))
              && (GrantsRows(Build(a, t).value, id) <==> GrantsRows(Build(b, u).value, id))
  {
    BuildExact(like, a, t, kind, x, id);
    BuildExact(like, b, u, kind, x, id);
    SameRowsReach(like, a, b, t, u, false, kind, x, id);
    SameRowsReach(like, a, b, t, u, true, kind, x, id);
  }
}

/** The payload object that the builder fills through a pointer. */
module RlsPayloadBuilder {
  import opened Base
  import opened ScopeAlgebra
  import opened RlsPayload

  class PayloadObject {
    var config: seq<Scope>
    var component: seq<Scope>
    var playbook: seq<Scope>
    var canary: seq<Scope>
    var view: seq<Scope>
    var scopes: seq<string>

    ghost function Value(): Payload
      reads this
    {
      Payload(config, component, playbook, canary, view, scopes, false)
    }

    constructor ()
      ensures Value() == EMPTY
    {
      config, component, playbook, canary, view, scopes := [], [], [], [], [], [];
    }

    method AddConfigScope(s: Scope, deny: bool)
      modifies this`config
      ensures Value() == Add(old(Value()), Config, s, deny)
    {
      config := config + [s.(deny := deny)];
    }

    method AddComponentScope(s: Scope, deny: bool)
      modifies this`component
      ensures Value() == Add(old(Value()), Component, s, deny)
    {
      component := component + [s.(deny := deny)];
    }

    method AddPlaybookScope(s: Scope, deny: bool)
      modifies this`playbook
      ensures Value() == Add(old(Value()), Playbook, s, deny)
    {
      playbook := playbook + [s.(deny := deny)];
    }

    method AddCanaryScope(s: Scope, deny: bool)
      modifies this`canary
      ensures Value() == Add(old(Value()), Canary, s, deny)
    {
      canary := canary + [s.(deny := deny)];
    }

    method AddViewScope(s: Scope, deny: bool)
      modifies this`view
      ensures Value() == Add(old(Value()), View, s, deny)
    {
      view := view + [s.(deny := deny)];
    }

    /** One target: the kinds it names, and all five when it is global. */
    method AddScopeTarget(target: Target, deny: bool)
      modifies this
      ensures Value() == AddTarget(old(Value()), target, deny)
    {
      AddTargetKinds(target, deny);
      if target.all.Some? {
        AddGlobalScope(ConvertSelector(target.all.value), deny);
      }
    }

    method AddTargetKinds(target: Target, deny: bool)
      modifies this
      ensures Value() == AddEach(old(Value()), target, deny)
    {
      if Config in target.perKind { AddConfigScope(ConvertSelector(target.perKind[Config]), deny); }
      if Component in target.perKind { AddComponentScope(ConvertSelector(target.perKind[Component]), deny); }
      if Playbook in target.perKind { AddPlaybookScope(ConvertSelector(target.perKind[Playbook]), deny); }
      if Canary in target.perKind { AddCanaryScope(ConvertSelector(target.perKind[Canary]), deny); }
      if View in target.perKind { AddViewScope(ConvertSelector(target.perKind[View]), deny); }
    }

    method AddGlobalScope(s: Scope, deny: bool)
      modifies this
      ensures Value() == AddAll(old(Value()), s, deny)
    {
      AddConfigScope(s, deny);
      AddComponentScope(s, deny);
      AddPlaybookScope(s, deny);
      AddCanaryScope(s, deny);
      AddViewScope(s, deny);
    }

    /** Adds the targets of the referenced scopes; false when a scope query fails. */
    method ProcessScopeRefs(refs: seq<ScopeRef>, table: ScopeTable, deny: bool) returns (ok: bool)
      modifies this
      ensures ok == AddRefs(old(Value()), refs, table, deny).Some?
      ensures ok ==> Value() == AddRefs(old(Value()), refs, table, deny).value
    {
      ghost var start := Value();
      for i := 0 to |refs|
        invariant AddRefs(start, refs[..i], table, deny) == Some(Value())
      {
        assert refs[..i + 1][..i] == refs[..i];
        match table(refs[i]) {
          case NotFound =>
          case Broken =>
            RefsBreak(start, refs, i, table, deny);
            return false;
          case Found(row) =>
            if !deny {
              scopes := scopes + [row.id];
            }
            if row.targets.Some? {
              AddScopeTargets(row.targets.value, deny);
            }
        }
      }
      assert refs[..|refs|] == refs;
      return true;
    }

    method AddScopeTargets(targets: seq<Target>, deny: bool)
      modifies this
      ensures Value() == AddTargets(old(Value()), targets, deny)
    {
      ghost var start := Value();
      for j := 0 to |targets|
        invariant Value() == AddTargets(start, targets[..j], deny)
      {
        assert targets[..j + 1][..j] == targets[..j];
        AddScopeTarget(targets[j], deny);
      }
      assert targets[..|targets|] == targets;
    }

    method AddDirectIds(perm: Permission)
      modifies this
      ensures Value() == AddIds(old(Value()), perm)
    {
      if perm.configId.Some? { AddConfigScope(UNRESTRICTED.(id := perm.configId.value), perm.deny); }
      if perm.componentId.Some? { AddComponentScope(UNRESTRICTED.(id := perm.componentId.value), perm.deny); }
      if perm.playbookId.Some? { AddPlaybookScope(UNRESTRICTED.(id := perm.playbookId.value), perm.deny); }
      if perm.canaryId.Some? { AddCanaryScope(UNRESTRICTED.(id := perm.canaryId.value), perm.deny); }
    }

    /** Adds one permission row; false when a scope query fails. */
    method AddPermissionRow(perm: Permission, table: ScopeTable) returns (ok: bool)
      modifies this
      ensures ok == AddPermission(old(Value()), perm, table).Some?
      ensures ok ==> Value() == AddPermission(old(Value()), perm, table).value
    {
      AddDirectIds(perm);
      if !perm.selector.Selectors? {
        return true;
      }
      ok := ProcessScopeRefs(perm.selector.scopes, table, perm.deny);
      if ok {
        AddObjectSelectors(perm.selector, perm.deny);
      }
    }

    method AddObjectSelectors(sel: ObjectSelector, deny: bool)
      requires sel.Selectors?
      modifies this
      ensures Value() == AddViews(
        AddSelectors(AddSelectors(AddSelectors(old(Value()), Config, sel.configs, deny),
                                  Component, sel.components, deny),
                     Playbook, sel.playbooks, deny), sel.views, deny)
    {
      ghost var p := Value();
      for i := 0 to |sel.configs|
        invariant Value() == AddSelectors(p, Config, sel.configs[..i], deny)
      {
        assert sel.configs[..i + 1][..i] == sel.configs[..i];
        AddConfigScope(ConvertSelector(sel.configs[i]), deny);
      }
      assert sel.configs[..|sel.configs|] == sel.configs;
      ghost var q := Value();
      for i := 0 to |sel.components|
        invariant Value() == AddSelectors(q, Component, sel.components[..i], deny)
      {
        assert sel.components[..i + 1][..i] == sel.components[..i];
        AddComponentScope(ConvertSelector(sel.components[i]), deny);
      }
      assert sel.components[..|sel.components|] == sel.components;
      AddPlaybooksAndViews(sel, deny);
    }

    method AddPlaybooksAndViews(sel: ObjectSelector, deny: bool)
      requires sel.Selectors?
      modifies this
      ensures Value() == AddViews(AddSelectors(old(Value()), Playbook, sel.playbooks, deny), sel.views, deny)
    {
      ghost var r := Value();
      for i := 0 to |sel.playbooks|
        invariant Value() == AddSelectors(r, Playbook, sel.playbooks[..i], deny)
      {
        assert sel.playbooks[..i + 1][..i] == sel.playbooks[..i];
        AddPlaybookScope(ConvertSelector(sel.playbooks[i]), deny);
      }
      assert sel.playbooks[..|sel.playbooks|] == sel.playbooks;
      ghost var s := Value();
      for i := 0 to |sel.views|
        invariant Value() == AddViews(s, sel.views[..i], deny)
      {
        assert sel.views[..i + 1][..i] == sel.views[..i];
        AddViewScope(ConvertViewRef(sel.views[i]), deny);
      }
      assert sel.views[..|sel.views|] == sel.views;
    }
  }

  lemma {:induction false} RefsBreak(p: Payload, refs: seq<ScopeRef>, i: nat, table: ScopeTable, deny: bool)
    requires i < |refs| && table(refs[i]).Broken?
    ensures AddRefs(p, refs, table, deny).None?
  {
    if i < |refs| - 1 { RefsBreak(p, refs[..|refs| - 1], i, table, deny); }
  }

  lemma {:induction false} BuildBreaks(perms: seq<Permission>, i: nat, table: ScopeTable)
    requires i < |perms| && Build(perms[..i + 1], table).None?
    ensures Build(perms, table).None?
  {
    if i + 1 < |perms| {
      assert perms[..|perms| - 1][..i + 1] == perms[..i + 1];
      BuildBreaks(perms[..|perms| - 1], i, table);
    } else {
      assert perms[..i + 1] == perms;
    }
  }

  /** Fills a fresh payload row by row. */
  method BuildRlsPayloadFromScopes(perms: seq<Permission>, table: ScopeTable) returns (payload: PayloadObject?)
    ensures payload == null <==> Build(perms, table).None?
    ensures payload != null ==> fresh(payload) && payload.Value() == Build(perms, table).value
  {
    var built := new PayloadObject();
    for i := 0 to |perms|
      invariant fresh(built) && Build(perms[..i], table) == Some(built.Value())
    {
      assert perms[..i + 1][..i] == perms[..i];
      var ok := built.AddPermissionRow(perms[i], table);
      if !ok {
        BuildBreaks(perms, i, table);
        return null;
      }
    }
    assert perms[..|perms|] == perms;
    return built;
  }
}
