/**
 The life of an access token (auth/tokens.go, db/people.go): a row in the database, copies in a cache whose entries
 expire, and a blacklist of deleted ids whose entries expire as well.
 */
module AccessTokens {
  import opened Base

  /** Times and durations in seconds. */
  const HOUR := 3600
  const DAY := 24 * HOUR
  const PRE_EXPIRY_WINDOW := 15 * DAY
  const EXPIRY_EXTENSION := 30 * DAY

  datatype Token = Token(id: string, hash: string, expires: Option<int>, autoRenew: bool, person: string)

  // ---------------------------------------------------------------- caches whose entries expire

  datatype Item<V> = Item(value: V, until: Option<int>)

  /** A lifetime of zero stands for the cache's default, a negative one for no end at all. */
  function Until(fallback: int, now: int, ttl: int): Option<int> {
    var lifetime := if ttl == 0 then fallback else ttl;
    if lifetime > 0 then Some(now + lifetime) else None
  }

  predicate Alive<V>(items: map<string, Item<V>>, key: string, now: int) {
    key in items && (items[key].until.Some? ==> now <= items[key].until.value)
  }

  // ---------------------------------------------------------------- the machine

  datatype State = State(now: int, db: map<string, Token>, used: set<string>,
                         cache: map<string, Item<Token>>, deleted: map<string, Item<bool>>)

  datatype Outcome = Returned(token: Token) | Rejected | Absent | Failed

  datatype Fault = NoFault | LookupFails | RenewalFails

  datatype Deletion = PersonFails | DeleteFails | Completed

  /** The text of a token either does not parse or has a hash. */
  type Parser = string -> Option<string>

  predicate Blacklisted(s: State, id: string) {
    Alive(s.deleted, id, s.now)
  }

  predicate DueForRenewal(token: Token, now: int) {
    token.expires.Some? && token.expires.value - now < PRE_EXPIRY_WINDOW && token.autoRenew
  }

  /** `found` is the row with the hash of the text; `later` is the clock when the lifetime of the copy is computed. */
  datatype Query = Query(text: string, found: Option<string>, later: int, fault: Fault)

  predicate Answers(s: State, parse: Parser, q: Query) {
    && q.later >= s.now
    && (parse(q.text).Some? ==>
          match q.found
          case None => forall id :: id in s.db ==> s.db[id].hash != parse(q.text).value
          case Some(id) => id in s.db && s.db[id].hash == parse(q.text).value)
  }

  function Remember(s: State, text: string, token: Token, ttl: int): State {
    s.(cache := s.cache[text := Item(token, Until(HOUR, s.now, ttl))])
  }

  function Renewed(s: State, token: Token): State {
    if DueForRenewal(token, s.now)
    then s.(db := s.db[token.id := token.(expires := Some(s.now + EXPIRY_EXTENSION))])
    else s
  }

  /** A copy that is missing from the cache comes from the database. */
  function FromDatabase(s: State, text: string, token: Token, later: int, renewalFails: bool): (State, Outcome) {
    if Blacklisted(s, token.id) then (s, Rejected)
    else if token.expires.None? then (Remember(s, text, token, -1), Returned(token))
    else if token.expires.value < s.now then (s, Rejected)
    else if DueForRenewal(token, s.now) && renewalFails then (s, Failed)
    else (Remember(Renewed(s, token).(now := later), text, token, token.expires.value - later), Returned(token))
  }

  function Get(s: State, parse: Parser, q: Query): (State, Outcome)
    requires Answers(s, parse, q)
  {
    if Alive(s.cache, q.text, s.now) then
      (s, if Blacklisted(s, s.cache[q.text].value.id) then Rejected else Returned(s.cache[q.text].value))
    else if parse(q.text).None? || q.fault == LookupFails then (s, Failed)
    else if q.found.None? then (s, Absent)
    else FromDatabase(s, q.text, s.db[q.found.value], q.later, q.fault == RenewalFails)
  }

  /** The row has an expiry in the past. */
  predicate Expired(row: Token, now: int) {
    row.expires.Some? && row.expires.value < now
  }

  /** The row renews itself and has less than fifteen days left. */
  predicate RunsOut(row: Token, now: int) {
    row.autoRenew && row.expires.Some? && row.expires.value < now + 15 * 24 * 3600
  }

  /**
   The last moment of a copy made at `later`: that of the row if this is still ahead.  A lifetime of zero falls back
   to an hour, and a negative one, like that of a row without expiry, has no end.
   */
  function EndOfCopy(row: Token, later: int): Option<int> {
    if row.expires.None? || row.expires.value < later then None
    else if row.expires.value == later then Some(later + 3600)
    else row.expires
  }

  /** What becomes of a text with a live copy: the copy, unless its token is listed as deleted. */
  ghost predicate CopyAnswers(s: State, q: Query, t: State, o: Outcome)
    requires q.text in s.cache
  {
    var copy := s.cache[q.text].value;
    t == s && o == if Alive(s.deleted, copy.id, s.now) then Rejected else Returned(copy)
  }

  /** What becomes of a text without one: `row` is what the database has for it. */
  ghost predicate RowAnswers(s: State, q: Query, row: Token, t: State, o: Outcome) {
    var listed := Alive(s.deleted, row.id, s.now);
    && (o == Rejected <==> listed || Expired(row, s.now))
    && (o == Failed <==> !listed && !Expired(row, s.now) && RunsOut(row, s.now) && q.fault == RenewalFails)
    && (o != Rejected && o != Failed ==> o == Returned(row))
    && (!o.Returned? ==> t == s)
    && (o.Returned? ==>
          && t.db == (if RunsOut(row, s.now) then s.db[row.id := row.(expires := Some(s.now + 30 * 24 * 3600))]
                      else s.db)
          && t.cache == s.cache[q.text := Item(row, EndOfCopy(row, q.later))]
          && t.used == s.used && t.deleted == s.deleted && t.now == if row.expires.Some? then q.later else s.now)
  }

  /** The outcome of a fetch and the state it leaves, judged by the copy, the row, the blacklist and the clock. */
  ghost predicate Fetched(s: State, parse: Parser, q: Query, t: State, o: Outcome)
    requires Answers(s, parse, q)
  {
    if Alive(s.cache, q.text, s.now) then CopyAnswers(s, q, t, o)
    else if parse(q.text).None? || q.fault == LookupFails then t == s && o == Failed
    else if q.found.None? then t == s && o == Absent
    else RowAnswers(s, q, s.db[q.found.value], t, o)
  }

  /** Every fetch ends as it should: a valid token is returned and, when it runs out, renewed for thirty days. */
  lemma GetFetches(s: State, parse: Parser, q: Query)
    requires Answers(s, parse, q)
    ensures Fetched(s, parse, q, Get(s, parse, q).0, Get(s, parse, q).1)
  {
    if !Alive(s.cache, q.text, s.now) && parse(q.text).Some? && q.fault != LookupFails && q.found.Some? {
      RowFetches(s, q, s.db[q.found.value]);
    }
  }

  lemma RowFetches(s: State, q: Query, row: Token)
    requires q.later >= s.now
    ensures var (t, o) := FromDatabase(s, q.text, row, q.later, q.fault == RenewalFails); RowAnswers(s, q, row, t, o)
  {
  }

  /** The blacklist entry comes first, whatever fails afterwards. */
  function Delete(s: State, id: string, deletion: Deletion): State {
    if id !in s.db then s
    else
      var marked := s.(deleted := s.deleted[id := Item(true, Until(DAY, s.now, 0))]);
      if deletion.Completed? then marked.(db := marked.db - {id}) else marked
  }

  datatype Step =
    | Tick(to: int)
    | Create(token: Token)
    | Fetch(q: Query)
    | Remove(id: string, deletion: Deletion)
    | Flush

  ghost predicate Enabled(s: State, parse: Parser, step: Step) {
    match step
    case Tick(to) => to >= s.now
    case Create(token) => token.id !in s.used
    case Fetch(q) => Answers(s, parse, q)
    case Remove(_, _) => true
    case Flush => true
  }

  ghost function Next(s: State, parse: Parser, step: Step): State
    requires Enabled(s, parse, step)
  {
    match step
    case Tick(to) => s.(now := to)
    case Create(token) => s.(db := s.db[token.id := token], used := s.used + {token.id})
    case Fetch(q) => Get(s, parse, q).0
    case Remove(id, deletion) => Delete(s, id, deletion)
    case Flush => s.(cache := map[])
  }

  /** A run from a given state. */
  datatype Run = Stay | Then(before: Run, step: Step)

  ghost predicate Runs(s: State, parse: Parser, run: Run)
    decreases run, 0
  {
    run.Then? ==> Runs(s, parse, run.before) && Enabled(After(s, parse, run.before), parse, run.step)
  }

  ghost function After(s: State, parse: Parser, run: Run): State
    requires Runs(s, parse, run)
    decreases run, 1
  {
    match run
    case Stay => s
    case Then(before, step) => Next(After(s, parse, before), parse, step)
  }

  lemma OneStep(s: State, parse: Parser, step: Step)
    requires Enabled(s, parse, step)
    ensures Runs(s, parse, Then(Stay, step)) && After(s, parse, Then(Stay, step)) == Next(s, parse, step)
  {
    assert Runs(s, parse, Stay) && After(s, parse, Stay) == s;
  }

  /** The state a process starts in: nothing cached, nothing blacklisted. */
  ghost predicate Initial(s: State) {
    (forall id :: id in s.db ==> s.db[id].id == id) && s.used == s.db.Keys && s.cache == map[] && s.deleted == map[]
  }

  ghost predicate Inv(s: State) {
    && (forall id :: id in s.db ==> s.db[id].id == id && id in s.used)
    && (forall text :: text in s.cache ==> s.cache[text].value.id in s.used)
  }

  lemma StepKeepsInv(s: State, parse: Parser, step: Step)
    requires Inv(s) && Enabled(s, parse, step)
    ensures Inv(Next(s, parse, step)) && Next(s, parse, step).now >= s.now
    ensures s.used <= Next(s, parse, step).used
  {
    if step.Fetch? { FetchKeepsInv(s, parse, step.q); }
  }

  lemma FetchKeepsInv(s: State, parse: Parser, q: Query)
    requires Inv(s) && Answers(s, parse, q)
    ensures Inv(Get(s, parse, q).0) && Get(s, parse, q).0.now >= s.now && Get(s, parse, q).0.used == s.used
  {
  }

  lemma {:induction false} RunKeepsInv(s: State, parse: Parser, run: Run)
    requires Inv(s) && Runs(s, parse, run)
    ensures Inv(After(s, parse, run)) && After(s, parse, run).now >= s.now
    ensures s.used <= After(s, parse, run).used
  {
    if run.Then? {
      RunKeepsInv(s, parse, run.before);
      StepKeepsInv(After(s, parse, run.before), parse, run.step);
    }
  }

  ghost predicate Returns(s: State, parse: Parser, q: Query, id: string) {
    Answers(s, parse, q) && Get(s, parse, q).1.Returned? && Get(s, parse, q).1.token.id == id
  }

  // ---------------------------------------------------------------- the blacklist

  ghost predicate ListedUntil(s: State, id: string, end: int) {
    id in s.deleted && s.deleted[id].until.Some? && s.deleted[id].until.value >= end
  }

  lemma {:induction false} StaysListed(s: State, parse: Parser, run: Run, id: string, end: int)
    requires Runs(s, parse, run) && Inv(s) && ListedUntil(s, id, end) && end <= s.now + DAY
    ensures ListedUntil(After(s, parse, run), id, end)
  {
    if run.Then? {
      StaysListed(s, parse, run.before, id, end);
      RunKeepsInv(s, parse, run.before);
      StepKeepsListed(After(s, parse, run.before), parse, run.step, id, end);
    }
  }

  lemma StepKeepsListed(s: State, parse: Parser, step: Step, id: string, end: int)
    requires Enabled(s, parse, step) && ListedUntil(s, id, end) && end <= s.now + DAY
    ensures ListedUntil(Next(s, parse, step), id, end)
  {
  }

  /**
   A deletion that found its row takes effect at once: for a day no call returns the token, even when the person
   lookup or the database delete failed, and whatever happens in between.
   */
  lemma DeletedIsHiddenForADay(s: State, parse: Parser, id: string, deletion: Deletion, run: Run, q: Query)
    requires Inv(s) && id in s.db && Runs(Delete(s, id, deletion), parse, run)
    requires After(Delete(s, id, deletion), parse, run).now <= s.now + DAY
    ensures !Returns(After(Delete(s, id, deletion), parse, run), parse, q, id)
  {
    var marked := Delete(s, id, deletion);
    assert Next(s, parse, Remove(id, deletion)) == marked;
    StepKeepsInv(s, parse, Remove(id, deletion));
    StaysListed(marked, parse, run, id, s.now + DAY);
    RunKeepsInv(marked, parse, run);
  }

  /** A cached copy of the token lives past `end`. */
  ghost predicate Outlives(s: State, id: string, end: int) {
    exists text :: text in s.cache && s.cache[text].value.id == id
                   && (s.cache[text].until.None? || s.cache[text].until.value > end)
  }

  ghost predicate Gone(s: State, id: string, end: int) {
    id !in s.db && id in s.used && ListedUntil(s, id, end) && !Outlives(s, id, end)
  }

  lemma StepKeepsGone(s: State, parse: Parser, step: Step, id: string, end: int)
    requires Inv(s) && Enabled(s, parse, step) && Gone(s, id, end)
    ensures Gone(Next(s, parse, step), id, end)
  {
    var s' := Next(s, parse, step);
    forall text | text in s'.cache && s'.cache[text].value.id == id
      ensures s'.cache[text].until.Some? && s'.cache[text].until.value <= end
    {
      assert text in s.cache && s'.cache[text] == s.cache[text];
    }
  }

  lemma {:induction false} StaysGone(s: State, parse: Parser, run: Run, id: string, end: int)
    requires Inv(s) && Runs(s, parse, run) && Gone(s, id, end)
    ensures Gone(After(s, parse, run), id, end)
  {
    if run.Then? {
      StaysGone(s, parse, run.before, id, end);
      RunKeepsInv(s, parse, run.before);
      StepKeepsGone(After(s, parse, run.before), parse, run.step, id, end);
    }
  }

  lemma GoneIsNotReturned(s: State, parse: Parser, q: Query, id: string, end: int)
    requires Inv(s) && Gone(s, id, end)
    ensures !Returns(s, parse, q, id)
  {
  }

  ghost predicate ComesBack(s: State, parse: Parser, id: string) {
    exists run, q :: Runs(s, parse, run) && Returns(After(s, parse, run), parse, q, id)
  }

  /**
   After a completed deletion some run returns the token again exactly when a cached copy outlives the blacklist
   entry. The cached lifetime is that of the token itself, so this takes no more than one use of a token that had more
   than a day to live, or that never expired.
   */
  lemma DeletedComesBackIff(s: State, parse: Parser, id: string)
    requires Inv(s) && id in s.db
    ensures ComesBack(Delete(s, id, Completed), parse, id) <==> Outlives(s, id, s.now + DAY)
  {
    var gone, end := Delete(s, id, Completed), s.now + DAY;
    assert Next(s, parse, Remove(id, Completed)) == gone;
    StepKeepsInv(s, parse, Remove(id, Completed));
    if Outlives(s, id, end) {
      WaitsOut(s, parse, id);
    } else {
      forall run, q | Runs(gone, parse, run) ensures !Returns(After(gone, parse, run), parse, q, id) {
        StaysGone(gone, parse, run, id, end);
        RunKeepsInv(gone, parse, run);
        GoneIsNotReturned(After(gone, parse, run), parse, q, id, end);
      }
    }
  }

  lemma WaitsOut(s: State, parse: Parser, id: string)
    requires Inv(s) && id in s.db && Outlives(s, id, s.now + DAY)
    ensures ComesBack(Delete(s, id, Completed), parse, id)
  {
    var gone := Delete(s, id, Completed);
    var text :| text in s.cache && s.cache[text].value.id == id
                && (s.cache[text].until.None? || s.cache[text].until.value > s.now + DAY);
    var run := Then(Stay, Tick(s.now + DAY + 1));
    OneStep(gone, parse, Tick(s.now + DAY + 1));
    var waited := After(gone, parse, run);
    var q := AnyQuery(waited, parse, text);
    assert Returns(waited, parse, q, id);
  }

  lemma AnyQuery(s: State, parse: Parser, text: string) returns (q: Query)
    ensures Answers(s, parse, q) && q.text == text
  {
    q := Query(text, None, s.now, NoFault);
    if parse(text).Some? && exists id :: id in s.db && s.db[id].hash == parse(text).value {
      var id :| id in s.db && s.db[id].hash == parse(text).value;
      q := q.(found := Some(id));
    }
  }

  // ---------------------------------------------------------------- renewal

  ghost predicate NoEarlier(a: Option<int>, b: Option<int>) {
    if a.None? then b.None? else b.Some? && b.value >= a.value
  }

  lemma StepKeepsExpiry(s: State, parse: Parser, step: Step, id: string)
    requires Inv(s) && Enabled(s, parse, step) && id in s.db && id in Next(s, parse, step).db
    ensures NoEarlier(s.db[id].expires, Next(s, parse, step).db[id].expires)
  {
  }

  /** Ids are not used twice. */
  lemma StillThere(s: State, parse: Parser, step: Step, id: string)
    requires Inv(s) && Enabled(s, parse, step) && id in s.used && id in Next(s, parse, step).db
    ensures id in s.db
  {
  }

  /** Whatever else happens, the expiry stored for a token never moves to an earlier time. */
  lemma {:induction false} ExpiryNeverDecreases(s: State, parse: Parser, run: Run, id: string)
    requires Inv(s) && Runs(s, parse, run) && id in s.db && id in After(s, parse, run).db
    ensures NoEarlier(s.db[id].expires, After(s, parse, run).db[id].expires)
  {
    if run.Then? {
      var mid := After(s, parse, run.before);
      RunKeepsInv(s, parse, run.before);
      StillThere(mid, parse, run.step, id);
      ExpiryNeverDecreases(s, parse, run.before, id);
      StepKeepsExpiry(mid, parse, run.step, id);
    }
  }

  // ---------------------------------------------------------------- expiry of what is returned

  /** The call stores a copy of a token that expires. */
  ghost predicate Caches(s: State, parse: Parser, q: Query) {
    Answers(s, parse, q) && !Alive(s.cache, q.text, s.now) && Get(s, parse, q).1.Returned?
    && Get(s, parse, q).1.token.expires.Some?
  }

  /** The lifetime of a copy is computed strictly before the token expires. */
  ghost predicate Prompt(s: State, parse: Parser, step: Step) {
    step.Fetch? && Caches(s, parse, step.q) ==> step.q.later < Get(s, parse, step.q).1.token.expires.value
  }

  /** A new copy ends with its token exactly when the second clock read comes before the expiry. */
  lemma CopyEndsWithTokenIff(s: State, parse: Parser, q: Query)
    requires Caches(s, parse, q)
    ensures var token, item := Get(s, parse, q).1.token, Get(s, parse, q).0.cache[q.text];
            && item.value == token
            && ((item.until.Some? && item.until.value <= token.expires.value) <==> q.later < token.expires.value)
            && (item.until.None? <==> q.later > token.expires.value)
  {
  }

  ghost predicate PromptRun(s: State, parse: Parser, run: Run)
    requires Runs(s, parse, run)
    decreases run
  {
    run.Then? ==> PromptRun(s, parse, run.before) && Prompt(After(s, parse, run.before), parse, run.step)
  }

  /** No copy outlives the expiry stored for its token. */
  ghost predicate CopiesEnd(s: State) {
    forall text :: text in s.cache && s.cache[text].value.id in s.db && s.db[s.cache[text].value.id].expires.Some? ==>
      s.cache[text].until.Some? && s.cache[text].until.value <= s.db[s.cache[text].value.id].expires.value
  }

  lemma StepKeepsCopiesEnd(s: State, parse: Parser, step: Step)
    requires Inv(s) && Enabled(s, parse, step) && CopiesEnd(s) && Prompt(s, parse, step)
    ensures CopiesEnd(Next(s, parse, step))
  {
    if step.Fetch? { FetchKeepsCopiesEnd(s, parse, step.q); }
  }

  lemma FetchKeepsCopiesEnd(s: State, parse: Parser, q: Query)
    requires Inv(s) && Answers(s, parse, q) && CopiesEnd(s) && Prompt(s, parse, Fetch(q))
    ensures CopiesEnd(Get(s, parse, q).0)
  {
    if Get(s, parse, q).0 != s {
      var token := s.db[q.found.value];
      if token.expires.None? {
        RememberedForever(s, q.text, token);
      } else {
        RememberedEnds(s, q.text, token, q.later);
      }
    }
  }

  lemma RememberedForever(s: State, text: string, token: Token)
    requires CopiesEnd(s) && token.id in s.db && s.db[token.id] == token && token.expires.None?
    ensures CopiesEnd(Remember(s, text, token, -1))
  {
  }

  lemma RenewedEnds(s: State, token: Token)
    requires CopiesEnd(s) && token.id in s.db && s.db[token.id] == token
    ensures CopiesEnd(Renewed(s, token)) && token.id in Renewed(s, token).db
    ensures NoEarlier(token.expires, Renewed(s, token).db[token.id].expires)
  {
  }

  lemma RememberedEnds(s: State, text: string, token: Token, later: int)
    requires CopiesEnd(s) && token.id in s.db && s.db[token.id] == token && token.expires.Some?
    requires later < token.expires.value
    ensures CopiesEnd(Remember(Renewed(s, token).(now := later), text, token, token.expires.value - later))
  {
    RenewedEnds(s, token);
    CopyAdded(Renewed(s, token).(now := later), text, token);
  }

  lemma CopyAdded(s: State, text: string, token: Token)
    requires CopiesEnd(s) && token.id in s.db && token.expires.Some? && s.now < token.expires.value
    requires NoEarlier(token.expires, s.db[token.id].expires)
    ensures CopiesEnd(Remember(s, text, token, token.expires.value - s.now))
  {
  }

  lemma {:induction false} RunKeepsCopiesEnd(s: State, parse: Parser, run: Run)
    requires Initial(s) && Runs(s, parse, run) && PromptRun(s, parse, run)
    ensures CopiesEnd(After(s, parse, run))
  {
    if run.Then? {
      RunKeepsCopiesEnd(s, parse, run.before);
      RunKeepsInv(s, parse, run.before);
      StepKeepsCopiesEnd(After(s, parse, run.before), parse, run.step);
    }
  }

  /** Every returned token whose row still exists is unexpired against that row, although copies keep older expiries. */
  lemma ReturnedIsUnexpired(s: State, parse: Parser, run: Run, q: Query, id: string)
    requires Initial(s) && Runs(s, parse, run) && PromptRun(s, parse, run)
    requires Returns(After(s, parse, run), parse, q, id) && id in After(s, parse, run).db
    ensures var at := After(s, parse, run); at.db[id].expires.Some? ==> at.now <= at.db[id].expires.value
  {
    RunKeepsCopiesEnd(s, parse, run);
    RunKeepsInv(s, parse, run);
  }

  /** Removing a token that has at most a day to live is final. */
  lemma LateDeletionIsFinal(s: State, parse: Parser, run: Run, id: string)
    requires Initial(s) && Runs(s, parse, run) && PromptRun(s, parse, run)
    requires id in After(s, parse, run).db
    requires After(s, parse, run).db[id].expires.Some?
             && After(s, parse, run).db[id].expires.value <= After(s, parse, run).now + DAY
    ensures !ComesBack(Delete(After(s, parse, run), id, Completed), parse, id)
  {
    RunKeepsCopiesEnd(s, parse, run);
    RunKeepsInv(s, parse, run);
    DeletedComesBackIff(After(s, parse, run), parse, id);
  }

  /** The clock passes the expiry between the check and the computation of the lifetime: the copy never expires. */
  lemma LateCopyIsReturnedForever(s: State, parse: Parser, q: Query, to: int)
    requires Inv(s) && Caches(s, parse, q) && q.later > Get(s, parse, q).1.token.expires.value && to >= q.later
    requires !Blacklisted(Get(s, parse, q).0.(now := to), Get(s, parse, q).1.token.id)
    ensures var token := Get(s, parse, q).1.token;
            var run := Then(Then(Stay, Fetch(q)), Tick(to));
            && Runs(s, parse, run)
            && to > token.expires.value
            && token.id in After(s, parse, run).db
            && (!DueForRenewal(token, s.now) ==> After(s, parse, run).db[token.id].expires == token.expires)
            && forall again :: Answers(After(s, parse, run), parse, again) && again.text == q.text ==>
                                 Get(After(s, parse, run), parse, again).1 == Returned(token)
  {
    OneStep(s, parse, Fetch(q));
    assert Runs(s, parse, Then(Then(Stay, Fetch(q)), Tick(to)));
    LateCopy(s, parse, q);
  }

  lemma LateCopy(s: State, parse: Parser, q: Query)
    requires Inv(s) && Caches(s, parse, q) && q.later > Get(s, parse, q).1.token.expires.value
    ensures var t, token := Get(s, parse, q).0, Get(s, parse, q).1.token;
            && q.text in t.cache && t.cache[q.text] == Item(token, None) && token.id in t.db
            && (!DueForRenewal(token, s.now) ==> t.db[token.id].expires == token.expires)
  {
  }
}

/** The functions of the source, on caches and rows that they change in place. */
module AccessTokenStore {
  import opened Base
  import opened AccessTokens

  class ExpiringCache<V(!new)> {
    var items: map<string, Item<V>>
    const fallback: int

    constructor (fallback: int)
      ensures items == map[] && this.fallback == fallback
    {
      items := map[];
      this.fallback := fallback;
    }

    method Set(now: int, key: string, value: V, ttl: int)
      modifies this
      ensures items == old(items)[key := Item(value, Until(fallback, now, ttl))]
      ensures ttl > 0 ==> items[key].until == Some(now + ttl)
      ensures ttl == 0 && fallback > 0 ==> items[key].until == Some(now + fallback)
      ensures ttl < 0 ==> items[key].until.None?
    {
      var until := None;
      var lifetime := if ttl == 0 then fallback else ttl;
      if lifetime > 0 {
        until := Some(now + lifetime);
      }
      items := items[key := Item(value, until)];
    }

    method Lookup(now: int, key: string) returns (value: Option<V>)
      ensures value == if Alive(items, key, now) then Some(items[key].value) else None
      ensures value.Some? <==> key in items && (items[key].until.None? || now <= items[key].until.value)
    {
      if key !in items { return None; }
      var item := items[key];
      if item.until.Some? && now > item.until.value { return None; }
      return Some(item.value);
    }

    method Flush()
      modifies this
      ensures items == map[]
    {
      items := map[];
    }
  }

  class Store {
    var now: int
    var db: map<string, Token>
    ghost var used: set<string>
    const tokenCache: ExpiringCache<Token>
    const deletedTokensCache: ExpiringCache<bool>

    constructor (now: int, db: map<string, Token>)
      requires forall id :: id in db ==> db[id].id == id
      ensures Ready() && Initial(View())
      ensures fresh(tokenCache) && fresh(deletedTokensCache)
      ensures this.now == now && this.db == db
    {
      this.now := now;
      this.db := db;
      used := db.Keys;
      tokenCache := new ExpiringCache(HOUR);
      deletedTokensCache := new ExpiringCache(DAY);
    }

    ghost predicate Ready() {
      tokenCache.fallback == HOUR && deletedTokensCache.fallback == DAY
    }

    ghost function View(): State
      reads this, tokenCache, deletedTokensCache
    {
      State(now, db, used, tokenCache.items, deletedTokensCache.items)
    }

    method CreateAccessToken(token: Token)
      requires Ready() && token.id !in used
      modifies `db, `used
      ensures View() == old(View()).(db := old(db)[token.id := token], used := old(used) + {token.id})
    {
      db := db[token.id := token];
      used := used + {token.id};
    }

    method GetAccessToken(parse: Parser, q: Query) returns (outcome: Outcome)
      requires Ready() && Answers(View(), parse, q)
      modifies `now, `db, tokenCache
      ensures (View(), outcome) == Get(old(View()), parse, q)
      ensures Fetched(old(View()), parse, q, View(), outcome)
    {
      GetFetches(View(), parse, q);
      var cached := tokenCache.Lookup(now, q.text);
      if cached.Some? {
        var marked := deletedTokensCache.Lookup(now, cached.value.id);
        return if marked.Some? then Rejected else Returned(cached.value);
      }
      if parse(q.text).None? || q.fault == LookupFails { return Failed; }
      if q.found.None? { return Absent; }
      var token := db[q.found.value];
      var deleted := deletedTokensCache.Lookup(now, token.id);
      if deleted.Some? { return Rejected; }
      outcome := Admit(q.text, token, q.later, q.fault == RenewalFails);
    }

    /** A row that is not blacklisted is checked, renewed when due, and cached for as long as it has to live. */
    method Admit(text: string, token: Token, later: int, renewalFails: bool) returns (outcome: Outcome)
      requires Ready() && !Blacklisted(View(), token.id)
      modifies `now, `db, tokenCache
      ensures (View(), outcome) == FromDatabase(old(View()), text, token, later, renewalFails)
    {
      if token.expires.None? {
        tokenCache.Set(now, text, token, -1);
        return Returned(token);
      }
      var expiry := token.expires.value;
      if expiry < now { return Rejected; }
      if expiry - now < PRE_EXPIRY_WINDOW && token.autoRenew {
        if renewalFails { return Failed; }
        db := db[token.id := token.(expires := Some(now + EXPIRY_EXTENSION))];
      }
      now := later;
      tokenCache.Set(now, text, token, expiry - now);
      return Returned(token);
    }

    method DeleteAccessToken(id: string, deletion: Deletion) returns (ok: bool)
      requires Ready()
      modifies `db, deletedTokensCache
      ensures View() == Delete(old(View()), id, deletion)
      ensures ok <==> id in old(db) && deletion.Completed?
      ensures db == if ok then old(db) - {id} else old(db)
      ensures deletedTokensCache.items ==
              if id in old(db) then old(deletedTokensCache.items)[id := Item(true, Some(now + 24 * 3600))]
              else old(deletedTokensCache.items)
    {
      if id !in db { return false; }
      deletedTokensCache.Set(now, id, true, 0);
      if deletion.PersonFails? { return false; }
      if deletion.DeleteFails? { return false; }
      db := db - {id};
      return true;
    }

    method FlushTokenCache()
      requires Ready()
      modifies tokenCache
      ensures View() == old(View()).(cache := map[])
    {
      tokenCache.Flush();
    }
  }
}
