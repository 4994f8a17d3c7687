/**
 Choosing a bearer token from captured browser storage (clientcmd/connection_browser.go): the best token for each
 audience is extracted, and the best of those that meet the requirements is selected. Go iterates over maps in any
 order, so the loops here take any remaining key.
 */
module BearerTokens {
  import opened Base
  import opened Text

  /** A token without an expiry claim has the zero time, here `None`, which lies in the past. */
  datatype Jwt = Jwt(audience: string, scopes: string, expires: Option<int>)

  /** JSON and base64 are left open: what secret a storage value holds, and what claims a secret decodes to. */
  datatype Codec = Codec(secret: string -> Option<string>, decode: string -> Option<Jwt>)

  /** Browser storage, or the tokens kept for each audience. */
  type Strings = map<string, string>

  datatype Requirement = Requirement(audience: string, scope: string)

  predicate Contains(text: string, part: string)
    decreases |text|
  {
    part <= text || (text != [] && Contains(text[1..], part))
  }

  predicate OccursAt(text: string, part: string, i: int) {
    0 <= i <= |text| - |part| && text[i..i + |part|] == part
  }

  lemma OccursLater(text: string, part: string, i: nat)
    requires text != []
    ensures OccursAt(text, part, i + 1) <==> OccursAt(text[1..], part, i)
  {
    if i + 1 <= |text| - |part| { assert text[i + 1..i + 1 + |part|] == text[1..][i..i + |part|]; }
  }

  lemma {:induction false} ContainsIff(text: string, part: string)
    ensures Contains(text, part) <==> exists i :: OccursAt(text, part, i)
    decreases |text|
  {
    assert part <= text <==> OccursAt(text, part, 0);
    if text != [] {
      ContainsIff(text[1..], part);
      if Contains(text[1..], part) {
        var i :| OccursAt(text[1..], part, i);
        OccursLater(text, part, i);
      }
      if i :| OccursAt(text, part, i) && i > 0 { OccursLater(text, part, i - 1); }
    }
  }

  /** The number of maximal runs of characters that are not white space. */
  function FieldCount(text: string): nat {
    if text == [] then 0
    else
      var last := |text| - 1;
      FieldCount(text[..last]) + if !IsSpace(text[last]) && (last == 0 || IsSpace(text[last - 1])) then 1 else 0
  }

  /** The words with the gaps around them: gap, word, gap, word, ..., gap. */
  function Spread(words: seq<string>, gaps: seq<string>): string
    requires |gaps| == |words| + 1
  {
    if words == [] then gaps[0]
    else
      var last := |words| - 1;
      Spread(words[..last], gaps[..|words|]) + words[last] + gaps[|words|]
  }

  ghost predicate IsWord(word: string) {
    word != "" && forall k :: 0 <= k < |word| ==> !IsSpace(word[k])
  }

  /** Words without white space, kept apart by white space. */
  ghost predicate Apart(words: seq<string>, gaps: seq<string>) {
    && |gaps| == |words| + 1
    && (forall k :: 0 <= k < |words| ==> IsWord(words[k]))
    && (forall k :: 0 <= k < |gaps| ==> AllSpace(gaps[k]))
    && (forall k :: 0 < k < |words| ==> gaps[k] != "")
  }

  lemma {:induction false} GapAddsNothing(text: string, gap: string)
    requires AllSpace(gap)
    ensures FieldCount(text + gap) == FieldCount(text)
  {
    if gap == "" {
      assert text + gap == text;
    } else {
      GapAddsNothing(text, gap[..|gap| - 1]);
      assert (text + gap)[..|text + gap| - 1] == text + gap[..|gap| - 1];
    }
  }

  lemma {:induction false} WordAddsOne(text: string, word: string)
    requires IsWord(word) && (text == "" || IsSpace(text[|text| - 1]))
    ensures FieldCount(text + word) == FieldCount(text) + 1
  {
    var front := word[..|word| - 1];
    assert (text + word)[..|text + word| - 1] == text + front;
    if front == "" {
      assert text + front == text;
    } else {
      WordAddsOne(text, front);
    }
  }

  lemma EndsInGap(words: seq<string>, gaps: seq<string>)
    requires Apart(words, gaps) && gaps[|words|] != ""
    ensures var text := Spread(words, gaps); text != "" && IsSpace(text[|text| - 1])
  {
  }

  /** The count is the number of words, however they are spread out. */
  lemma {:induction false} FieldCountIsWords(words: seq<string>, gaps: seq<string>)
    requires Apart(words, gaps)
    ensures FieldCount(Spread(words, gaps)) == |words|
  {
    if words == [] {
      GapAddsNothing("", gaps[0]);
      assert "" + gaps[0] == gaps[0];
    } else {
      var last := |words| - 1;
      var front := Spread(words[..last], gaps[..|words|]);
      FieldCountIsWords(words[..last], gaps[..|words|]);
      if last > 0 { EndsInGap(words[..last], gaps[..|words|]); }
      WordAddsOne(front, words[last]);
      GapAddsNothing(front + words[last], gaps[|words|]);
    }
  }

  /** Every text is made of words and gaps. */
  lemma {:induction false} EveryTextIsSpread(text: string) returns (words: seq<string>, gaps: seq<string>)
    ensures Apart(words, gaps) && Spread(words, gaps) == text
  {
    if text == "" {
      words, gaps := [], [""];
    } else {
      var c := text[|text| - 1];
      words, gaps := EveryTextIsSpread(text[..|text| - 1]);
      assert text == text[..|text| - 1] + [c];
      words, gaps := Lengthened(words, gaps, c);
    }
  }

  lemma Lengthened(words: seq<string>, gaps: seq<string>, c: char) returns (ws: seq<string>, gs: seq<string>)
    requires Apart(words, gaps)
    ensures Apart(ws, gs) && Spread(ws, gs) == Spread(words, gaps) + [c]
  {
    var n := |words|;
    if IsSpace(c) {
      ws, gs := words, gaps[n := gaps[n] + [c]];
      assert gs[..n] == gaps[..n];
    } else if n == 0 || gaps[n] != "" {
      ws, gs := words + [[c]], gaps + [""];
      assert ws[..n] == words && gs[..n + 1] == gaps;
    } else {
      ws, gs := words[n - 1 := words[n - 1] + [c]], gaps;
      assert ws[..n - 1] == words[..n - 1];
    }
  }

  function ScopeCount(jwt: Jwt): nat {
    FieldCount(jwt.scopes)
  }

  predicate Expired(jwt: Jwt, now: int) {
    jwt.expires.None? || jwt.expires.value <= now
  }

  const MARKER := "accesstoken"

  /** The secret and claims that a storage entry contributes. */
  function Candidate(codec: Codec, now: int, key: string, value: string): Option<(string, Jwt)> {
    if !Contains(key, MARKER) then None
    else
      match codec.secret(value)
      case None => None
      case Some(secret) =>
        if secret == "" then None
        else
          match codec.decode(secret)
          case None => None
          case Some(jwt) =>
            if jwt.audience == "" || (jwt.expires.Some? && Expired(jwt, now)) then None else Some((secret, jwt))
  }

  /**
   An entry contributes exactly when its key contains the marker and its secret, not empty, decodes to claims with an
   audience that have no expiry or have not expired.
   */
  lemma CandidateIff(codec: Codec, now: int, key: string, value: string, secret: string, jwt: Jwt)
    ensures Candidate(codec, now, key, value) == Some((secret, jwt)) <==>
            && (exists i :: OccursAt(key, "accesstoken", i))
            && codec.secret(value) == Some(secret) && secret != ""
            && codec.decode(secret) == Some(jwt) && jwt.audience != ""
            && (jwt.expires.None? || jwt.expires.value > now)
  {
    ContainsIff(key, "accesstoken");
  }

  ghost predicate Offers(codec: Codec, now: int, session: Strings, key: string, audience: string) {
    key in session && Candidate(codec, now, key, session[key]).Some?
    && Candidate(codec, now, key, session[key]).value.1.audience == audience
  }

  ghost function Count(codec: Codec, now: int, session: Strings, key: string): nat
    requires key in session && Candidate(codec, now, key, session[key]).Some?
  {
    ScopeCount(Candidate(codec, now, key, session[key]).value.1)
  }

  // ---------------------------------------------------------------- what an extraction is

  /** Each audience offered with some scope has one of its tokens with the most scopes, and nothing else is there. */
  ghost predicate Extracted(codec: Codec, now: int, session: Strings, tokens: Strings) {
    && (forall key, aud :: Offers(codec, now, session, key, aud) && Count(codec, now, session, key) > 0 ==>
        aud in tokens)
    && (forall aud :: aud in tokens ==> exists key :: Best(codec, now, session, tokens, aud, key))
  }

  /** The entry offers the audience with some scope, and no entry offers it with more. */
  ghost predicate Top(codec: Codec, now: int, session: Strings, aud: string, key: string) {
    && Offers(codec, now, session, key, aud)
    && Count(codec, now, session, key) > 0
    && forall other :: Offers(codec, now, session, other, aud) ==>
                         Count(codec, now, session, other) <= Count(codec, now, session, key)
  }

  ghost function Secret(codec: Codec, now: int, session: Strings, key: string): string
    requires key in session && Candidate(codec, now, key, session[key]).Some?
  {
    Candidate(codec, now, key, session[key]).value.0
  }

  ghost predicate Best(codec: Codec, now: int, session: Strings, tokens: Strings, aud: string, key: string)
    requires aud in tokens
  {
    Top(codec, now, session, aud, key) && Secret(codec, now, session, key) == tokens[aud]
  }

  /** What holds of one extracted token. */
  lemma ExtractedToken(codec: Codec, now: int, session: Strings, tokens: Strings, aud: string)
    requires Extracted(codec, now, session, tokens) && aud in tokens
    ensures aud != "" && codec.decode(tokens[aud]).Some?
    ensures var jwt := codec.decode(tokens[aud]).value;
            && jwt.audience == aud && ScopeCount(jwt) > 0
            && (jwt.expires.None? || jwt.expires.value > now)
  {
    var key :| Best(codec, now, session, tokens, aud, key);
  }

  ghost function Scopes(codec: Codec, tokens: Strings, aud: string): nat
    requires aud in tokens && codec.decode(tokens[aud]).Some?
  {
    ScopeCount(codec.decode(tokens[aud]).value)
  }

  /** The audiences and their numbers of scopes are the same for every iteration order. */
  lemma ExtractionOrderIrrelevant(codec: Codec, now: int, session: Strings, a: Strings, b: Strings)
    requires Extracted(codec, now, session, a) && Extracted(codec, now, session, b)
    ensures SameCounts(codec, a, b)
  {
    forall aud | aud in a.Keys + b.Keys ensures aud in a && aud in b && SameCount(codec, a, b, aud) {
      SameAudience(codec, now, session, a, b, aud);
    }
  }

  ghost predicate SameCount(codec: Codec, a: Strings, b: Strings, aud: string)
    requires aud in a && aud in b
  {
    codec.decode(a[aud]).Some? && codec.decode(b[aud]).Some? && Scopes(codec, a, aud) == Scopes(codec, b, aud)
  }

  ghost predicate SameCounts(codec: Codec, a: Strings, b: Strings) {
    (forall aud :: aud in a <==> aud in b) && forall aud :: aud in a ==> SameCount(codec, a, b, aud)
  }

  lemma OfferedStays(codec: Codec, now: int, session: Strings, a: Strings, b: Strings, aud: string)
    requires Extracted(codec, now, session, a) && Extracted(codec, now, session, b) && aud in a
    ensures aud in b
  {
    var key :| Best(codec, now, session, a, aud, key);
  }

  lemma SameAudience(codec: Codec, now: int, session: Strings, a: Strings, b: Strings, aud: string)
    requires Extracted(codec, now, session, a) && Extracted(codec, now, session, b) && (aud in a || aud in b)
    ensures aud in a && aud in b && SameCount(codec, a, b, aud)
  {
    if aud in a { OfferedStays(codec, now, session, a, b, aud); }
    if aud in b { OfferedStays(codec, now, session, b, a, aud); }
    var inA :| Best(codec, now, session, a, aud, inA);
    var inB :| Best(codec, now, session, b, aud, inB);
  }

  // ---------------------------------------------------------------- requirements

  /** What selection looks at. */
  predicate Eligible(codec: Codec, tokens: Strings, need: Requirement, aud: string) {
    aud in tokens && Contains(aud, need.audience)
    && match codec.decode(tokens[aud])
       case None => false
       case Some(jwt) => (need.scope == "" || Contains(jwt.scopes, need.scope)) && ScopeCount(jwt) > 0
  }

  /** What the guard before saving looks at; it also rejects tokens that have expired or have no expiry. */
  predicate Satisfies(codec: Codec, tokens: Strings, need: Requirement, now: int, aud: string) {
    aud in tokens && (need.audience == "" || Contains(aud, need.audience))
    && match codec.decode(tokens[aud])
       case None => false
       case Some(jwt) =>
         jwt.expires.Some? && jwt.expires.value > now && (need.scope == "" || Contains(jwt.scopes, need.scope))
  }

  ghost predicate Selected(codec: Codec, tokens: Strings, need: Requirement, aud: string) {
    Eligible(codec, tokens, need, aud)
    && forall other :: Eligible(codec, tokens, need, other) ==>
        Scopes(codec, tokens, other) <= Scopes(codec, tokens, aud)
  }

  /** A selection: an eligible audience with the most scopes; an empty audience counts as none. */
  ghost predicate Answers(codec: Codec, tokens: Strings, need: Requirement, best: Option<string>) {
    match best
    case Some(aud) => aud != "" && Selected(codec, tokens, need, aud)
    case None => (forall aud :: !Eligible(codec, tokens, need, aud)) || Selected(codec, tokens, need, "")
  }

  lemma EmptyContained(text: string)
    ensures Contains(text, "")
  {
    assert "" <= text;
  }

  // ---------------------------------------------------------------- the loops

  method ExtractBearerTokens(codec: Codec, now: int, session: Strings) returns (tokens: Strings)
    ensures Extracted(codec, now, session, tokens)
  {
    tokens := map[];
    var scopeCounts: map<string, nat> := map[];
    var left := session.Keys;
    ghost var seen: Strings := map[];
    while left != {}
      invariant left <= session.Keys && seen == (map k | k in session && k !in left :: session[k])
      invariant Extracted(codec, now, seen, tokens) && Tally(codec, tokens, scopeCounts)
      decreases |left|
    {
      var key :| key in left;
      left := left - {key};
      tokens, scopeCounts := Absorb(codec, now, key, session[key], tokens, scopeCounts, seen);
      seen := seen[key := session[key]];
    }
    assert seen == session;
  }

  ghost predicate Tally(codec: Codec, tokens: Strings, scopeCounts: map<string, nat>) {
    scopeCounts.Keys == tokens.Keys
    && forall aud :: aud in tokens ==> codec.decode(tokens[aud]).Some? && scopeCounts[aud] == Scopes(codec, tokens, aud)
  }

  /** One storage entry; a missing count reads as zero. */
  method Absorb(codec: Codec, now: int, key: string, value: string, tokens: Strings, scopeCounts: map<string, nat>,
                ghost seen: Strings)
    returns (tokens': Strings, scopeCounts': map<string, nat>)
    requires key !in seen && Extracted(codec, now, seen, tokens) && Tally(codec, tokens, scopeCounts)
    ensures Extracted(codec, now, seen[key := value], tokens') && Tally(codec, tokens', scopeCounts')
  {
    tokens', scopeCounts' := tokens, scopeCounts;
    var candidate := Candidate(codec, now, key, value);
    if candidate.None? {
      NothingOffered(codec, now, seen, key, value, tokens);
      return;
    }
    var (secret, jwt) := candidate.value;
    var best := if jwt.audience in scopeCounts then scopeCounts[jwt.audience] else 0;
    if ScopeCount(jwt) > best {
      BetterToken(codec, now, seen, key, value, tokens, secret, jwt);
      TallyBetter(codec, tokens, scopeCounts, secret, jwt);
      tokens' := tokens[jwt.audience := secret];
      scopeCounts' := scopeCounts[jwt.audience := ScopeCount(jwt)];
    } else {
      NotImproving(codec, now, seen, key, value, tokens, jwt);
    }
  }

  lemma TallyBetter(codec: Codec, tokens: Strings, scopeCounts: map<string, nat>, secret: string, jwt: Jwt)
    requires Tally(codec, tokens, scopeCounts) && codec.decode(secret) == Some(jwt)
    ensures Tally(codec, tokens[jwt.audience := secret], scopeCounts[jwt.audience := ScopeCount(jwt)])
  {
  }

  lemma NothingOffered(codec: Codec, now: int, seen: Strings, key: string, value: string, tokens: Strings)
    requires key !in seen && Extracted(codec, now, seen, tokens) && Candidate(codec, now, key, value).None?
    ensures Extracted(codec, now, seen[key := value], tokens)
  {
    NothingBetter(codec, now, seen, key, value, tokens);
  }

  lemma NotImproving(codec: Codec, now: int, seen: Strings, key: string, value: string, tokens: Strings, jwt: Jwt)
    requires key !in seen && Extracted(codec, now, seen, tokens)
    requires Candidate(codec, now, key, value).Some? && Candidate(codec, now, key, value).value.1 == jwt
    requires if jwt.audience in tokens
             then codec.decode(tokens[jwt.audience]).Some? && ScopeCount(jwt) <= Scopes(codec, tokens, jwt.audience)
             else ScopeCount(jwt) == 0
    ensures Extracted(codec, now, seen[key := value], tokens)
  {
    NothingBetter(codec, now, seen, key, value, tokens);
  }

  lemma OthersOffer(codec: Codec, now: int, seen: Strings, key: string, value: string, other: string, aud: string)
    requires key !in seen && other != key
    ensures Offers(codec, now, seen[key := value], other, aud) <==> Offers(codec, now, seen, other, aud)
    ensures Offers(codec, now, seen, other, aud) ==>
              Count(codec, now, seen[key := value], other) == Count(codec, now, seen, other)
  {
  }

  /** A best token stays the best when the new entry offers nothing better for its audience. */
  lemma BestStays(codec: Codec, now: int, seen: Strings, key: string, value: string,
                  tokens: Strings, tokens': Strings, aud: string, best: string)
    requires key !in seen && aud in tokens && aud in tokens' && tokens[aud] == tokens'[aud]
    requires Best(codec, now, seen, tokens, aud, best)
    requires Offers(codec, now, seen[key := value], key, aud) ==>
               Count(codec, now, seen[key := value], key) <= Count(codec, now, seen, best)
    ensures Best(codec, now, seen[key := value], tokens', aud, best)
  {
    var more := seen[key := value];
    forall other | Offers(codec, now, more, other, aud)
      ensures Count(codec, now, more, other) <= Count(codec, now, more, best)
    {
      if other != key { OthersOffer(codec, now, seen, key, value, other, aud); }
    }
  }

  /** The new entry offers nothing better than what was kept. */
  lemma NothingBetter(codec: Codec, now: int, seen: Strings, key: string, value: string, tokens: Strings)
    requires key !in seen && Extracted(codec, now, seen, tokens)
    requires forall aud :: Offers(codec, now, seen[key := value], key, aud) ==>
               if aud in tokens
               then codec.decode(tokens[aud]).Some? &&
                   Count(codec, now, seen[key := value], key) <= Scopes(codec, tokens, aud)
               else Count(codec, now, seen[key := value], key) == 0
    ensures Extracted(codec, now, seen[key := value], tokens)
  {
    var more := seen[key := value];
    forall aud | aud in tokens ensures exists best :: Best(codec, now, more, tokens, aud, best) {
      var best :| Best(codec, now, seen, tokens, aud, best);
      BestStays(codec, now, seen, key, value, tokens, tokens, aud, best);
    }
    forall other, aud | Offers(codec, now, more, other, aud) && Count(codec, now, more, other) > 0
      ensures aud in tokens
    {
      if other != key { OthersOffer(codec, now, seen, key, value, other, aud); }
    }
  }

  ghost predicate Improves(codec: Codec, tokens: Strings, jwt: Jwt) {
    jwt.audience in tokens ==>
      codec.decode(tokens[jwt.audience]).Some? && ScopeCount(jwt) > Scopes(codec, tokens, jwt.audience)
  }

  lemma BetterToken(codec: Codec, now: int, seen: Strings, key: string, value: string, tokens: Strings,
                    secret: string, jwt: Jwt)
    requires key !in seen && Extracted(codec, now, seen, tokens)
    requires Candidate(codec, now, key, value) == Some((secret, jwt)) && ScopeCount(jwt) > 0
    requires Improves(codec, tokens, jwt)
    ensures Extracted(codec, now, seen[key := value], tokens[jwt.audience := secret])
  {
    var more, tokens' := seen[key := value], tokens[jwt.audience := secret];
    NewBest(codec, now, seen, key, value, tokens, secret, jwt);
    forall aud | aud in tokens' ensures exists best :: Best(codec, now, more, tokens', aud, best) {
      if aud != jwt.audience {
        var best :| Best(codec, now, seen, tokens, aud, best);
        BestStays(codec, now, seen, key, value, tokens, tokens', aud, best);
      }
    }
    forall other, aud | Offers(codec, now, more, other, aud) && Count(codec, now, more, other) > 0
      ensures aud in tokens'
    {
      if other != key { OthersOffer(codec, now, seen, key, value, other, aud); }
    }
  }

  lemma NewBest(codec: Codec, now: int, seen: Strings, key: string, value: string, tokens: Strings,
                secret: string, jwt: Jwt)
    requires key !in seen && Extracted(codec, now, seen, tokens)
    requires Candidate(codec, now, key, value) == Some((secret, jwt)) && ScopeCount(jwt) > 0
    requires Improves(codec, tokens, jwt)
    ensures Best(codec, now, seen[key := value], tokens[jwt.audience := secret], jwt.audience, key)
  {
    var more := seen[key := value];
    forall other | Offers(codec, now, more, other, jwt.audience)
      ensures Count(codec, now, more, other) <= ScopeCount(jwt)
    {
      if other != key {
        OthersOffer(codec, now, seen, key, value, other, jwt.audience);
        AtMostKept(codec, now, seen, tokens, other, jwt.audience);
      }
    }
  }

  lemma AtMostKept(codec: Codec, now: int, session: Strings, tokens: Strings, key: string, aud: string)
    requires Extracted(codec, now, session, tokens) && Offers(codec, now, session, key, aud)
    ensures if aud in tokens
            then codec.decode(tokens[aud]).Some? && Count(codec, now, session, key) <= Scopes(codec, tokens, aud)
            else Count(codec, now, session, key) == 0
  {
    if aud in tokens {
      var best :| Best(codec, now, session, tokens, aud, best);
    }
  }

  method SelectBearerToken(codec: Codec, tokens: Strings, need: Requirement) returns (best: Option<string>)
    ensures Answers(codec, tokens, need, best)
  {
    var bestAud, bestScopes := "", 0;
    var left := tokens.Keys;
    while left != {}
      invariant left <= tokens.Keys
      invariant bestScopes == 0 ==> forall aud :: aud !in left ==> !Eligible(codec, tokens, need, aud)
      invariant bestScopes == 0 ==> bestAud == ""
      invariant bestScopes > 0 ==>
                  && Eligible(codec, tokens, need, bestAud) && Scopes(codec, tokens, bestAud) == bestScopes
                  && forall aud :: aud !in left && Eligible(codec, tokens, need, aud) ==>
                                     Scopes(codec, tokens, aud) <= bestScopes
      decreases |left|
    {
      var aud :| aud in left;
      left := left - {aud};
      if !Contains(aud, need.audience) { continue; }
      var jwt := codec.decode(tokens[aud]);
      if jwt.None? { continue; }
      if need.scope != "" && !Contains(jwt.value.scopes, need.scope) { continue; }
      if ScopeCount(jwt.value) > bestScopes {
        bestAud, bestScopes := aud, ScopeCount(jwt.value);
      }
    }
    best := if bestAud != "" then Some(bestAud) else None;
  }

  method HasRequiredToken(codec: Codec, tokens: Strings, need: Requirement, now: int) returns (found: bool)
    ensures found <==> exists aud :: Satisfies(codec, tokens, need, now, aud)
  {
    var left := tokens.Keys;
    while left != {}
      invariant left <= tokens.Keys
      invariant forall aud :: aud !in left ==> !Satisfies(codec, tokens, need, now, aud)
      decreases |left|
    {
      var aud :| aud in left;
      left := left - {aud};
      if need.audience != "" && !Contains(aud, need.audience) { continue; }
      var jwt := codec.decode(tokens[aud]);
      if jwt.None? || Expired(jwt.value, now) { continue; }
      if need.scope != "" && !Contains(jwt.value.scopes, need.scope) { continue; }
      assert Satisfies(codec, tokens, need, now, aud);
      return true;
    }
    return false;
  }

  // ---------------------------------------------------------------- guard and selection together

  /** On an extraction, whatever passes the guard can also be selected. */
  lemma SatisfyingIsEligible(codec: Codec, now: int, session: Strings, tokens: Strings,
                             need: Requirement, later: int, aud: string)
    requires Extracted(codec, now, session, tokens) && Satisfies(codec, tokens, need, later, aud)
    ensures Eligible(codec, tokens, need, aud)
  {
    ExtractedToken(codec, now, session, tokens, aud);
    EmptyContained(aud);
  }

  /**
   The guard promises a token: on an extraction, once it holds, every selection succeeds, with the required audience
   and scope and with the most scopes among all tokens that meet them.
   */
  lemma GuardPromisesSelection(codec: Codec, now: int, session: Strings, tokens: Strings,
                               need: Requirement, later: int, best: Option<string>)
    requires Extracted(codec, now, session, tokens) && exists aud :: Satisfies(codec, tokens, need, later, aud)
    requires Answers(codec, tokens, need, best)
    ensures best.Some? && Contains(best.value, need.audience)
    ensures best.value in tokens && codec.decode(tokens[best.value]).Some?
    ensures need.scope != "" ==> Contains(codec.decode(tokens[best.value]).value.scopes, need.scope)
    ensures forall aud :: Satisfies(codec, tokens, need, later, aud) ==>
                            Scopes(codec, tokens, aud) <= Scopes(codec, tokens, best.value)
  {
    forall aud | Satisfies(codec, tokens, need, later, aud) ensures Eligible(codec, tokens, need, aud) {
      SatisfyingIsEligible(codec, now, session, tokens, need, later, aud);
    }
    if "" in tokens { ExtractedToken(codec, now, session, tokens, ""); }
  }

  /** Without requirements any non-empty extraction has a selection. */
  lemma UnrequiredSelection(codec: Codec, now: int, session: Strings, tokens: Strings, best: Option<string>)
    requires Extracted(codec, now, session, tokens)
    requires Answers(codec, tokens, Requirement("", ""), best)
    ensures best.Some? <==> tokens != map[]
    ensures best.Some? ==> forall aud :: aud in tokens ==>
              codec.decode(tokens[aud]).Some? && best.value in tokens && codec.decode(tokens[best.value]).Some?
              && Scopes(codec, tokens, aud) <= Scopes(codec, tokens, best.value)
  {
    forall aud | aud in tokens
      ensures Eligible(codec, tokens, Requirement("", ""), aud) && codec.decode(tokens[aud]).Some? && aud != ""
    {
      ExtractedToken(codec, now, session, tokens, aud);
      EmptyContained(aud);
    }
    if tokens != map[] {
      var aud :| aud in tokens;
      assert Eligible(codec, tokens, Requirement("", ""), aud);
    }
  }

  // ---------------------------------------------------------------- where iteration order does matter

  /** Every storage has an extraction. */
  lemma {:induction false} ExtractionExists(codec: Codec, now: int, session: Strings) returns (tokens: Strings)
    ensures Extracted(codec, now, session, tokens)
    decreases |session|
  {
    tokens := map[];
    if session != map[] {
      var key :| key in session;
      var rest := session - {key};
      assert session == rest[key := session[key]];
      tokens := ExtractionExists(codec, now, rest);
      tokens := ExtractOneMore(codec, now, rest, key, session[key], tokens);
    }
  }

  lemma ExtractOneMore(codec: Codec, now: int, seen: Strings, key: string, value: string, tokens: Strings)
    returns (tokens': Strings)
    requires key !in seen && Extracted(codec, now, seen, tokens)
    ensures Extracted(codec, now, seen[key := value], tokens')
  {
    tokens' := tokens;
    var candidate := Candidate(codec, now, key, value);
    if candidate.Some? && ScopeCount(candidate.value.1) > 0 && Improves(codec, tokens, candidate.value.1) {
      var (secret, jwt) := candidate.value;
      BetterToken(codec, now, seen, key, value, tokens, secret, jwt);
      tokens' := tokens[jwt.audience := secret];
    } else {
      KeptTokenDecodes(codec, now, seen, tokens);
      NothingBetter(codec, now, seen, key, value, tokens);
    }
  }

  lemma KeptTokenDecodes(codec: Codec, now: int, session: Strings, tokens: Strings)
    requires Extracted(codec, now, session, tokens)
    ensures forall aud :: aud in tokens ==> codec.decode(tokens[aud]).Some?
  {
    forall aud | aud in tokens { ExtractedToken(codec, now, session, tokens, aud); }
  }

  /** Of the entries that offer an audience with the most scopes, all carry the same secret. */
  ghost predicate TiesAgree(codec: Codec, now: int, session: Strings) {
    forall aud, k, l :: Top(codec, now, session, aud, k) && Top(codec, now, session, aud, l) ==>
                          Secret(codec, now, session, k) == Secret(codec, now, session, l)
  }

  /** Any entry with the most scopes may be the one that is kept. */
  lemma AnyTopMayBeKept(codec: Codec, now: int, session: Strings, tokens: Strings, aud: string, key: string)
    requires Extracted(codec, now, session, tokens) && Top(codec, now, session, aud, key)
    ensures Extracted(codec, now, session, tokens[aud := Secret(codec, now, session, key)])
  {
    var tokens' := tokens[aud := Secret(codec, now, session, key)];
    forall a | a in tokens' ensures exists k :: Best(codec, now, session, tokens', a, k) {
      if a == aud {
        assert Best(codec, now, session, tokens', a, key);
      } else {
        var k :| Best(codec, now, session, tokens, a, k);
        assert Best(codec, now, session, tokens', a, k);
      }
    }
  }

  lemma AgreeingTie(codec: Codec, now: int, session: Strings, a: Strings, b: Strings, aud: string)
    requires TiesAgree(codec, now, session) && aud in a && aud in b
    requires exists k :: Best(codec, now, session, a, aud, k)
    requires exists k :: Best(codec, now, session, b, aud, k)
    ensures a[aud] == b[aud]
  {
    var k :| Best(codec, now, session, a, aud, k);
    var l :| Best(codec, now, session, b, aud, l);
  }

  lemma AgreeingTiesFix(codec: Codec, now: int, session: Strings, a: Strings, b: Strings)
    requires TiesAgree(codec, now, session) && Extracted(codec, now, session, a) && Extracted(codec, now, session, b)
    ensures a == b
  {
    forall aud ensures (aud in a <==> aud in b) && (aud in a ==> a[aud] == b[aud]) {
      SameToken(codec, now, session, a, b, aud);
    }
    SameStrings(a, b);
  }

  lemma SameToken(codec: Codec, now: int, session: Strings, a: Strings, b: Strings, aud: string)
    requires TiesAgree(codec, now, session) && Extracted(codec, now, session, a) && Extracted(codec, now, session, b)
    ensures (aud in a <==> aud in b) && (aud in a ==> a[aud] == b[aud])
  {
    if aud in a { OfferedStays(codec, now, session, a, b, aud); }
    if aud in b { OfferedStays(codec, now, session, b, a, aud); }
    if aud in a { AgreeingTie(codec, now, session, a, b, aud); }
  }

  lemma SameStrings(a: Strings, b: Strings)
    requires forall aud :: (aud in a <==> aud in b) && (aud in a ==> a[aud] == b[aud])
    ensures a == b
  {
  }

  ghost predicate OneExtraction(codec: Codec, now: int, session: Strings) {
    forall a, b :: Extracted(codec, now, session, a) && Extracted(codec, now, session, b) ==> a == b
  }

  lemma DisagreeingTiesSplit(codec: Codec, now: int, session: Strings, aud: string, k: string, l: string)
    requires Top(codec, now, session, aud, k) && Top(codec, now, session, aud, l)
    requires Secret(codec, now, session, k) != Secret(codec, now, session, l)
    ensures !OneExtraction(codec, now, session)
  {
    var a := ExtractionWith(codec, now, session, aud, k);
    var b := ExtractionWith(codec, now, session, aud, l);
    assert a != b;
  }

  lemma ExtractionWith(codec: Codec, now: int, session: Strings, aud: string, k: string) returns (tokens: Strings)
    requires Top(codec, now, session, aud, k)
    ensures Extracted(codec, now, session, tokens) && aud in tokens && tokens[aud] == Secret(codec, now, session, k)
  {
    tokens := ExtractionExists(codec, now, session);
    AnyTopMayBeKept(codec, now, session, tokens, aud, k);
    tokens := tokens[aud := Secret(codec, now, session, k)];
  }

  lemma OneExtractionWhenTiesAgree(codec: Codec, now: int, session: Strings)
    requires TiesAgree(codec, now, session)
    ensures OneExtraction(codec, now, session)
  {
    forall a, b | Extracted(codec, now, session, a) && Extracted(codec, now, session, b) ensures a == b {
      AgreeingTiesFix(codec, now, session, a, b);
    }
  }

  /** The extracted tokens themselves are the same for every iteration order exactly when ties agree on the secret. */
  lemma ExtractionUniqueIff(codec: Codec, now: int, session: Strings)
    ensures OneExtraction(codec, now, session) <==> TiesAgree(codec, now, session)
  {
    if TiesAgree(codec, now, session) {
      OneExtractionWhenTiesAgree(codec, now, session);
    } else {
      var aud, k, l :| Top(codec, now, session, aud, k) && Top(codec, now, session, aud, l)
                       && Secret(codec, now, session, k) != Secret(codec, now, session, l);
      DisagreeingTiesSplit(codec, now, session, aud, k, l);
    }
  }

  const READ_TOKEN := Jwt("graph", "R", Some(10))
  const WRITE_TOKEN := Jwt("graph", "W", Some(10))

  function TieCodec(): Codec {
    Codec(value => Some(value),
          secret => if secret == "r" then Some(READ_TOKEN) else if secret == "w" then Some(WRITE_TOKEN) else None)
  }

  /**
   Two tokens of one audience with equally many scopes: either is kept, and a required scope finds only one of them.
   */
  lemma TiesDependOnOrder()
    ensures var session, need := map["accesstoken1" := "r", "accesstoken2" := "w"], Requirement("", "R");
            && Extracted(TieCodec(), 0, session, map["graph" := "r"])
            && Extracted(TieCodec(), 0, session, map["graph" := "w"])
            && Satisfies(TieCodec(), map["graph" := "r"], need, 0, "graph")
            && forall aud :: !Satisfies(TieCodec(), map["graph" := "w"], need, 0, aud)
  {
    var session := map["accesstoken1" := "r", "accesstoken2" := "w"];
    TieCounts();
    TieOffers();
    var none: Strings := map[];
    TopAlone(session, "accesstoken1");
    TopAlone(session, "accesstoken2");
    assert Satisfies(TieCodec(), map["graph" := "r"], Requirement("", "R"), 0, "graph");
  }

  /** Both entries offer the one audience with one scope. */
  ghost predicate OneAudience(session: Strings) {
    && (forall key, aud :: Offers(TieCodec(), 0, session, key, aud) ==> aud == "graph")
    && (forall key, aud :: Offers(TieCodec(), 0, session, key, aud) ==> Count(TieCodec(), 0, session, key) == 1)
  }

  lemma TieOffers()
    ensures var session := map["accesstoken1" := "r", "accesstoken2" := "w"];
            && OneAudience(session)
            && Offers(TieCodec(), 0, session, "accesstoken1", "graph")
            && Offers(TieCodec(), 0, session, "accesstoken2", "graph")
            && Secret(TieCodec(), 0, session, "accesstoken1") == "r"
            && Secret(TieCodec(), 0, session, "accesstoken2") == "w"
  {
    TieCounts();
  }

  lemma TopAlone(session: Strings, key: string)
    requires OneAudience(session) && Offers(TieCodec(), 0, session, key, "graph")
    ensures Extracted(TieCodec(), 0, session, map["graph" := Secret(TieCodec(), 0, session, key)])
  {
    var tokens := map["graph" := Secret(TieCodec(), 0, session, key)];
    assert Best(TieCodec(), 0, session, tokens, "graph", key);
  }

  lemma TieCounts()
    ensures ScopeCount(READ_TOKEN) == 1 && ScopeCount(WRITE_TOKEN) == 1
    ensures Contains("accesstoken1", MARKER) && Contains("accesstoken2", MARKER)
    ensures Contains("R", "R") && !Contains("W", "R")
  {
    var read, write := "R", "W";
    assert read[..0] == "" && write[..0] == "" && write[1..] == "";
    assert !Contains("", "R");
    assert "accesstoken1"[..11] == MARKER && "accesstoken2"[..11] == MARKER;
  }
}
