/** Which extractor's answer counts: the primary one, or else the first fallback strategy
    that may be used and finds something. */
module ExtractorRegistry {
  import opened Wrappers

  /** `nonce` is empty when the candidate carries none. */
  datatype Candidate = Candidate(name: string, arguments: string, nonce: string)

  datatype Warning = Discarded | UsedFallback(parser: string, nonceVerified: bool) | Other(message: string)

  datatype Extraction = Extraction(
    candidates: seq<Candidate>,
    remaining: seq<string>,
    diagnostics: seq<Warning>,
    remainder: string,
    spans: seq<(nat, nat)>,
    confidence: real)

  datatype Strategy = Strategy(parser: string, skipWhenNative: bool, modes: set<string>)

  datatype ToolChoice = AutoCall | NoCall | RequiredCall | NamedCall(name: string)

  /** One call of the registry. `registered` is what each registered extractor finds in the
      content without an envelope, `primary` what the configured one finds with its own. */
  datatype Query = Query(
    extractor: string,
    primary: Extraction,
    registered: map<string, Extraction>,
    strategies: seq<Strategy>,
    choice: ToolChoice,
    nativePresent: bool,
    nonce: string)

  function ModeName(c: ToolChoice): string {
    match c
    case AutoCall => "auto"
    case NoCall => "none"
    case RequiredCall => "required"
    case NamedCall(_) => "named"
  }

  /** The strategy may run, finds something, and does not substitute another tool for the
      one asked for. */
  predicate Finds(q: Query, s: Strategy) {
    && s.parser != q.extractor
    && !(s.skipWhenNative && q.nativePresent)
    && ModeName(q.choice) in s.modes
    && s.parser in q.registered
    && q.registered[s.parser].candidates != []
    && (q.choice.NamedCall? ==> q.registered[s.parser].candidates[0].name == q.choice.name)
  }

  predicate Ambiguous(q: Query, s: Strategy) { s.parser == "whole_message_json" && q.choice.AutoCall? }

  predicate Admissible(q: Query, s: Strategy) {
    Finds(q, s)
    && (Ambiguous(q, s) ==> q.nonce != "" && q.registered[s.parser].candidates[0].nonce == q.nonce)
  }

  /** Found, but not to be trusted. */
  predicate Refused(q: Query, s: Strategy) { Finds(q, s) && !Admissible(q, s) }

  /** The first admissible strategy from the i-th on, or the number of strategies. */
  function First(q: Query, i: nat): (k: nat)
    requires i <= |q.strategies|
    ensures i <= k <= |q.strategies|
    ensures k < |q.strategies| ==> Admissible(q, q.strategies[k])
    ensures forall j :: i <= j < k ==> !Admissible(q, q.strategies[j])
    decreases |q.strategies| - i
  {
    if i == |q.strategies| || Admissible(q, q.strategies[i]) then i else First(q, i + 1)
  }

  function RefusedTo(q: Query, n: nat): nat
    requires n <= |q.strategies|
  {
    if n == 0 then 0 else RefusedTo(q, n - 1) + (if Refused(q, q.strategies[n - 1]) then 1 else 0)
  }

  function Warnings(n: nat): seq<Warning> { seq(n, i => Discarded) }

  /** What a refusal leaves of a result: no candidates, the text as it was, one warning. */
  function Emptied(r: Extraction): Extraction {
    Extraction([], r.remaining, r.diagnostics + [Discarded], "", [], 1.0)
  }

  function FromFallback(q: Query, s: Strategy): Extraction
    requires s.parser in q.registered
  {
    var found := q.registered[s.parser];
    found.(diagnostics := found.diagnostics + [UsedFallback(s.parser, Ambiguous(q, s))],
           confidence := found.confidence * 0.7)
  }

  /** The primary result if it settles the matter, else the first admissible strategy's,
      else the primary text with one warning for each refusal. */
  function Answer(q: Query): Extraction {
    if q.extractor == "native_structured" || q.primary.candidates != [] then q.primary
    else
      var k := First(q, 0);
      if k < |q.strategies| then FromFallback(q, q.strategies[k])
      else if RefusedTo(q, |q.strategies|) == 0 then q.primary
      else Extraction([], q.primary.remaining, q.primary.diagnostics + Warnings(RefusedTo(q, |q.strategies|)), "", [], 1.0)
  }

  // -------------------------------------------------------------- its lemmas

  ghost predicate FallsBack(q: Query) { q.extractor != "native_structured" && q.primary.candidates == [] }

  /** A candidate the primary extractor did not find was found by a strategy that may run
      under this tool choice, is for the tool asked for, and carries the request's nonce if
      it is a bare message under auto. */
  lemma FallbackIsEarned(q: Query)
    requires FallsBack(q)
    ensures Answer(q).candidates != [] <==> exists k :: 0 <= k < |q.strategies| && Admissible(q, q.strategies[k])
    ensures Answer(q).candidates != [] ==>
              exists k :: 0 <= k < |q.strategies| && IsFirst(q, k)
                && Answer(q).candidates == q.registered[q.strategies[k].parser].candidates
                && Answer(q).remaining == q.registered[q.strategies[k].parser].remaining
    ensures Answer(q).candidates != [] && q.choice.NamedCall? ==> Answer(q).candidates[0].name == q.choice.name
    ensures Answer(q).candidates == [] ==> Answer(q).remaining == q.primary.remaining
  {
    var k := First(q, 0);
    if k < |q.strategies| {
      assert IsFirst(q, k);
    }
  }

  /** The k-th strategy is admissible and none before it is. */
  ghost predicate IsFirst(q: Query, k: nat) {
    k < |q.strategies| && Admissible(q, q.strategies[k])
    && forall j :: 0 <= j < k ==> !Admissible(q, q.strategies[j])
  }

  /** The conditions under which the k-th strategy's find counts, one by one: another parser
      than the primary one, registered, not outranked by a native call, opted in to the tool
      choice, with a find; for the tool asked for if one was named; and for a bare message
      under auto with this request's nonce. */
  ghost predicate Counts(q: Query, k: nat)
    requires k < |q.strategies|
  {
    var s := q.strategies[k];
    && s.parser != q.extractor && s.parser in q.registered
    && (q.nativePresent ==> !s.skipWhenNative)
    && (match q.choice
        case AutoCall => "auto" in s.modes
        case NoCall => "none" in s.modes
        case RequiredCall => "required" in s.modes
        case NamedCall(_) => "named" in s.modes)
    && var found := q.registered[s.parser].candidates;
       && found != []
       && (q.choice.NamedCall? ==> found[0].name == q.choice.name)
       && (q.choice.AutoCall? && s.parser == "whole_message_json" ==> q.nonce != "" && found[0].nonce == q.nonce)
  }

  lemma CountsIff(q: Query, k: nat)
    requires k < |q.strategies|
    ensures Counts(q, k) <==> Admissible(q, q.strategies[k])
  {
  }

  /** The result of a fallback is exactly what the first strategy that counts found, with one
      more diagnostic and seven tenths of the confidence; and something is recovered if and
      only if one counts. */
  lemma RecoveredIff(q: Query)
    requires FallsBack(q)
    ensures Answer(q).candidates != [] <==> exists k :: 0 <= k < |q.strategies| && Counts(q, k)
    ensures forall k :: 0 <= k < |q.strategies| && Counts(q, k) && (forall j :: 0 <= j < k ==> !Counts(q, j)) ==>
              var (found, r, parser) := (q.registered[q.strategies[k].parser], Answer(q), q.strategies[k].parser);
              && r.candidates == found.candidates && r.remaining == found.remaining
              && r.remainder == found.remainder && r.spans == found.spans && r.confidence == found.confidence * 0.7
              && r.diagnostics == found.diagnostics
                   + [UsedFallback(parser, q.choice.AutoCall? && parser == "whole_message_json")]
  {
    forall k | 0 <= k < |q.strategies| ensures Counts(q, k) <==> Admissible(q, q.strategies[k]) {
      CountsIff(q, k);
    }
    forall k | 0 <= k < |q.strategies| && Counts(q, k) && (forall j :: 0 <= j < k ==> !Counts(q, j))
      ensures First(q, 0) == k
    {
    }
    if First(q, 0) < |q.strategies| {
      assert Counts(q, First(q, 0));
    }
  }

  /** A native call outranks every strategy that is to be skipped for one: if all of them are,
      the primary result stands. */
  lemma NativeOutranks(q: Query)
    requires q.nativePresent && forall k :: 0 <= k < |q.strategies| ==> q.strategies[k].skipWhenNative
    ensures Answer(q) == q.primary
  {
    PrimaryStandsIff(q);
  }

  /** Where nothing counts, a find that failed only for its nonce leaves the primary text, no
      candidate, and one warning each. */
  lemma RefusalsAreTold(q: Query)
    requires FallsBack(q) && forall k :: 0 <= k < |q.strategies| ==> !Counts(q, k)
    ensures Answer(q).candidates == [] && Answer(q).remaining == q.primary.remaining
    ensures var (n, m) := (|q.primary.diagnostics|, |Answer(q).diagnostics|);
            && n <= m && Answer(q).diagnostics[..n] == q.primary.diagnostics
            && (forall i :: n <= i < m ==> Answer(q).diagnostics[i] == Discarded)
            && m - n == RefusedTo(q, |q.strategies|)
  {
    forall k | 0 <= k < |q.strategies| ensures !Admissible(q, q.strategies[k]) {
      CountsIff(q, k);
    }
  }

  /** Under auto, a call recovered from a bare message is only ever one that carries the
      nonce issued for this very request. */
  lemma BareMessageNeedsNonce(q: Query, k: nat)
    requires FallsBack(q) && q.choice.AutoCall? && IsFirst(q, k) && q.strategies[k].parser == "whole_message_json"
    ensures q.nonce != "" && Answer(q).candidates[0].nonce == q.nonce
  {
    assert First(q, 0) == k;
  }

  /** Native responses and answered ones are left alone; nothing is recovered where the
      choice forbids it or native calls outrank it; and the primary result comes back
      untouched exactly when no strategy is admissible and none was refused. */
  lemma PrimaryStandsIff(q: Query)
    ensures !FallsBack(q) ==> Answer(q) == q.primary
    ensures FallsBack(q) ==>
              (Answer(q) == q.primary <==> forall k :: 0 <= k < |q.strategies| ==> !Finds(q, q.strategies[k]))
    ensures FallsBack(q) && (forall k :: 0 <= k < |q.strategies| ==> ModeName(q.choice) !in q.strategies[k].modes) ==>
              Answer(q) == q.primary
  {
    if FallsBack(q) {
      RefusedCounts(q, |q.strategies|);
      var k := First(q, 0);
      if k == |q.strategies| && RefusedTo(q, k) > 0 {
        assert |Answer(q).diagnostics| > |q.primary.diagnostics|;
      }
    }
  }

  lemma {:induction false} RefusedCounts(q: Query, n: nat)
    requires n <= |q.strategies|
    ensures RefusedTo(q, n) == 0 <==> forall k :: 0 <= k < n ==> !Refused(q, q.strategies[k])
  {
    if n > 0 {
      RefusedCounts(q, n - 1);
    }
  }

  // ---------------------------------------------------------------- the loop

  /** The result after the first `i` strategies. */
  function AnswerAfter(q: Query, i: nat): Extraction
    requires i <= |q.strategies|
  {
    if q.primary.candidates != [] then q.primary
    else if First(q, 0) < i then FromFallback(q, q.strategies[First(q, 0)])
    else if RefusedTo(q, i) == 0 then q.primary
    else Extraction([], q.primary.remaining, q.primary.diagnostics + Warnings(RefusedTo(q, i)), "", [], 1.0)
  }

  lemma FoundIsFinal(q: Query, i: nat)
    requires i <= |q.strategies| && q.extractor != "native_structured"
    ensures AnswerAfter(q, i).candidates != [] || i == |q.strategies| ==> AnswerAfter(q, i) == Answer(q)
  {
  }

  lemma NextStrategy(q: Query, i: nat)
    requires i < |q.strategies| && AnswerAfter(q, i).candidates == []
    ensures var (s, before) := (q.strategies[i], AnswerAfter(q, i));
            AnswerAfter(q, i + 1) ==
              if Admissible(q, s) then FromFallback(q, s) else if Refused(q, s) then Emptied(before) else before
  {
    var n := RefusedTo(q, i);
    assert Warnings(n) + [Discarded] == Warnings(n + 1);
    assert q.primary.diagnostics + Warnings(n) + [Discarded] == q.primary.diagnostics + (Warnings(n) + [Discarded]);
    assert Warnings(0) == [] && q.primary.diagnostics + [] == q.primary.diagnostics;
  }

  /** `ExtractorRegistry.extract`, for a registered primary extractor. */
  method Extract(q: Query) returns (r: Extraction)
    ensures r == Answer(q)
  {
    r := q.primary;
    if q.extractor == "native_structured" {
      return;
    }
    for i := 0 to |q.strategies|
      invariant r == AnswerAfter(q, i)
    {
      var s := q.strategies[i];
      if r.candidates != [] {
        FoundIsFinal(q, i);
        return;
      }
      NextStrategy(q, i);
      if s.parser == q.extractor {
        continue;
      }
      if s.skipWhenNative && q.nativePresent {
        continue;
      }
      if ModeName(q.choice) !in s.modes {
        continue;
      }
      if s.parser !in q.registered {
        continue;
      }
      var fallback := q.registered[s.parser];
      if fallback.candidates == [] {
        continue;
      }
      if q.choice.NamedCall? && fallback.candidates[0].name != q.choice.name {
        continue;
      }
      if Ambiguous(q, s) {
        if q.nonce == "" || fallback.candidates[0].nonce != q.nonce {
          r := Emptied(r);
          continue;
        }
      }
      r := FromFallback(q, s);
    }
    FoundIsFinal(q, |q.strategies|);
  }
}
