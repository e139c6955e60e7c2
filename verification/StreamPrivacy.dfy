/** The private loop behind the stream: what reaches the client once a stream has continued
    privately. */
module StreamPrivacy {
  import opened Strings
  import opened ToolCalls
  import opened Wrappers
  import CandidateMerge
  import Firewall
  import PrivateLoop
  import StreamEngine
  import StreamTransactions
  import ToolBatch

  function PartOf(b: Firewall.Block): StreamEngine.Part {
    match b
    case Text(text) => StreamEngine.TextPart(text)
    case Call(id, name, arguments) => StreamEngine.CallPart(StreamEngine.Block(id, name, arguments))
    case _ => StreamEngine.OtherPart
  }

  function PartsOf(bs: seq<Firewall.Block>): (r: seq<StreamEngine.Part>)
    ensures |r| == |bs|
  {
    seq(|bs|, i requires 0 <= i < |bs| => PartOf(bs[i]))
  }

  /** The turn a stream hands to the loop: the text it held back, if any. */
  function TurnOf(text: string): PrivateLoop.Turn {
    PrivateLoop.Turn(if text == "" then [] else [Firewall.Text(text)], "", [])
  }

  function RunFor(loop: PrivateLoop.Env, cs: seq<Candidate>, text: string): (PrivateLoop.State, PrivateLoop.Ending) {
    PrivateLoop.RunOf(loop, cs, TurnOf(text))
  }

  /** The stream continues through the private loop. */
  ghost predicate Continues(env: StreamEngine.Env, loop: PrivateLoop.Env) {
    && env.enabled == loop.enabled
    && forall cs, text :: env.continued(cs, text).Final? ==> Answers(env.continued(cs, text), RunFor(loop, cs, text).1)
  }

  ghost predicate Answers(c: StreamEngine.Continued, ending: PrivateLoop.Ending) {
    c.Final? && ending.Public? && c.content == PartsOf(ending.turn.content) && c.candidates == ending.turn.candidates
  }

  /** An event that shows the client nothing private of these steps. */
  ghost predicate PublicEvent(loop: PrivateLoop.Env, steps: seq<PrivateLoop.ModelStep>, e: StreamEngine.Event) {
    match e
    case Text(t) => PrivateLoop.FreeOfRefs(loop, steps, t)
    case ToolUse(b) => b.name !in loop.enabled
    case _ => true
  }

  /** A part that does so, and has no reserved call either. */
  ghost predicate PublicPart(loop: PrivateLoop.Env, steps: seq<PrivateLoop.ModelStep>, p: StreamEngine.Part) {
    match p
    case TextPart(t) => PrivateLoop.FreeOfRefs(loop, steps, t)
    case CallPart(b) => b.name !in loop.enabled && !Firewall.Reserved(b.name)
    case OtherPart => true
  }

  /** The private calls a turn asks for, and the text that goes to the loop with them. */
  function InternalsOf(env: StreamEngine.Env, turn: StreamEngine.Turn): seq<Candidate> {
    var native := StreamEngine.NativeCalls(turn);
    if !env.buffered then Asked(env.enabled, native)
    else
      var found := if turn.text == "" then Some(StreamEngine.Extraction([], [])) else env.extract(turn.text);
      if found.None? then [] else Asked(env.enabled, CandidateMerge.Merge(env.normal, native, found.value.candidates))
  }

  function HeldText(env: StreamEngine.Env, turn: StreamEngine.Turn): string { if env.buffered then turn.text else "" }

  function StepsFor(loop: PrivateLoop.Env, cs: seq<Candidate>, text: string): seq<PrivateLoop.ModelStep> {
    RunFor(loop, cs, text).0.steps
  }

  /** What the loop hands back to a stream is free of everything private of all its rounds. */
  lemma ContinuedIsPublic(env: StreamEngine.Env, loop: PrivateLoop.Env, cs: seq<Candidate>, text: string)
    requires Continues(env, loop) && env.continued(cs, text).Final?
    ensures PublicTurn(loop, StepsFor(loop, cs, text), env.continued(cs, text))
  {
    var (s, ending) := RunFor(loop, cs, text);
    assert Answers(env.continued(cs, text), ending);
    PrivateLoop.ReturnedTurnIsPublic(loop, cs, TurnOf(text));
    var turn := ending.turn;
    assert PrivateLoop.NothingPrivate(loop, s.steps, turn);
    forall i | 0 <= i < |turn.content| ensures PublicPart(loop, s.steps, PartsOf(turn.content)[i]) {
      assert PartsOf(turn.content)[i] == PartOf(turn.content[i]);
    }
    forall i | 0 <= i < |turn.candidates| ensures turn.candidates[i].name !in loop.enabled {
      assert turn.candidates[i] in turn.candidates;
    }
  }

  /** A part is the text or the call of its block, unchanged. */
  lemma PartsAreBlocks(bs: seq<Firewall.Block>)
    ensures |PartsOf(bs)| == |bs|
    ensures forall i :: 0 <= i < |bs| ==>
              && (bs[i].Text? ==> PartsOf(bs)[i] == StreamEngine.TextPart(bs[i].text))
              && (bs[i].Call? ==> PartsOf(bs)[i] == StreamEngine.CallPart(StreamEngine.Block(bs[i].id, bs[i].name, bs[i].arguments)))
              && (!bs[i].Text? && !bs[i].Call? ==> PartsOf(bs)[i].OtherPart?)
  {
  }

  /** A continuation is the last turn of the model, without its private blocks and without the
      candidates that are enabled. */
  lemma ContinuedIsLastTurn(env: StreamEngine.Env, loop: PrivateLoop.Env, cs: seq<Candidate>, text: string)
    requires Continues(env, loop) && cs != [] && env.continued(cs, text).Final?
    ensures var (steps, c) := (StepsFor(loop, cs, text), env.continued(cs, text));
            steps != [] &&
            var last := steps[|steps| - 1].response.turn;
            && c.candidates == Unasked(loop.enabled, last.candidates)
            && c.content == PartsOf(Firewall.Public(last.content, Some(PrivateLoop.IdentityOf(loop, RunFor(loop, cs, text).0))))
  {
    assert Answers(env.continued(cs, text), RunFor(loop, cs, text).1);
    PrivateLoop.ReturnedIsLastTurn(loop, cs, TurnOf(text));
  }

  /** Whatever a stream continues with, every round of the continuation shows the model
      matching calls and results. */
  lemma ContinuationRoundsMatch(env: StreamEngine.Env, loop: PrivateLoop.Env, turn: StreamEngine.Turn, k: nat)
    requires Continues(env, loop)
    requires k < |StepsFor(loop, InternalsOf(env, turn), HeldText(env, turn))|
    ensures var pending := StepsFor(loop, InternalsOf(env, turn), HeldText(env, turn))[k].pending;
            PrivateLoop.OneToOne(PrivateLoop.Calls(loop, pending, k + 1), PrivateLoop.Results(loop, pending, k + 1))
  {
    var native := StreamEngine.NativeCalls(turn);
    var found := if turn.text == "" then Some(StreamEngine.Extraction([], [])) else env.extract(turn.text);
    var asked := if !env.buffered then native
                 else if found.None? then [] else CandidateMerge.Merge(env.normal, native, found.value.candidates);
    assert InternalsOf(env, turn) == Asked(loop.enabled, asked);
    PrivateLoop.EnabledRoundsMatch(loop, asked, TurnOf(HeldText(env, turn)), k);
  }

  // ---------------------------------------------------------- native streams

  lemma {:induction false} PartsArePublic(loop: PrivateLoop.Env, steps: seq<PrivateLoop.ModelStep>,
                                          parts: seq<StreamEngine.Part>, n: nat)
    requires n <= |parts| && forall i :: 0 <= i < |parts| ==> PublicPart(loop, steps, parts[i])
    ensures forall i :: 0 <= i < |StreamEngine.Parts(parts, n)| ==>
              PublicEvent(loop, steps, StreamEngine.Parts(parts, n)[i])
              && (StreamEngine.Parts(parts, n)[i].ToolUse? ==>
                    !Firewall.Reserved(StreamEngine.Parts(parts, n)[i].block.name))
  {
    if n > 0 {
      PartsArePublic(loop, steps, parts, n - 1);
      assert PublicPart(loop, steps, parts[n - 1]);
    }
  }

  /** The relayed calls have no reserved name exactly when the candidates before the first
      whose arguments do not parse have none. */
  lemma RelayedNames(env: StreamEngine.Env, cs: seq<Candidate>)
    ensures var (r, n) := (StreamEngine.Relayed(env, cs, 0).0, StreamEngine.Parsable(env, cs));
            && |r| == n && (forall k :: 0 <= k < n ==> r[k].ToolUse? && r[k].block.name == cs[k].name)
            && (Unreserved(r) <==> NoneReserved(cs[..n]))
  {
    var (r, n) := (StreamEngine.Relayed(env, cs, 0).0, StreamEngine.Parsable(env, cs));
    StreamEngine.RelayedFrom(env, cs, 0);
    assert cs[0..] == cs;
    if Unreserved(r) {
      forall c | c in cs[..n] ensures !Firewall.Reserved(c.name) {
        var k :| 0 <= k < n && cs[k] == c;
        assert !Firewall.Reserved(r[k].block.name);
      }
    }
    if NoneReserved(cs[..n]) {
      forall k | 0 <= k < |r| ensures !Firewall.Reserved(r[k].block.name) {
        assert cs[k] in cs[..n];
      }
    }
  }

  ghost predicate NoneReserved(cs: seq<Candidate>) {
    forall c :: c in cs ==> !Firewall.Reserved(c.name)
  }

  /** The parts pass the filter, the candidates only the removal of the enabled ones. */
  ghost predicate PublicTurn(loop: PrivateLoop.Env, steps: seq<PrivateLoop.ModelStep>, c: StreamEngine.Continued) {
    && c.Final?
    && (forall i :: 0 <= i < |c.content| ==> PublicPart(loop, steps, c.content[i]))
    && (forall i :: 0 <= i < |c.candidates| ==> c.candidates[i].name !in loop.enabled)
  }

  lemma PublicTurnIsRelayed(env: StreamEngine.Env, loop: PrivateLoop.Env, steps: seq<PrivateLoop.ModelStep>,
                            c: StreamEngine.Continued)
    requires PublicTurn(loop, steps, c)
    ensures var calls := StreamEngine.Relayed(env, c.candidates, 0).0;
            var events := StreamEngine.Parts(c.content, |c.content|) + calls;
            && (forall i :: 0 <= i < |events| ==> PublicEvent(loop, steps, events[i]))
            && (Unreserved(events) <==> NoneReserved(c.candidates[..StreamEngine.Parsable(env, c.candidates)]))
  {
    PartsArePublic(loop, steps, c.content, |c.content|);
    RelayedNames(env, c.candidates);
    var (parts, calls) := (StreamEngine.Parts(c.content, |c.content|), StreamEngine.Relayed(env, c.candidates, 0).0);
    forall i | 0 <= i < |calls| ensures PublicEvent(loop, steps, calls[i]) {
      assert calls[i].block.name == c.candidates[i].name;
    }
    BothPublic(loop, steps, parts, calls);
    BothUnreserved(parts, calls);
  }

  /** A native stream relays a continuation in which no text mentions a reference pinned or
      minted in any round and no call is an enabled one; and no call has a reserved name if
      and only if none of the continuation's candidates has one, up to the first whose
      arguments do not parse: candidates bypass the filter. */
  lemma RelayedIsPublic(env: StreamEngine.Env, loop: PrivateLoop.Env, fs: seq<StreamEngine.Frame>)
    requires Continues(env, loop) && StreamEngine.Heard(env, fs)
    requires StreamEngine.PlanOf(env, StreamEngine.Listened(env, fs).turn).Relay?
    ensures var turn := StreamEngine.Listened(env, fs).turn;
            var internals := InternalsOf(env, turn);
            var (events, steps) := (StreamEngine.PlanOf(env, turn).events, StepsFor(loop, internals, ""));
            && env.continued(internals, "").Final?
            && (forall i :: 0 <= i < |events| ==> PublicEvent(loop, steps, events[i]))
            && var cs := env.continued(internals, "").candidates;
               Unreserved(events) <==> NoneReserved(cs[..StreamEngine.Parsable(env, cs)])
  {
    var turn := StreamEngine.Listened(env, fs).turn;
    var internals := InternalsOf(env, turn);
    StreamEngine.RelayShape(env, turn);
    ContinuedIsPublic(env, loop, internals, "");
    PublicTurnIsRelayed(env, loop, StepsFor(loop, internals, ""), env.continued(internals, ""));
  }

  ghost predicate Unreserved(events: seq<StreamEngine.Event>) {
    forall i :: 0 <= i < |events| && events[i].ToolUse? ==> !Firewall.Reserved(events[i].block.name)
  }

  lemma BothPublic(loop: PrivateLoop.Env, steps: seq<PrivateLoop.ModelStep>,
                   a: seq<StreamEngine.Event>, b: seq<StreamEngine.Event>)
    requires forall i :: 0 <= i < |a| ==> PublicEvent(loop, steps, a[i])
    requires forall i :: 0 <= i < |b| ==> PublicEvent(loop, steps, b[i])
    ensures forall i :: 0 <= i < |a + b| ==> PublicEvent(loop, steps, (a + b)[i])
  {
  }

  lemma BothUnreserved(a: seq<StreamEngine.Event>, b: seq<StreamEngine.Event>)
    requires Unreserved(a)
    ensures Unreserved(a + b) <==> Unreserved(b)
  {
    if Unreserved(a + b) {
      forall i | 0 <= i < |b| && b[i].ToolUse? ensures !Firewall.Reserved(b[i].block.name) {
        assert (a + b)[|a| + i] == b[i];
      }
    }
  }

  // ------------------------------------------------ streams that hold text back

  lemma {:induction false} TextsAreFree(loop: PrivateLoop.Env, steps: seq<PrivateLoop.ModelStep>,
                                        parts: seq<StreamEngine.Part>, n: nat)
    requires n <= |parts| && forall i :: 0 <= i < |parts| ==> PublicPart(loop, steps, parts[i])
    ensures forall i :: 0 <= i < |StreamEngine.Texts(parts, n)| ==>
              PrivateLoop.FreeOfRefs(loop, steps, StreamEngine.Texts(parts, n)[i])
  {
    if n > 0 {
      TextsAreFree(loop, steps, parts, n - 1);
      assert PublicPart(loop, steps, parts[n - 1]);
    }
  }

  /** What such a stream does with a continuation. */
  lemma BufferedShape(env: StreamEngine.Env, turn: StreamEngine.Turn)
    requires env.buffered && InternalsOf(env, turn) != []
    requires env.continued(InternalsOf(env, turn), turn.text).Final? && StreamEngine.PlanOf(env, turn).Emit?
    ensures var (plan, c) := (StreamEngine.PlanOf(env, turn), env.continued(InternalsOf(env, turn), turn.text));
            var (texts, again) := (StreamEngine.Texts(c.content, |c.content|), env.reextract(c.content, c.candidates));
            again.Some?
            && plan == StreamEngine.BufferedEnd(env, StreamEngine.Join(texts, |texts|), texts, again.value, plan.usage)
  {
  }

  /** An occurrence of `ref` in the first `m` texts, joined, that begins before the n-th of
      them and ends in or behind it. */
  ghost predicate StraddlesAt(texts: seq<string>, m: nat, ref: string, n: nat, at: nat)
    requires m <= |texts|
  {
    && n < m && OccursAt(StreamEngine.Join(texts, m), ref, at)
    && at < |StreamEngine.Join(texts, n)| < at + |ref|
  }

  ghost predicate Straddles(texts: seq<string>, m: nat, ref: string)
    requires m <= |texts|
  {
    exists n: nat, at: nat :: StraddlesAt(texts, m, ref, n, at)
  }

  lemma StraddlesOn(texts: seq<string>, m: nat, ref: string)
    requires 0 < m <= |texts| && Straddles(texts, m - 1, ref)
    ensures Straddles(texts, m, ref)
  {
    var n: nat, at: nat :| StraddlesAt(texts, m - 1, ref, n, at);
    assert StraddlesAt(texts, m, ref, n, at);
  }

  lemma OccursBehind(before: string, last: string, ref: string, at: nat)
    requires OccursAt(before + last, ref, at) && at >= |before|
    ensures Contains(last, ref)
  {
    assert OccursAt(last, ref, at - |before|);
  }

  /** Texts that do not mention `ref` one by one mention it joined exactly when an
      occurrence straddles the place where two of them meet. */
  lemma {:induction false} JoinMentionsIff(texts: seq<string>, m: nat, ref: string)
    requires m <= |texts| && ref != "" && forall i :: 0 <= i < m ==> !Contains(texts[i], ref)
    ensures Contains(StreamEngine.Join(texts, m), ref) <==> Straddles(texts, m, ref)
  {
    var joined := StreamEngine.Join(texts, m);
    if m > 0 && Contains(joined, ref) {
      JoinMentionsIff(texts, m - 1, ref);
      var (before, last) := (StreamEngine.Join(texts, m - 1), texts[m - 1]);
      var at: nat :| at <= |joined| && OccursAt(joined, ref, at);
      if at + |ref| <= |before| {
        assert OccursAt(before, ref, at);
        StraddlesOn(texts, m, ref);
      } else if at >= |before| {
        OccursBehind(before, last, ref, at);
      } else {
        assert StraddlesAt(texts, m, ref, m - 1, at);
      }
    }
  }

  /** The same of all of them; every text mentions the empty reference. */
  lemma JoinedMentionsIff(texts: seq<string>, ref: string)
    requires texts != [] && forall i :: 0 <= i < |texts| ==> !Contains(texts[i], ref)
    ensures Contains(StreamEngine.Join(texts, |texts|), ref) <==> Straddles(texts, |texts|, ref)
  {
    assert ref == "" ==> OccursAt(texts[0], ref, 0);
    JoinMentionsIff(texts, |texts|, ref);
  }

  /** A reference pinned or minted in these steps. */
  ghost predicate PrivateRef(loop: PrivateLoop.Env, steps: seq<PrivateLoop.ModelStep>, ref: string) {
    ref in loop.pinned
    || exists k :: 0 <= k < |steps| && ref in PrivateLoop.RoundRefs(loop, steps[k].pending, k + 1)
  }

  lemma FreeOfPrivateRefs(loop: PrivateLoop.Env, steps: seq<PrivateLoop.ModelStep>, text: string)
    ensures PrivateLoop.FreeOfRefs(loop, steps, text) <==> forall ref :: PrivateRef(loop, steps, ref) ==> !Contains(text, ref)
  {
    if forall ref :: PrivateRef(loop, steps, ref) ==> !Contains(text, ref) {
      forall ref | ref in loop.pinned ensures !Contains(text, ref) {
        assert PrivateRef(loop, steps, ref);
      }
      forall k, ref | 0 <= k < |steps| && ref in PrivateLoop.RoundRefs(loop, steps[k].pending, k + 1)
        ensures !Contains(text, ref)
      {
        assert PrivateRef(loop, steps, ref);
      }
    }
  }

  /** No reference that is private in these steps straddles the place where two texts meet. */
  ghost predicate NoneStraddles(loop: PrivateLoop.Env, steps: seq<PrivateLoop.ModelStep>, texts: seq<string>) {
    forall ref :: PrivateRef(loop, steps, ref) ==> !Straddles(texts, |texts|, ref)
  }

  lemma JoinedIsFreeIff(loop: PrivateLoop.Env, steps: seq<PrivateLoop.ModelStep>, texts: seq<string>)
    requires texts != [] && forall i :: 0 <= i < |texts| ==> PrivateLoop.FreeOfRefs(loop, steps, texts[i])
    ensures PrivateLoop.FreeOfRefs(loop, steps, StreamEngine.Join(texts, |texts|)) <==> NoneStraddles(loop, steps, texts)
  {
    forall ref | PrivateRef(loop, steps, ref)
      ensures Contains(StreamEngine.Join(texts, |texts|), ref) <==> Straddles(texts, |texts|, ref)
    {
      forall i | 0 <= i < |texts| ensures !Contains(texts[i], ref) {
        FreeOfPrivateRefs(loop, steps, texts[i]);
      }
      JoinedMentionsIff(texts, ref);
    }
    FreeOfPrivateRefs(loop, steps, StreamEngine.Join(texts, |texts|));
  }

  /** One text meets no other. */
  lemma OneTextStraddlesNothing(loop: PrivateLoop.Env, steps: seq<PrivateLoop.ModelStep>, texts: seq<string>)
    requires |texts| <= 1
    ensures NoneStraddles(loop, steps, texts)
  {
    assert forall ref, n: nat, at: nat :: !StraddlesAt(texts, |texts|, ref, n, at);
  }

  /** What a stream that held text back makes of a continuation is free of references. */
  ghost predicate EndsFree(loop: PrivateLoop.Env, steps: seq<PrivateLoop.ModelStep>, plan: StreamEngine.Plan)
    requires plan.Emit?
  {
    forall i :: 0 <= i < |plan.texts| ==> PrivateLoop.FreeOfRefs(loop, steps, plan.texts[i])
  }

  lemma EndIsPublic(env: StreamEngine.Env, loop: PrivateLoop.Env, steps: seq<PrivateLoop.ModelStep>,
                    texts: seq<string>, merged: seq<Candidate>, usage: Option<StreamEngine.Usage>)
    requires env.enabled == loop.enabled
    requires forall i :: 0 <= i < |texts| ==> PrivateLoop.FreeOfRefs(loop, steps, texts[i])
    ensures var plan := StreamEngine.BufferedEnd(env, StreamEngine.Join(texts, |texts|), texts, merged, usage);
            plan.Emit? ==>
              && (EndsFree(loop, steps, plan) <==> plan.batch.Some? || plan.texts == [] || NoneStraddles(loop, steps, texts))
              && (plan.batch.Some? ==> forall x :: x in plan.batch.value.candidates ==> x.name !in loop.enabled)
  {
    AskedAreEnabled(env.enabled, merged);
    var plan := StreamEngine.BufferedEnd(env, StreamEngine.Join(texts, |texts|), texts, merged, usage);
    if plan.Emit? && plan.batch.None? && plan.texts != [] {
      assert plan.texts == [StreamEngine.Join(texts, |texts|)] && texts != [];
      JoinedIsFreeIff(loop, steps, texts);
      assert EndsFree(loop, steps, plan) <==> PrivateLoop.FreeOfRefs(loop, steps, plan.texts[0]);
    }
  }

  /** What a stream that held text back emits after a continuation mentions no reference
      pinned or minted in any round, if and only if something is decided, so that the
      continuation's texts go out one by one, or there is no text, or no reference straddles
      the place where two of the texts, which go out joined, meet; with at most one text
      none does. Only candidates that are not enabled are decided. */
  lemma BufferedIsPublic(env: StreamEngine.Env, loop: PrivateLoop.Env, turn: StreamEngine.Turn)
    requires Continues(env, loop) && env.buffered && InternalsOf(env, turn) != []
    requires env.continued(InternalsOf(env, turn), turn.text).Final? && StreamEngine.PlanOf(env, turn).Emit?
    ensures var (plan, c) := (StreamEngine.PlanOf(env, turn), env.continued(InternalsOf(env, turn), turn.text));
            var steps := StepsFor(loop, InternalsOf(env, turn), turn.text);
            var texts := StreamEngine.Texts(c.content, |c.content|);
            && (EndsFree(loop, steps, plan) <==> plan.batch.Some? || plan.texts == [] || NoneStraddles(loop, steps, texts))
            && (|texts| <= 1 ==> EndsFree(loop, steps, plan))
            && (plan.batch.Some? ==> forall x :: x in plan.batch.value.candidates ==> x.name !in loop.enabled)
  {
    var internals := InternalsOf(env, turn);
    var c := env.continued(internals, turn.text);
    var steps := StepsFor(loop, internals, turn.text);
    var texts := StreamEngine.Texts(c.content, |c.content|);
    BufferedShape(env, turn);
    ContinuedIsPublic(env, loop, internals, turn.text);
    TextsAreFree(loop, steps, c.content, |c.content|);
    EndIsPublic(env, loop, steps, texts, env.reextract(c.content, c.candidates).value, StreamEngine.PlanOf(env, turn).usage);
    if |texts| <= 1 {
      OneTextStraddlesNothing(loop, steps, texts);
    }
  }

  /** With the transaction behind the decisions and reserved names for what is enabled, no
      call that such a stream shows is enabled or reserved. */
  lemma DecidedCallsArePublic(env: StreamEngine.Env, loop: PrivateLoop.Env, fs: seq<StreamEngine.Frame>,
                              batches: ToolBatch.Env, attempts: nat)
    requires Continues(env, loop) && forall name :: name in loop.enabled ==> Firewall.Reserved(name)
    requires StreamTransactions.Transacts(env, batches, attempts)
    requires ToolBatch.Sane(batches) && ToolBatch.NoneReserved(batches.declared)
    requires StreamEngine.Heard(env, fs) && env.buffered
    ensures var log := StreamEngine.Stream(env, fs).log;
            forall i :: 0 <= i < |StreamEngine.CallsIn(log, |log|)| ==>
              var name := StreamEngine.CallsIn(log, |log|)[i].name;
              name !in loop.enabled && !Firewall.Reserved(name)
  {
    var turn := StreamEngine.Listened(env, fs).turn;
    var plan := StreamEngine.PlanOf(env, turn);
    StreamEngine.CallsAreTheDecision(env, fs);
    StreamEngine.PlansRelayBody(env, turn);
    if plan.Emit? && plan.batch.Some? {
      var kept := StreamTransactions.StreamedCallsAreDecided(env, fs, batches, attempts);
    }
  }
}
