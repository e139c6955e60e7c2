/** What the client of a stream sees in the end, for every stream that gets to the end of its
    turn: which text, which calls, and how it stops, read off what was received and what the
    collaborators answer. */
module StreamOutcomes {
  import opened CandidateMerge
  import opened StreamAccumulator
  import opened StreamAssembly
  import opened StreamEngine
  import opened ToolCalls
  import opened Wrappers

  /** The log is text and calls, this text and these calls, and then exactly these events. */
  ghost predicate Shows(out: Out, text: string, calls: seq<Block>, tail: seq<Event>, status: Status) {
    var n := |out.log| - |tail|;
    && n >= 0 && out.status == status
    && BodyOnly(out.log, n) && Spoken(out.log, n) == text && CallsIn(out.log, n) == calls
    && forall i :: 0 <= i < |tail| ==> out.log[n + i].event == tail[i]
  }

  /** The text among the first `n` of some events. */
  function TextOf(es: seq<Event>, n: nat): string
    requires n <= |es|
  {
    if n == 0 then "" else if es[n - 1].Text? then TextOf(es, n - 1) + es[n - 1].partial else TextOf(es, n - 1)
  }

  /** How a clean end goes on after text and calls: bookkeeping that fails is an error. */
  function Closing(env: Env, usage: Option<Usage>, stop: Stop): seq<Event> {
    if !env.bookkeeping.Fine? then [Error(Internal), MessageStop(Some(InvalidOutput))]
    else (if usage.Some? then [UsageUpdate(usage.value)] else []) + [MessageStop(Some(stop))]
  }

  /** The backend's own stop reason, the last one it gave. */
  function OwnStop(items: seq<Item>): Stop {
    if LastStop(items, |items|).Some? then LastStop(items, |items|).value else EndTurn
  }

  // ---------------------------------------------------------------- emitting

  lemma {:induction false} SayAllSpeaks(out: Out, es: seq<Event>, n: nat)
    requires n <= |es|
    ensures |SayAll(out, es).log| == |out.log| + |es|
    ensures Spoken(SayAll(out, es).log, |out.log| + n) == Spoken(out.log, |out.log|) + TextOf(es, n)
  {
    SayAllSays(out, es);
    var log := SayAll(out, es).log;
    if n == 0 {
      SpokenAgrees(log, out.log, |out.log|);
    } else {
      SayAllSpeaks(out, es, n - 1);
      assert log[|out.log| + (n - 1)] == Emission(es[n - 1], out.record);
    }
  }

  lemma SayAllShows(out: Out, es: seq<Event>, text: string, calls: seq<Block>, status: Status)
    requires Shows(out, text, calls, [], status) && forall i :: 0 <= i < |es| ==> IsBody(es[i])
    ensures Shows(SayAll(out, es), text + TextOf(es, |es|), calls + BlocksIn(es, |es|), [], status)
  {
    SayAllIsBody(out, es);
    AllIsSpoken(out, es);
    AllIsCalled(out, es);
    ShowsMore(out, SayAll(out, es), text, calls, TextOf(es, |es|), BlocksIn(es, |es|), status);
  }

  lemma AllIsSpoken(out: Out, es: seq<Event>)
    ensures var log := SayAll(out, es).log;
            Spoken(log, |log|) == Spoken(out.log, |out.log|) + TextOf(es, |es|)
  {
    SayAllSpeaks(out, es, |es|);
  }

  lemma AllIsCalled(out: Out, es: seq<Event>)
    ensures var log := SayAll(out, es).log;
            CallsIn(log, |log|) == CallsIn(out.log, |out.log|) + BlocksIn(es, |es|)
  {
    SayAllCalls(out, es, |es|);
  }

  lemma ShowsMore(before: Out, after: Out, text: string, calls: seq<Block>, more: string, blocks: seq<Block>, status: Status)
    requires Shows(before, text, calls, [], status)
    requires BodyOnly(after.log, |after.log|) && after.status == status
    requires Spoken(after.log, |after.log|) == Spoken(before.log, |before.log|) + more
    requires CallsIn(after.log, |after.log|) == CallsIn(before.log, |before.log|) + blocks
    ensures Shows(after, text + more, calls + blocks, [], status)
  {
  }

  lemma SayAllIsBody(out: Out, es: seq<Event>)
    requires BodyOnly(out.log, |out.log|) && forall i :: 0 <= i < |es| ==> IsBody(es[i])
    ensures BodyOnly(SayAll(out, es).log, |SayAll(out, es).log|) && SayAll(out, es).status == out.status
  {
    SayAllSays(out, es);
    var (log, n) := (SayAll(out, es).log, |out.log|);
    forall i | 0 <= i < |log| ensures IsBody(log[i].event) {
      if i < n {
        assert log[i] == out.log[i];
      } else {
        assert log[n + (i - n)] == Emission(es[i - n], out.record);
      }
    }
  }

  lemma {:induction false} TextEventsSpeak(texts: seq<string>, n: nat)
    requires n <= |texts|
    ensures TextOf(TextEvents(texts, n), |TextEvents(texts, n)|) == Join(texts, n)
  {
    if n > 0 {
      TextEventsSpeak(texts, n - 1);
      var (before, es) := (TextEvents(texts, n - 1), TextEvents(texts, n));
      TextOfAgrees(es, before, |before|);
      assert Join(texts, n - 1) + "" == Join(texts, n - 1);
    }
  }

  lemma {:induction false} TextOfAgrees(a: seq<Event>, b: seq<Event>, n: nat)
    requires n <= |a| && n <= |b| && forall i :: 0 <= i < n ==> a[i] == b[i]
    ensures TextOf(a, n) == TextOf(b, n)
  {
    if n > 0 {
      TextOfAgrees(a, b, n - 1);
    }
  }

  lemma {:induction false} NoTextInCalls(es: seq<Event>, n: nat)
    requires n <= |es| && forall i :: 0 <= i < |es| ==> es[i].ToolUse?
    ensures TextOf(es, n) == ""
  {
    if n > 0 {
      NoTextInCalls(es, n - 1);
    }
  }

  lemma SayTextsShows(out: Out, texts: seq<string>, text: string, calls: seq<Block>, status: Status)
    requires Shows(out, text, calls, [], status)
    ensures Shows(SayAll(out, TextEvents(texts, |texts|)), text + Join(texts, |texts|), calls, [], status)
  {
    var es := TextEvents(texts, |texts|);
    TextEventsAreText(texts, |texts|);
    TextEventsSpeak(texts, |texts|);
    NoBlocksInText(es, |es|);
    SayAllShows(out, es, text, calls, status);
    assert calls + [] == calls;
  }

  lemma SayCallsShows(out: Out, blocks: seq<Block>, text: string, status: Status)
    requires Shows(out, text, [], [], status)
    ensures Shows(SayAll(out, CallEvents(blocks, |blocks|)), text, blocks, [], status)
  {
    var es := CallEvents(blocks, |blocks|);
    CallEventsAreCalls(blocks, |blocks|);
    NoTextInCalls(es, |es|);
    BlocksInCalls(blocks, |blocks|);
    SayAllShows(out, es, text, [], status);
    assert blocks[..|blocks|] == blocks && [] + blocks == blocks && text + "" == text;
  }

  /** A log that goes on with these events, whatever the records, shows the same. */
  lemma GoesOn(out: Out, after: Out, text: string, calls: seq<Block>, tail: seq<Event>, status: Status)
    requires Shows(out, text, calls, [], status)
    requires |after.log| == |out.log| + |tail| && forall i :: 0 <= i < |out.log| ==> after.log[i] == out.log[i]
    requires forall i :: 0 <= i < |tail| ==> after.log[|out.log| + i].event == tail[i]
    ensures Shows(after, text, calls, tail, after.status)
  {
    SpokenAgrees(after.log, out.log, |out.log|);
    CallsAgree(after.log, out.log, |out.log|);
  }

  lemma AbortShows(out: Out, code: Code, stop: Option<Stop>, text: string, calls: seq<Block>, status: Status)
    requires Shows(out, text, calls, [], status)
    ensures Shows(Abort(out, code, stop), text, calls, [Error(code), MessageStop(stop)], Ended)
  {
    GoesOn(out, Abort(out, code, stop), text, calls, [Error(code), MessageStop(stop)], status);
  }

  lemma CleanEndShows(env: Env, out: Out, turn: Turn, usage: Option<Usage>, called: bool, text: string, calls: seq<Block>)
    requires Shows(out, text, calls, [], out.status)
    ensures var stop := if called then ToolCalls else if turn.stop.Some? then turn.stop.value else EndTurn;
            Shows(CleanEnd(env, out, turn, usage, called), text, calls, Closing(env, usage, stop), Ended)
  {
    var stop := if called then ToolCalls else if turn.stop.Some? then turn.stop.value else EndTurn;
    CleanEndCloses(env, out, turn, usage, called);
    GoesOn(out, CleanEnd(env, out, turn, usage, called), text, calls, Closing(env, usage, stop), out.status);
  }

  lemma CleanEndCloses(env: Env, out: Out, turn: Turn, usage: Option<Usage>, called: bool)
    ensures var stop := if called then ToolCalls else if turn.stop.Some? then turn.stop.value else EndTurn;
            var (log, tail, n) := (CleanEnd(env, out, turn, usage, called).log, Closing(env, usage, stop), |out.log|);
            && |log| == n + |tail| && (forall i :: 0 <= i < n ==> log[i] == out.log[i])
            && (forall i :: 0 <= i < |tail| ==> log[n + i].event == tail[i])
            && CleanEnd(env, out, turn, usage, called).status.Ended?
  {
  }

  // ------------------------------------------------------ how the turn ends

  /** The stream stops without a call. */
  ghost predicate EndsInText(env: Env, items: seq<Item>, text: string, usage: Option<Usage>, out: Out) {
    Shows(out, text, [], Closing(env, usage, OwnStop(items)), Ended)
  }

  /** These candidates are decided, all together: an exception before anything of them is
      shown, or the texts and then the whole batch or its rejection. */
  ghost predicate EndsDecided(env: Env, items: seq<Item>, said: string, texts: seq<string>, cs: seq<Candidate>,
                              usage: Option<Usage>, out: Out) {
    var text := said + Join(texts, |texts|);
    match env.decide(cs)
    case None => Shows(out, said, [], [], Raised)
    case Some(Decision(accepted, blocks)) =>
      if !accepted && blocks == [] then
        if env.rejectionErrorRaises then Shows(out, text, [], [], Raised)
        else Shows(out, text, [], [Error(BatchRejected), MessageStop(Some(InvalidOutput))],
                   if env.safetyRecorderRaises then Raised else Ended)
      else if env.safetyRecorderRaises then Shows(out, text, blocks, [], Raised)
      else Shows(out, text, blocks, Closing(env, usage, if blocks != [] then ToolCalls else OwnStop(items)), Ended)
  }

  /** Text that is still held back goes out whole if there is nothing to decide. */
  ghost predicate EndsHeldBack(env: Env, items: seq<Item>, text: string, texts: seq<string>, cs: seq<Candidate>,
                               usage: Option<Usage>, out: Out) {
    if cs == [] then EndsInText(env, items, text, usage, out) else EndsDecided(env, items, "", texts, cs, usage, out)
  }

  /** The text that the parts relay. */
  function PartText(parts: seq<Part>, n: nat): string
    requires n <= |parts|
  {
    if n == 0 then ""
    else if parts[n - 1].TextPart? then PartText(parts, n - 1) + parts[n - 1].text
    else PartText(parts, n - 1)
  }

  /** A continuation is relayed behind what was said. */
  ghost predicate EndsRelayed(env: Env, items: seq<Item>, said: string, c: Continued, out: Out)
    requires c.Final?
  {
    var text := said + PartText(c.content, |c.content|);
    exists calls :: ShowsPrefix(env, c, calls) &&
      if Parsable(env, c.candidates) < |c.candidates| then Shows(out, text, calls, [], Raised)
      else if CallFree(c) then Shows(out, text, calls, [], Ended)
      else Shows(out, text, calls, Closing(env, LastUsage(items, |items|), ToolCalls), Ended)
  }

  lemma StatusShows(out: Out, text: string, calls: seq<Block>, tail: seq<Event>, before: Status, status: Status)
    requires Shows(out, text, calls, tail, before)
    ensures Shows(out.(status := status), text, calls, tail, status)
  {
  }

  lemma RejectedShows(env: Env, items: seq<Item>, turn: Turn, said: string, texts: seq<string>, cs: seq<Candidate>,
                      usage: Option<Usage>, out: Out)
    requires Shows(SayAll(out, TextEvents(texts, |texts|)), said + Join(texts, |texts|), [], [], Running)
    requires env.decide(cs).Some? && Rejects(env.decide(cs).value)
    ensures EndsDecided(env, items, said, texts, cs, usage, Perform(env, turn, Decided(env, texts, cs, usage), out))
  {
    var (spoken, text) := (SayAll(out, TextEvents(texts, |texts|)), said + Join(texts, |texts|));
    var rejected := Abort(spoken, BatchRejected, Some(InvalidOutput));
    AbortShows(spoken, BatchRejected, Some(InvalidOutput), text, [], Running);
    StatusShows(spoken, text, [], [], Running, Raised);
    StatusShows(rejected, text, [], [Error(BatchRejected), MessageStop(Some(InvalidOutput))], Ended, Raised);
  }

  lemma CalledShows(env: Env, items: seq<Item>, turn: Turn, said: string, texts: seq<string>, cs: seq<Candidate>,
                    usage: Option<Usage>, out: Out)
    requires Shows(SayAll(out, TextEvents(texts, |texts|)), said + Join(texts, |texts|), [], [], Running)
    requires turn.stop == LastStop(items, |items|)
    requires env.decide(cs).Some? && !Rejects(env.decide(cs).value)
    ensures EndsDecided(env, items, said, texts, cs, usage, Perform(env, turn, Decided(env, texts, cs, usage), out))
  {
    var (spoken, text) := (SayAll(out, TextEvents(texts, |texts|)), said + Join(texts, |texts|));
    var blocks := env.decide(cs).value.blocks;
    var called := SayAll(spoken, CallEvents(blocks, |blocks|));
    SayCallsShows(spoken, blocks, text, Running);
    StatusShows(called, text, blocks, [], Running, Raised);
    CleanEndShows(env, called, turn, usage, blocks != [], text, blocks);
  }

  lemma DecidedShows(env: Env, items: seq<Item>, turn: Turn, said: string, texts: seq<string>, cs: seq<Candidate>,
                     usage: Option<Usage>, out: Out)
    requires Shows(out, said, [], [], Running) && turn.stop == LastStop(items, |items|)
    ensures EndsDecided(env, items, said, texts, cs, usage, Perform(env, turn, Decided(env, texts, cs, usage), out))
  {
    SayTextsShows(out, texts, said, [], Running);
    if env.decide(cs).None? {
      StatusShows(out, said, [], [], Running, Raised);
    } else if Rejects(env.decide(cs).value) {
      RejectedShows(env, items, turn, said, texts, cs, usage, out);
    } else {
      CalledShows(env, items, turn, said, texts, cs, usage, out);
    }
  }

  lemma InTextShows(env: Env, items: seq<Item>, turn: Turn, said: string, texts: seq<string>, usage: Option<Usage>, out: Out)
    requires Shows(out, said, [], [], Running) && turn.stop == LastStop(items, |items|)
    ensures EndsInText(env, items, said + Join(texts, |texts|), usage, Perform(env, turn, Emit(texts, None, usage), out))
  {
    var spoken := SayAll(out, TextEvents(texts, |texts|));
    SayTextsShows(out, texts, said, [], Running);
    CleanEndShows(env, spoken, turn, usage, false, said + Join(texts, |texts|), []);
  }

  lemma HeldBackShows(env: Env, items: seq<Item>, turn: Turn, text: string, texts: seq<string>, merged: seq<Candidate>,
                      usage: Option<Usage>, out: Out)
    requires Shows(out, "", [], [], Running) && turn.stop == LastStop(items, |items|)
    ensures EndsHeldBack(env, items, text, texts, Unasked(env.enabled, merged), usage,
                         Perform(env, turn, BufferedEnd(env, text, texts, merged, usage), out))
  {
    var cs := Unasked(env.enabled, merged);
    if cs != [] {
      DecidedShows(env, items, turn, "", texts, cs, usage, out);
    } else {
      var whole := if text == "" then [] else [text];
      InTextShows(env, items, turn, "", whole, usage, out);
      assert Join([text], 1) == Join([text], 0) + text == text;
      assert "" + Join(whole, |whole|) == text;
    }
  }

  lemma {:induction false} PartsSpeak(parts: seq<Part>, n: nat)
    requires n <= |parts|
    ensures TextOf(Parts(parts, n), |Parts(parts, n)|) == PartText(parts, n)
  {
    if n > 0 {
      PartsSpeak(parts, n - 1);
      var (before, es) := (Parts(parts, n - 1), Parts(parts, n));
      assert forall i :: 0 <= i < |before| ==> es[i] == before[i];
      TextOfAgrees(es, before, |before|);
    }
  }

  lemma {:induction false} TextOfConcat(a: seq<Event>, b: seq<Event>, n: nat)
    requires n <= |b|
    ensures TextOf(a + b, |a| + n) == TextOf(a, |a|) + TextOf(b, n)
  {
    if n == 0 {
      TextOfAgrees(a + b, a, |a|);
    } else {
      TextOfConcat(a, b, n - 1);
      assert (a + b)[|a| + (n - 1)] == b[n - 1];
    }
  }

  lemma RelaySpeaks(env: Env, c: Continued)
    requires c.Final?
    ensures var events := Parts(c.content, |c.content|) + Relayed(env, c.candidates, 0).0;
            TextOf(events, |events|) == PartText(c.content, |c.content|)
            && forall i :: 0 <= i < |events| ==> IsBody(events[i])
  {
    var (parts, calls) := (Parts(c.content, |c.content|), Relayed(env, c.candidates, 0).0);
    PartsSpeak(c.content, |c.content|);
    PartsAreBody(c.content, |c.content|);
    RelayedAreCalls(env, c.candidates, 0);
    TextOfConcat(parts, calls, |calls|);
    NoTextInCalls(calls, |calls|);
  }

  /** How a relay ends once everything of it is said. */
  lemma RelayCloses(env: Env, items: seq<Item>, turn: Turn, said: string, c: Continued, told: Out, calls: seq<Block>,
                    called: bool)
    requires c.Final? && turn.usage == LastUsage(items, |items|) && ShowsPrefix(env, c, calls)
    requires Shows(told, said + PartText(c.content, |c.content|), calls, [], Running)
    requires Parsable(env, c.candidates) == |c.candidates| ==> (called <==> !CallFree(c))
    ensures EndsRelayed(env, items, said, c,
                        if Parsable(env, c.candidates) < |c.candidates| then told.(status := Raised)
                        else if !called then told.(status := Ended)
                        else CleanEnd(env, told, turn, turn.usage, true))
  {
    var text := said + PartText(c.content, |c.content|);
    StatusShows(told, text, calls, [], Running, Raised);
    StatusShows(told, text, calls, [], Running, Ended);
    CleanEndShows(env, told, turn, turn.usage, true, text, calls);
  }

  function RelayEvents(env: Env, c: Continued): seq<Event>
    requires c.Final?
  {
    Parts(c.content, |c.content|) + Relayed(env, c.candidates, 0).0
  }

  lemma RelaySays(env: Env, said: string, c: Continued, out: Out)
    requires c.Final? && Shows(out, said, [], [], Running)
    ensures var events := RelayEvents(env, c);
            Shows(SayAll(out, events), said + PartText(c.content, |c.content|), BlocksIn(events, |events|), [], Running)
  {
    var events := RelayEvents(env, c);
    RelaySpeaks(env, c);
    SayAllShows(out, events, said, [], Running);
    assert [] + BlocksIn(events, |events|) == BlocksIn(events, |events|);
  }

  lemma RelayCallsIff(env: Env, c: Continued)
    requires c.Final? && Parsable(env, c.candidates) == |c.candidates|
    ensures AnyCall(RelayEvents(env, c)) <==> !CallFree(c)
  {
    RelayedBlocks(env, c);
    RelayIsSilentIff(env, c);
  }

  lemma PerformRelays(env: Env, turn: Turn, events: seq<Event>, crash: bool, out: Out)
    ensures var told := SayAll(out, events);
            Perform(env, turn, Relay(events, crash), out) ==
              if crash then told.(status := Raised)
              else if !AnyCall(events) then told.(status := Ended)
              else CleanEnd(env, told, turn, turn.usage, true)
  {
  }

  lemma RelayedShows(env: Env, items: seq<Item>, turn: Turn, said: string, c: Continued, out: Out)
    requires c.Final? && Shows(out, said, [], [], Running) && turn.usage == LastUsage(items, |items|)
    ensures EndsRelayed(env, items, said, c,
                        Perform(env, turn, Relay(RelayEvents(env, c), Relayed(env, c.candidates, 0).1), out))
  {
    var events := RelayEvents(env, c);
    RelaySays(env, said, c, out);
    RelayedBlocks(env, c);
    if Parsable(env, c.candidates) == |c.candidates| {
      RelayCallsIff(env, c);
    }
    PerformRelays(env, turn, events, Relayed(env, c.candidates, 0).1, out);
    RelayCloses(env, items, turn, said, c, SayAll(out, events), BlocksIn(events, |events|), AnyCall(events));
  }

  // ---------------------------------------------------------- pieces of text

  /** The texts of a continuation are exactly its parts that are text, in order: `kept[i]` is
      the part of the i-th. */
  lemma {:induction false} TextsAreParts(parts: seq<Part>, n: nat) returns (kept: seq<nat>)
    requires n <= |parts|
    ensures var texts := Texts(parts, n);
            && |kept| == |texts|
            && (forall i :: 0 <= i < |kept| ==> kept[i] < n && parts[kept[i]] == TextPart(texts[i]))
            && (forall i, j :: 0 <= i < j < |kept| ==> kept[i] < kept[j])
            && (forall k :: 0 <= k < n && parts[k].TextPart? ==> k in kept)
  {
    kept := [];
    if n > 0 {
      kept := TextsAreParts(parts, n - 1);
      if parts[n - 1].TextPart? {
        kept := kept + [n - 1];
      }
    }
  }

  /** None of these events is an empty text. */
  ghost predicate NoneEmpty(es: seq<Event>) { forall i :: 0 <= i < |es| ==> es[i] != Text("") }

  /** Nor is any from the n-th event of this log on. */
  ghost predicate NoneEmptyFrom(log: seq<Emission>, n: nat) { forall i :: n <= i < |log| ==> log[i].event != Text("") }

  lemma {:induction false} NoEmptyTexts(texts: seq<string>, n: nat)
    requires n <= |texts|
    ensures NoneEmpty(TextEvents(texts, n))
  {
    if n > 0 {
      NoEmptyTexts(texts, n - 1);
    }
  }

  lemma {:induction false} NoEmptyParts(parts: seq<Part>, n: nat)
    requires n <= |parts|
    ensures NoneEmpty(Parts(parts, n))
  {
    if n > 0 {
      NoEmptyParts(parts, n - 1);
    }
  }

  lemma SayAllNoneEmpty(out: Out, es: seq<Event>, n: nat)
    requires NoneEmptyFrom(out.log, n) && NoneEmpty(es)
    ensures NoneEmptyFrom(SayAll(out, es).log, n)
  {
    SayAllSays(out, es);
    var (log, m) := (SayAll(out, es).log, |out.log|);
    forall i | n <= i < |log| ensures log[i].event != Text("") {
      if i >= m {
        assert log[m + (i - m)] == Emission(es[i - m], out.record);
      }
    }
  }

  lemma CleanEndNoneEmpty(env: Env, out: Out, turn: Turn, usage: Option<Usage>, called: bool, n: nat)
    requires NoneEmptyFrom(out.log, n)
    ensures NoneEmptyFrom(CleanEnd(env, out, turn, usage, called).log, n)
  {
    CleanEndCloses(env, out, turn, usage, called);
    var (log, m) := (CleanEnd(env, out, turn, usage, called).log, |out.log|);
    var stop := if called then ToolCalls else if turn.stop.Some? then turn.stop.value else EndTurn;
    forall i | n <= i < |log| ensures log[i].event != Text("") {
      if i >= m {
        assert log[m + (i - m)].event == Closing(env, usage, stop)[i - m];
      }
    }
  }

  lemma EmitNoneEmpty(env: Env, turn: Turn, plan: Plan, out: Out, n: nat)
    requires plan.Emit? && NoneEmptyFrom(out.log, n)
    ensures NoneEmptyFrom(Perform(env, turn, plan, out).log, n)
  {
    var spoken := SayAll(out, TextEvents(plan.texts, |plan.texts|));
    NoEmptyTexts(plan.texts, |plan.texts|);
    SayAllNoneEmpty(out, TextEvents(plan.texts, |plan.texts|), n);
    if plan.batch.None? {
      CleanEndNoneEmpty(env, spoken, turn, plan.usage, false, n);
    } else {
      var blocks := plan.batch.value.decision.blocks;
      CallEventsAreCalls(blocks, |blocks|);
      SayAllNoneEmpty(spoken, CallEvents(blocks, |blocks|), n);
      CleanEndNoneEmpty(env, SayAll(spoken, CallEvents(blocks, |blocks|)), turn, plan.usage, blocks != [], n);
    }
  }

  /** Nothing that is said at the end of a turn is an empty text. */
  lemma NothingEmptyIsSaid(env: Env, fs: seq<Frame>)
    requires Heard(env, fs)
    ensures NoneEmptyFrom(Engine(env, fs).log, |Listened(env, fs).out.log|)
  {
    var (s, n) := (Listened(env, fs), |Listened(env, fs).out.log|);
    var plan := PlanOf(env, s.turn);
    match plan {
      case Crash =>
      case FailPrivately =>
      case Emit(_, _, _) => EmitNoneEmpty(env, s.turn, plan, s.out, n);
      case Relay(events, _) =>
        RelayShape(env, s.turn);
        var c := env.continued(Asked(env.enabled, NativeCalls(s.turn)), "");
        NoEmptyParts(c.content, |c.content|);
        RelayedAreCalls(env, c.candidates, 0);
        SayAllNoneEmpty(s.out, events, n);
        CleanEndNoneEmpty(env, SayAll(s.out, events), s.turn, s.turn.usage, true, n);
    }
  }

  // ------------------------------------------------------- the whole stream

  /** Everything received. */
  function All(fs: seq<Frame>): seq<Item> { Received(fs, 0) }

  function Whole(fs: seq<Frame>): string { Deltas(All(fs), |All(fs)|) }

  /** The calls of the turn, put together from their fragments: those the stream finished and
      then those it left open, by key. */
  ghost function Drained(items: seq<Item>): seq<Call> {
    Finished(items, |items|) + InKeyOrder(items, |items|, OpenKeys(items, |items|))
  }

  /** Those with a name. */
  ghost function Native(fs: seq<Frame>): seq<Candidate> {
    Candidates(Drained(All(fs)), |Drained(All(fs))|)
  }

  /** What is found in text that was held back, None where looking for it raises. */
  function Found(env: Env, fs: seq<Frame>): Option<Extraction> {
    if !env.buffered || Whole(fs) == "" then Some(Extraction([], [])) else env.extract(Whole(fs))
  }

  /** All candidates of the turn. */
  ghost function TurnCalls(env: Env, fs: seq<Frame>): seq<Candidate>
    requires Found(env, fs).Some?
  {
    Merge(env.normal, Native(fs), Found(env, fs).value.candidates)
  }

  /** What the client has been told by the end of the turn, and what has been held back. */
  function Said(env: Env, fs: seq<Frame>): string { if env.buffered then "" else Whole(fs) }

  function Held(env: Env, fs: seq<Frame>): string { if env.buffered then Whole(fs) else "" }

  function FinalUsage(fs: seq<Frame>): Option<Usage> { LastUsage(All(fs), |All(fs)|) }

  /** The turn as it was received. */
  lemma TurnIsRead(env: Env, fs: seq<Frame>)
    requires Heard(env, fs)
    ensures var s := Listened(env, fs);
            && Shows(s.out, Said(env, fs), [], [], Running) && s.turn.text == Held(env, fs)
            && s.turn.usage == FinalUsage(fs) && s.turn.stop == LastStop(All(fs), |All(fs)|)
            && NativeCalls(s.turn) == Native(fs)
  {
    OnlyStreamsAreHeard(env, fs);
    HeardIsRead(env, fs);
    var s := Listened(env, fs);
    NativeIsRead(s.turn, fs);
    SaidIsShown(env, fs, s.out);
  }

  lemma NativeIsRead(turn: Turn, fs: seq<Frame>)
    requires Assembled(turn.acc, All(fs), |All(fs)|)
    ensures NativeCalls(turn) == Native(fs)
  {
    AllFinished(turn.acc, All(fs), |All(fs)|);
  }

  lemma SaidIsShown(env: Env, fs: seq<Frame>, out: Out)
    requires Says(env, All(fs), |All(fs)|, out) && out.status.Running?
    ensures Shows(out, Said(env, fs), [], [], Running)
  {
    NoCallsIn(out.log, |out.log|);
  }

  /** Nothing private is asked for, and no candidate at all: all the text the backend sent,
      no call, and a clean end with the usage and the stop reason it gave last. */
  lemma TextIsShown(env: Env, fs: seq<Frame>)
    requires Heard(env, fs) && Found(env, fs).Some? && TurnCalls(env, fs) == []
    ensures EndsInText(env, All(fs), Whole(fs), FinalUsage(fs), Engine(env, fs))
  {
    TurnIsRead(env, fs);
    var s := Listened(env, fs);
    assert Asked(env.enabled, []) == [] && Unasked(env.enabled, []) == [];
    if env.buffered {
      HeldBackShows(env, All(fs), s.turn, s.turn.text, Found(env, fs).value.remaining, [], s.turn.usage, s.out);
    } else {
      InTextShows(env, All(fs), s.turn, Said(env, fs), [], s.turn.usage, s.out);
      assert Said(env, fs) + "" == Said(env, fs);
    }
  }

  /** Candidates, none of them private: they are decided all together, with the text around
      them when text was held back and behind all of the text otherwise. */
  lemma BatchIsShown(env: Env, fs: seq<Frame>)
    requires Heard(env, fs) && Found(env, fs).Some? && TurnCalls(env, fs) != []
    requires forall c :: c in TurnCalls(env, fs) ==> c.name !in env.enabled
    ensures EndsDecided(env, All(fs), Said(env, fs), Found(env, fs).value.remaining, TurnCalls(env, fs), FinalUsage(fs),
                        Engine(env, fs))
  {
    TurnIsRead(env, fs);
    var (s, cs, texts) := (Listened(env, fs), TurnCalls(env, fs), Found(env, fs).value.remaining);
    NoneAsked(env.enabled, cs);
    DecidedShows(env, All(fs), s.turn, Said(env, fs), texts, cs, s.turn.usage, s.out);
  }

  lemma {:induction false} NoneAskedTo(enabled: set<string>, cs: seq<Candidate>, n: nat)
    requires n <= |cs| && forall c :: c in cs ==> c.name !in enabled
    ensures Split(enabled, cs, true, n) == [] && Split(enabled, cs, false, n) == cs[..n]
  {
    if n > 0 {
      NoneAskedTo(enabled, cs, n - 1);
      assert cs[n - 1] in cs && cs[..n] == cs[..n - 1] + [cs[n - 1]];
    }
  }

  lemma NoneAsked(enabled: set<string>, cs: seq<Candidate>)
    requires forall c :: c in cs ==> c.name !in enabled
    ensures Asked(enabled, cs) == [] && Unasked(enabled, cs) == cs
  {
    NoneAskedTo(enabled, cs, |cs|);
    assert cs[..|cs|] == cs;
  }

  /** Looking for calls in the text raises: nothing more is said. */
  lemma FailedSearchIsShown(env: Env, fs: seq<Frame>)
    requires Heard(env, fs) && Found(env, fs).None?
    ensures Shows(Engine(env, fs), Said(env, fs), [], [], Raised)
  {
    TurnIsRead(env, fs);
  }

  /** What a private continuation makes of a stream that held text back. */
  ghost predicate EndsContinued(env: Env, items: seq<Item>, c: Continued, usage: Option<Usage>, out: Out)
    requires c.Final?
  {
    var texts := Texts(c.content, |c.content|);
    match env.reextract(c.content, c.candidates)
    case None => Shows(out, "", [], [], Raised)
    case Some(again) =>
      EndsHeldBack(env, items, Join(texts, |texts|), texts, Unasked(env.enabled, again),
                   if c.usage.Some? then c.usage else usage, out)
  }

  /** Private calls: the loop is given exactly these and the text that was held back. If it
      raises nothing more is said; if it fails so does the stream, except that one that held
      text back takes a failure without an error as if nothing private had been asked for;
      and if it answers, its answer takes the place of the turn. */
  lemma ContinuationIsShown(env: Env, fs: seq<Frame>)
    requires Heard(env, fs) && Found(env, fs).Some? && Asked(env.enabled, TurnCalls(env, fs)) != []
    ensures var (items, out, cs) := (All(fs), Engine(env, fs), TurnCalls(env, fs));
            match env.continued(Asked(env.enabled, cs), Held(env, fs))
            case Fails => Shows(out, Said(env, fs), [], [], Raised)
            case Terminal(error) =>
              if error || !env.buffered then
                Shows(out, Said(env, fs), [], [Error(PrivateFailed), MessageStop(Some(InvalidOutput))], Ended)
              else EndsHeldBack(env, items, Whole(fs), Found(env, fs).value.remaining, Unasked(env.enabled, cs), FinalUsage(fs), out)
            case Final(content, candidates, usage) =>
              if env.buffered then EndsContinued(env, items, Final(content, candidates, usage), FinalUsage(fs), out)
              else EndsRelayed(env, items, Said(env, fs), Final(content, candidates, usage), out)
  {
    TurnIsRead(env, fs);
    var s := Listened(env, fs);
    StatusShows(s.out, Said(env, fs), [], [], Running, Raised);
    AbortShows(s.out, PrivateFailed, Some(InvalidOutput), Said(env, fs), [], Running);
    if env.buffered {
      BufferedContinuation(env, fs);
    } else if env.continued(Asked(env.enabled, TurnCalls(env, fs)), "").Final? {
      NativeContinuation(env, fs);
    }
  }

  lemma NativeContinuation(env: Env, fs: seq<Frame>)
    requires !env.buffered && Heard(env, fs) && Asked(env.enabled, TurnCalls(env, fs)) != []
    requires env.continued(Asked(env.enabled, TurnCalls(env, fs)), "").Final?
    ensures EndsRelayed(env, All(fs), Said(env, fs), env.continued(Asked(env.enabled, TurnCalls(env, fs)), ""), Engine(env, fs))
  {
    TurnIsRead(env, fs);
    var (s, c) := (Listened(env, fs), env.continued(Asked(env.enabled, TurnCalls(env, fs)), ""));
    assert Asked(env.enabled, []) == [];
    assert PlanOf(env, s.turn) == Relay(RelayEvents(env, c), Relayed(env, c.candidates, 0).1);
    RelayedShows(env, All(fs), s.turn, Said(env, fs), c, s.out);
  }

  lemma BufferedContinuation(env: Env, fs: seq<Frame>)
    requires env.buffered && Heard(env, fs) && Found(env, fs).Some? && Asked(env.enabled, TurnCalls(env, fs)) != []
    ensures var (items, out, cs) := (All(fs), Engine(env, fs), TurnCalls(env, fs));
            match env.continued(Asked(env.enabled, cs), Whole(fs))
            case Terminal(false) =>
              EndsHeldBack(env, items, Whole(fs), Found(env, fs).value.remaining, Unasked(env.enabled, cs), FinalUsage(fs), out)
            case Final(content, candidates, usage) =>
              EndsContinued(env, items, Final(content, candidates, usage), FinalUsage(fs), out)
            case _ => true
  {
    TurnIsRead(env, fs);
    var (s, cs) := (Listened(env, fs), TurnCalls(env, fs));
    match env.continued(Asked(env.enabled, cs), Whole(fs)) {
      case Terminal(false) =>
        HeldBackShows(env, All(fs), s.turn, Whole(fs), Found(env, fs).value.remaining, cs, s.turn.usage, s.out);
      case Final(content, candidates, usage) =>
        var texts := Texts(content, |content|);
        match env.reextract(content, candidates) {
          case None => StatusShows(s.out, "", [], [], Running, Raised);
          case Some(again) =>
            HeldBackShows(env, All(fs), s.turn, Join(texts, |texts|), texts, again,
                          if usage.Some? then usage else s.turn.usage, s.out);
        }
      case _ =>
    }
  }

  /** A stream that never gets as far as the backend's frames says only why, if it does not
      raise. */
  lemma RefusalIsShown(env: Env, fs: seq<Frame>)
    requires !env.opening.Streams?
    ensures var code := match env.opening
              case HistoryIsUnsafe => Some(HistoryUnsafe)
              case ChoiceConflicts => Some(ChoiceConflict)
              case PreparationFails => Some(GateRefused)
              case BytesSpent => Some(ContextLimit)
              case GenerationsSpent => Some(BudgetExhausted)
              case AdmissionRefuses => Some(NotAdmitted)
              case HttpFails => Some(Upstream)
              case _ => None;
            if code.Some? then Shows(Engine(env, fs), "", [], [Error(code.value), MessageStop(None)], Ended)
            else Shows(Engine(env, fs), "", [], [], Raised)
  {
    var start := State(NO_TURN, Opened(env));
    assert Listened(env, fs) == start;
  }

  /** The wrapper adds an error and a stop where the engine, or closing, raised, and nothing
      otherwise. */
  lemma WrapperAdds(env: Env, fs: seq<Frame>)
    ensures var (out, log) := (Engine(env, fs), Stream(env, fs).log);
            && |log| == |out.log| + (if out.status.Raised? || env.closingRaises then 2 else 0)
            && log[..|out.log|] == out.log
            && (|log| > |out.log| ==> log[|out.log|].event == Error(Internal) && log[|out.log| + 1].event == MessageStop(None))
  {
  }
}
