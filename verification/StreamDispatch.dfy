/** Which way a streaming request goes: to the engine, or through the ladder of attempts that
    answers it whole; and what the client sees either way. */
module StreamDispatch {
  import opened Wrappers
  import opened StreamEngine
  import opened ToolCalls
  import opened StreamAssembly
  import opened StreamOutcomes
  import StreamLoop
  import StreamPrivacy

  /** What the private capabilities of a request admit. */
  datatype Capabilities = Capabilities(readResult: bool, recallHistory: bool, searchHistory: bool, toolSchema: bool) {
    predicate HasAny() { readResult || recallHistory || searchHistory || toolSchema }
  }

  /** What the policy looks at. `direct` is a direct path with native tools, `certified` an
      evidence record or a safe observation of the same serving tuple. */
  datatype Request = Request(
    bufferUnverified: bool,
    capabilities: Option<Capabilities>,
    tools: bool,
    choiceIsNone: bool,
    direct: bool,
    certified: bool)

  /** The ladder's answer. */
  datatype Response = Response(error: Option<Code>, content: seq<Part>, usage: Usage, stop: Option<Stop>)

  /** What answers a request that is buffered: the ladder, an exception where there is no
      answer, and whether recording the outcome raises before or after the record is final. */
  datatype Ladder = Ladder(answer: Option<Response>, recording: Bookkeeping)

  /** `_enabled_internal_tools` */
  function EnabledBy(capabilities: Option<Capabilities>): set<string> {
    match capabilities
    case None => {}
    case Some(c) =>
      (if c.readResult then {"__interop_read_result"} else {})
      + (if c.recallHistory then {"__interop_recall_history"} else {})
      + (if c.searchHistory then {"__interop_search_history"} else {})
      + (if c.toolSchema then {"__interop_get_tool_schema"} else {})
  }

  /** `_buffered_stream_policy` */
  predicate Buffers(r: Request) {
    if !r.bufferUnverified then false
    else if r.capabilities.Some? && r.capabilities.value.HasAny() then true
    else if !r.tools || r.choiceIsNone then false
    else if !r.direct then true
    else !r.certified
  }

  /** `_events_from_buffered_response` */
  function ResponseEvents(r: Response): seq<Event> {
    if r.error.Some? then [Error(r.error.value), MessageStop(Some(InvalidOutput))]
    else
      Parts(r.content, |r.content|)
      + (if r.usage.input != 0 || r.usage.output != 0 then [UsageUpdate(r.usage)] else [])
      + [MessageStop(r.stop)]
  }

  function Climb(ladder: Ladder): Out {
    var start := Out([], Active, NoReservation, Running);
    match ladder.answer
    case None => start.(status := Raised)
    case Some(r) =>
      var done := start.(record := if r.error.Some? then Failed else Succeeded);
      match ladder.recording
      case EvidenceFails => start.(status := Raised)
      case FinalizeFails => done.(status := Raised)
      case Fine => SayAll(done, ResponseEvents(r)).(status := Ended)
  }

  /** What answers the request, exceptions still in flight. */
  function Answer(r: Request, ladder: Ladder, env: Env, fs: seq<Frame>): Out {
    if Buffers(r) then Climb(ladder) else Engine(env, fs)
  }

  /** `handle_stream`: an exception becomes one more error and one more stop. */
  function Dispatched(r: Request, ladder: Ladder, env: Env, fs: seq<Frame>): Out {
    var out := Answer(r, ladder, env, fs);
    if out.status.Raised? || env.closingRaises then Abort(out, Internal, None) else out
  }

  // ------------------------------------------------------------- its lemmas

  /** A stream waits for a validated response if and only if its route says so and either a
      private capability is active, or there are tools that may be called and this serving
      tuple is not one of direct native tools that has been certified. */
  lemma BuffersIff(r: Request)
    ensures Buffers(r) <==>
              && r.bufferUnverified
              && ((r.capabilities.Some? && (r.capabilities.value.readResult || r.capabilities.value.recallHistory
                                            || r.capabilities.value.searchHistory || r.capabilities.value.toolSchema))
                  || (r.tools && !r.choiceIsNone && !(r.direct && r.certified)))
  {
  }

  /** Each capability enables its own tool and nothing else does. */
  lemma EnabledIff(capabilities: Option<Capabilities>, name: string)
    ensures name in EnabledBy(capabilities) <==>
              && capabilities.Some?
              && var c := capabilities.value;
                 || (c.readResult && name == "__interop_read_result")
                 || (c.recallHistory && name == "__interop_recall_history")
                 || (c.searchHistory && name == "__interop_search_history")
                 || (c.toolSchema && name == "__interop_get_tool_schema")
  {
  }

  /** The usage of a response, unless it is nothing, and its own stop reason. */
  function Ends(r: Response): seq<Event> {
    (if r.usage == Usage(0, 0) then [] else [UsageUpdate(r.usage)]) + [MessageStop(r.stop)]
  }

  lemma ContentIsShown(r: Response, done: Out)
    requires r.error.None? && done.log == [] && done.status.Running?
    ensures Shows(SayAll(done, ResponseEvents(r)).(status := Ended), PartText(r.content, |r.content|),
                  PartCalls(r.content, |r.content|), Ends(r), Ended)
  {
    var (parts, text, calls) := (Parts(r.content, |r.content|), PartText(r.content, |r.content|), PartCalls(r.content, |r.content|));
    PartsAreBody(r.content, |r.content|);
    PartsSpeak(r.content, |r.content|);
    PartsShowCalls(r.content, |r.content|);
    SayAllShows(done, parts, "", [], Running);
    assert [] + calls == calls && "" + text == text;
    SaysOn(done, parts, Ends(r), text, calls);
    assert ResponseEvents(r) == parts + Ends(r);
  }

  lemma ErrorIsShown(code: Code, done: Out)
    requires done.log == [] && done.status.Running?
    ensures var es := [Error(code), MessageStop(Some(InvalidOutput))];
            Shows(SayAll(done, es).(status := Ended), "", [], es, Ended)
  {
    var es := [Error(code), MessageStop(Some(InvalidOutput))];
    assert SayAll(done, []) == done;
    SaysOn(done, [], es, "", []);
    assert [] + es == es;
  }

  /** A buffered response is shown whole: all its text, all its calls, its usage unless it is
      nothing, and its own stop reason; an error is shown as just that. */
  lemma ResponseIsShown(ladder: Ladder)
    requires ladder.answer.Some? && ladder.recording.Fine?
    ensures var (r, out) := (ladder.answer.value, Climb(ladder));
            if r.error.Some? then Shows(out, "", [], [Error(r.error.value), MessageStop(Some(InvalidOutput))], Ended)
            else Shows(out, PartText(r.content, |r.content|), PartCalls(r.content, |r.content|), Ends(r), Ended)
  {
    var r := ladder.answer.value;
    var done := Out([], if r.error.Some? then Failed else Succeeded, NoReservation, Running);
    if r.error.None? {
      ContentIsShown(r, done);
    } else {
      ErrorIsShown(r.error.value, done);
    }
  }

  /** What is said behind text and calls. */
  lemma SaysOn(out: Out, body: seq<Event>, tail: seq<Event>, text: string, calls: seq<Block>)
    requires Shows(SayAll(out, body), text, calls, [], Running)
    ensures Shows(SayAll(out, body + tail).(status := Ended), text, calls, tail, Ended)
  {
    SayAllSays(out, body);
    SayAllSays(out, body + tail);
    var (before, after) := (SayAll(out, body), SayAll(out, body + tail).(status := Ended));
    forall i | 0 <= i < |before.log| ensures after.log[i] == before.log[i] {
      if i >= |out.log| {
        assert before.log[|out.log| + (i - |out.log|)] == Emission(body[i - |out.log|], out.record);
        assert after.log[|out.log| + (i - |out.log|)] == Emission((body + tail)[i - |out.log|], out.record);
      }
    }
    forall i | 0 <= i < |tail| ensures after.log[|before.log| + i].event == tail[i] {
      assert after.log[|out.log| + (|body| + i)] == Emission((body + tail)[|body| + i], out.record);
    }
    GoesOn(before, after, text, calls, tail, Running);
  }

  /** The record of a buffered stream: it fails if the ladder raises, its evidence cannot be
      recorded or it answers with an error, and succeeds otherwise, even where finalising it
      then raises. */
  lemma BufferedRecord(r: Request, ladder: Ladder, env: Env, fs: seq<Frame>)
    requires Buffers(r)
    ensures Dispatched(r, ladder, env, fs).record ==
              if ladder.answer.None? || ladder.recording.EvidenceFails? || ladder.answer.value.error.Some? then Failed
              else Succeeded
  {
    if ladder.answer.Some? {
      var done := Out([], if ladder.answer.value.error.Some? then Failed else Succeeded, NoReservation, Running);
      SayAllSays(done, ResponseEvents(ladder.answer.value));
    }
  }

  /** The policy and the private tools look at the same capabilities: a request that enables
      one is buffered if and only if its route buffers at all. */
  lemma PrivateIsBufferedIff(r: Request)
    requires EnabledBy(r.capabilities) != {}
    ensures Buffers(r) <==> r.bufferUnverified
  {
  }

  /** A route that buffers sends nothing to the engine that could continue privately: no
      stream of the engine is silent or relays, and none has a private call to answer. */
  lemma DirectHasNothingPrivate(r: Request, env: Env, fs: seq<Frame>)
    requires r.bufferUnverified && !Buffers(r) && env.enabled == EnabledBy(r.capabilities)
    ensures env.enabled == {} && !Silent(env, fs) && !PlanOf(env, Listened(env, fs).turn).Relay?
    ensures forall turn :: StreamPrivacy.InternalsOf(env, turn) == []
  {
    if env.enabled != {} {
      PrivateIsBufferedIff(r);
    }
    forall cs ensures Asked(env.enabled, cs) == [] {
      var asked := Asked(env.enabled, cs);
      assert asked != [] ==> asked[0] in asked;
      AskedAreEnabled(env.enabled, cs);
    }
    PlansRelayBody(env, Listened(env, fs).turn);
  }

  /** The events of a response that is no error: its parts, at most a usage update, a stop. */
  lemma ResponseShape(r: Response)
    requires r.error.None?
    ensures var (es, n) := (ResponseEvents(r), |Parts(r.content, |r.content|)|);
            && n < |es| <= n + 2 && es[..n] == Parts(r.content, |r.content|)
            && (|es| == n + 2 ==> es[n].UsageUpdate?) && es[|es| - 1] == MessageStop(r.stop)
            && forall i :: 0 <= i < n ==> IsBody(es[i])
  {
    PartsAreBody(r.content, |r.content|);
  }

  /** The response says that it calls tools if it does. */
  ghost predicate CallsSaid(r: Response) {
    (exists i :: 0 <= i < |r.content| && r.content[i].CallPart?) ==> r.stop == Some(ToolCalls)
  }

  /** The log is these events, with a record that is final throughout. */
  ghost predicate Logs(log: seq<Emission>, es: seq<Event>) {
    |log| == |es| && forall i :: 0 <= i < |es| ==> log[i].event == es[i] && !log[i].record.Active?
  }

  lemma SaidFromNothing(out: Out, es: seq<Event>)
    requires out.log == [] && !out.record.Active?
    ensures Logs(SayAll(out, es).log, es)
  {
    SayAllSays(out, es);
    forall i | 0 <= i < |es| ensures SayAll(out, es).log[i] == Emission(es[i], out.record) {
      assert SayAll(out, es).log[|out.log| + i] == Emission(es[i], out.record);
    }
  }

  lemma ClimbLogs(ladder: Ladder)
    requires ladder.answer.Some? && ladder.recording.Fine?
    ensures Logs(Climb(ladder).log, ResponseEvents(ladder.answer.value))
  {
    var r := ladder.answer.value;
    var done := Out([], if r.error.Some? then Failed else Succeeded, NoReservation, Running);
    SaidFromNothing(done, ResponseEvents(r));
  }

  /** A response that is no error is a well-formed stream exactly when it says that it calls
      tools if it does. */
  lemma ContentIsWellFormedIff(r: Response, log: seq<Emission>)
    requires r.error.None? && Logs(log, ResponseEvents(r))
    ensures WellFormed(log) <==> CallsSaid(r)
  {
    var parts := Parts(r.content, |r.content|);
    var n := |parts|;
    ResponseShape(r);
    PartsCallIff(r.content, |r.content|);
    assert HasCall(log, n) <==> AnyCall(parts) by {
      assert forall i :: 0 <= i < n ==> log[i].event == parts[i];
    }
    if m: nat :| EndsAt(log, m) {
      assert n < |log| - 1 ==> !IsBody(log[n].event);
      assert m == n;
    }
    if CallsSaid(r) {
      assert EndsAt(log, n);
    }
  }

  lemma BodyThenStop(log: seq<Emission>, n: nat)
    requires n < |log| <= n + 2 && BodyOnly(log, n) && log[|log| - 1].event.MessageStop?
    requires |log| == n + 2 ==> !log[n].event.MessageStop?
    ensures Stops(log, |log|) == 1
  {
    BodyNeverStops(log, n);
  }

  lemma ClimbStops(ladder: Ladder)
    ensures var out := Climb(ladder);
            Stops(out.log, |out.log|) == if out.status.Ended? then 1 else 0
  {
    if ladder.answer.Some? && ladder.recording.Fine? {
      var (r, log) := (ladder.answer.value, Climb(ladder).log);
      ClimbLogs(ladder);
      if r.error.Some? {
        BodyThenStop(log, 0);
      } else {
        ResponseShape(r);
        BodyThenStop(log, |Parts(r.content, |r.content|)|);
      }
    }
  }

  /** A request that is not buffered is the stream of the engine. */
  lemma DirectIsStream(r: Request, ladder: Ladder, env: Env, fs: seq<Frame>)
    requires !Buffers(r)
    ensures Dispatched(r, ladder, env, fs) == Stream(env, fs)
  {
  }

  /** As long as nothing raises after the stop, a streaming request stops exactly once if and
      only if its route buffers or the engine would not be silent. */
  lemma StopsOnceIff(r: Request, ladder: Ladder, env: Env, fs: seq<Frame>)
    requires env.enabled == EnabledBy(r.capabilities) && !env.closingRaises && !env.safetyRecorderRaises
    ensures var log := Dispatched(r, ladder, env, fs).log;
            Stops(log, |log|) == 1 <==> r.bufferUnverified || !Silent(env, fs)
  {
    if Buffers(r) {
      ClimbStops(ladder);
      AbortStopsOnceMore(Climb(ladder), Internal, None);
    } else {
      if r.bufferUnverified {
        DirectHasNothingPrivate(r, env, fs);
      }
      DirectIsStream(r, ladder, env, fs);
      StreamStops(env, fs);
    }
  }

  /** The ladder's way is well-formed exactly when it raises, answers with an error, or
      answers with a response that says that it calls tools if it does. */
  ghost predicate ClimbsWell(ladder: Ladder) {
    ladder.answer.Some? && ladder.recording.Fine? && ladder.answer.value.error.None? ==> CallsSaid(ladder.answer.value)
  }

  lemma ClimbIsWellFormedIff(ladder: Ladder)
    requires Climb(ladder).status.Ended?
    ensures WellFormed(Climb(ladder).log) <==> ClimbsWell(ladder)
  {
    ClimbLogs(ladder);
    if ladder.answer.value.error.Some? {
      assert EndsAt(Climb(ladder).log, 0);
    } else {
      ContentIsWellFormedIff(ladder.answer.value, Climb(ladder).log);
    }
  }

  lemma ClimbAborts(ladder: Ladder)
    requires Climb(ladder).status.Raised?
    ensures WellFormed(Abort(Climb(ladder), Internal, None).log) && ClimbsWell(ladder)
  {
    AbortEnds(Climb(ladder), Internal, None);
  }

  /** And it is well-formed exactly when, besides, a buffered response that calls tools says
      so: unlike the engine, the ladder passes the model's own reason on. */
  lemma WellFormedIff(r: Request, ladder: Ladder, env: Env, fs: seq<Frame>)
    requires env.enabled == EnabledBy(r.capabilities) && !env.closingRaises && !env.safetyRecorderRaises
    ensures WellFormed(Dispatched(r, ladder, env, fs).log) <==>
              if Buffers(r) then ClimbsWell(ladder) else !Silent(env, fs)
  {
    if !Buffers(r) {
      DirectIsStream(r, ladder, env, fs);
      StreamIsWellFormedIff(env, fs);
    } else if Climb(ladder).status.Ended? {
      ClimbIsWellFormedIff(ladder);
    } else {
      ClimbAborts(ladder);
    }
  }

  // -------------------------------------------------------------- the methods

  /** `_events_from_buffered_response` */
  method EmitResponse(start: Out, r: Response) returns (out: Out)
    ensures out == SayAll(start, ResponseEvents(r))
  {
    if r.error.Some? {
      out := Say(start, Error(r.error.value));
      out := Say(out, MessageStop(Some(InvalidOutput)));
      StreamLoop.SayAllThen(start, [], Error(r.error.value));
      StreamLoop.SayAllThen(start, [Error(r.error.value)], MessageStop(Some(InvalidOutput)));
      assert [] + [Error(r.error.value)] == [Error(r.error.value)];
      assert ResponseEvents(r) == [Error(r.error.value)] + [MessageStop(Some(InvalidOutput))];
      return;
    }
    var called;
    out, called := StreamLoop.RelayParts(start, r.content);
    ghost var said := Parts(r.content, |r.content|);
    ghost var stop := [MessageStop(r.stop)];
    assert ResponseEvents(r) == said + stop || ResponseEvents(r) == said + [UsageUpdate(r.usage)] + stop;
    if r.usage.input != 0 || r.usage.output != 0 {
      StreamLoop.SayAllThen(start, said, UsageUpdate(r.usage));
      out := Say(out, UsageUpdate(r.usage));
      said := said + [UsageUpdate(r.usage)];
    }
    StreamLoop.SayAllThen(start, said, MessageStop(r.stop));
    out := Say(out, MessageStop(r.stop));
  }

  /** `_stream_dispatch` */
  method StreamDispatch(r: Request, ladder: Ladder, env: Env, fs: seq<Frame>) returns (out: Out)
    ensures out == Answer(r, ladder, env, fs)
  {
    if !Buffers(r) {
      out := StreamLoop.RunSendStream(env, fs);
      return;
    }
    out := Out([], Active, NoReservation, Running);
    if ladder.answer.None? || ladder.recording.EvidenceFails? {
      return out.(status := Raised);
    }
    var response := ladder.answer.value;
    out := out.(record := if response.error.Some? then Failed else Succeeded);
    if ladder.recording.FinalizeFails? {
      return out.(status := Raised);
    }
    out := EmitResponse(out, response);
    out := out.(status := Ended);
  }

  /** `handle_stream` */
  method HandleStream(r: Request, ladder: Ladder, env: Env, fs: seq<Frame>) returns (out: Out)
    ensures out == Dispatched(r, ladder, env, fs)
  {
    out := StreamDispatch(r, ladder, env, fs);
    if out.status.Raised? || env.closingRaises {
      out := Abort(out, Internal, None);
    }
  }
}
