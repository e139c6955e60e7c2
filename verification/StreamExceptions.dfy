/** Streams that do not stop exactly once: one input for each way it happens. */
module StreamExceptions {
  import opened StreamAccumulator
  import opened StreamEngine
  import opened ToolCalls
  import opened Wrappers

  /** A native stream with one call and nothing else out of the ordinary. */
  function Plain(enabled: set<string>, continued: Continued, decision: Decision, recorder: bool, closing: bool): Env {
    Env(Streams, true, false, 8, Limits(1000, 8), enabled, s => s,
        text => Some(Extraction([], [text])), (cs, text) => continued, (parts, cs) => Some(cs),
        cs => Some(decision), s => Some(s), Fine, false, recorder, closing)
  }

  /** The last frame carries a whole call by this name. */
  function OneCall(name: string): seq<Frame> {
    [Frame([Fragment(Key(0, 0), "call_1", name, "{}")], true)]
  }

  const RETRIEVAL := "__interop_read_result"

  function OpenCall(name: string): Call { Call(Key(0, 0), "call_1", name, "{}", false) }

  lemma OneCallAccumulates(name: string)
    ensures Feed(Limits(1000, 8), Acc([], []), Key(0, 0), "call_1", name, "{}") == Fed(Acc([OpenCall(name)], []))
  {
    FeedIsOneStep(Limits(1000, 8), Acc([], []), Key(0, 0), "call_1", name, "{}");
    var blank := Call(Key(0, 0), "", "", "", false);
    assert Bytes("{}") == 2 by {
      assert "{}"[1..] == "}" && "}"[1..] == "";
    }
    assert "" + name == name && "" + "{}" == "{}";
    assert [blank][0 := OpenCall(name)] == [OpenCall(name)];
  }

  lemma OneCallCompletes(name: string)
    requires name != ""
    ensures CompleteAll(Acc([OpenCall(name)], []), true).completed == [OpenCall(name).(completed := true)]
    ensures Candidates([OpenCall(name).(completed := true)], 1) == [Candidate("call_1", name, "{}")]
  {
    var (call, done) := (OpenCall(name), Acc([], [OpenCall(name).(completed := true)]));
    assert StreamAccumulator.Complete(Acc([call], []), Key(0, 0), true) == done;
    assert CompleteAll(done, true) == done;
    assert Candidates([call.(completed := true)], 0) == [];
  }

  lemma OneEvent(env: Env, s: State, e: Decoded, t: State)
    requires s.out.status.Running? && t == HandleEvent(env, s, e)
    ensures HandleEvents(env, s, [e], 0) == t
  {
    assert HandleEvents(env, t, [e], 1) == t;
  }

  lemma OneFrame(env: Env, s: State, e: Decoded, t: State)
    requires s.out.status.Running? && t == HandleEvent(env, s, e) && !t.turn.failed
    ensures HandleFrames(env, s, [Frame([e], true)], 0) == t
  {
    OneEvent(env, s, e, t);
    assert HandleFrame(env, s, Frame([e], true)) == t;
  }

  /** The turn after the one call. */
  function Heeded(name: string): Turn { NO_TURN.(acc := Acc([OpenCall(name)], [])) }

  lemma OneCallIsHandled(env: Env, out: Out, name: string)
    requires out.status.Running? && env.limits == Limits(1000, 8)
    ensures HandleFrames(env, State(NO_TURN, out), OneCall(name), 0) == State(Heeded(name), out)
  {
    OneCallAccumulates(name);
    OneFrame(env, State(NO_TURN, out), Fragment(Key(0, 0), "call_1", name, "{}"), State(Heeded(name), out));
  }

  lemma OneCallIsNative(name: string)
    requires name != ""
    ensures NativeCalls(Heeded(name)) == [Candidate("call_1", name, "{}")]
  {
    OneCallCompletes(name);
  }

  lemma OneCallIsHeard(env: Env, name: string)
    requires env.opening.Streams? && env.limits == Limits(1000, 8) && name != ""
    ensures Heard(env, OneCall(name)) && Listened(env, OneCall(name)).out == Opened(env)
    ensures Listened(env, OneCall(name)).turn == Heeded(name)
    ensures NativeCalls(Heeded(name)) == [Candidate("call_1", name, "{}")]
  {
    OneCallIsHandled(env, Opened(env), name);
    OneCallIsNative(name);
  }

  /** A retrieval that the model follows up in plain text: the stream never stops, its
      record stays active and its reservation open. */
  lemma SilenceHappens()
    ensures var env := Plain({RETRIEVAL}, Final([TextPart("done")], [], None), Decision(true, []), false, false);
            var out := Stream(env, OneCall(RETRIEVAL));
            && Silent(env, OneCall(RETRIEVAL)) && !WellFormed(out.log)
            && Stops(out.log, |out.log|) == 0 && out.record.Active? && out.fate.Open?
  {
    var env := Plain({RETRIEVAL}, Final([TextPart("done")], [], None), Decision(true, []), false, false);
    var (fs, call) := (OneCall(RETRIEVAL), Candidate("call_1", RETRIEVAL, "{}"));
    OneCallIsHeard(env, RETRIEVAL);
    assert Asked(env.enabled, [call]) == [call] by {
      assert Split(env.enabled, [call], true, 0) == [];
    }
    assert Silent(env, fs);
    SilentIsItsBranch(env, fs);
    StreamStops(env, fs);
    StreamIsWellFormedIff(env, fs);
    EngineEnds(env, fs);
    ReservationSettledIff(env, fs);
  }

  /** A rejected batch whose stream-safety recorder raises: the stream stops twice. */
  lemma SecondStopHappens()
    ensures var env := Plain({}, Fails, Decision(false, []), true, false);
            var log := Stream(env, OneCall("unknown")).log;
            RaisesAfterStop(env, OneCall("unknown")) && Stops(log, |log|) == 2 && !WellFormed(log)
  {
    var env := Plain({}, Fails, Decision(false, []), true, false);
    var (fs, call) := (OneCall("unknown"), Candidate("call_1", "unknown", "{}"));
    OneCallIsHeard(env, "unknown");
    assert Asked(env.enabled, [call]) == [] by {
      assert Split(env.enabled, [call], true, 0) == [];
    }
    assert PlanOf(env, Listened(env, fs).turn) == Emit([], Some(Batch([call], Decision(false, []))), Listened(env, fs).turn.usage);
    StreamStops(env, fs);
    StreamIsWellFormedIff(env, fs);
  }

  /** An empty stream that ends well, whose transport then raises on closing: the stream
      stops twice. */
  lemma ClosingStopsAgain()
    ensures var env := Plain({}, Fails, Decision(true, []), false, true);
            var log := Stream(env, []).log;
            Engine(env, []).status.Ended? && Stops(log, |log|) == 2 && !WellFormed(log)
  {
    var env := Plain({}, Fails, Decision(true, []), false, true);
    assert CompleteAll(Acc([], []), true) == Acc([], []);
    assert Candidates([], 0) == [] && TextEvents([], 0) == [] && SayAll(Opened(env), []) == Opened(env);
    assert Asked(env.enabled, []) == [];
    StreamStops(env, []);
    StreamIsWellFormedIff(env, []);
  }
}
