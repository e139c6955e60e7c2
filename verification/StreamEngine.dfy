/** The streaming request: what the frame loop accumulates and lets through, what the end of
    the turn makes of it, and how the record and the reservation stand at every event. The
    backend, the collaborators and everything that can raise are arbitrary. */
module StreamEngine {
  import opened StreamAccumulator
  import opened ToolCalls
  import opened CandidateMerge
  import opened Wrappers

  datatype Stop = EndTurn | ToolCalls | InvalidOutput | Backend(reason: string)

  datatype Usage = Usage(input: int, output: int)

  datatype Block = Block(id: string, name: string, arguments: string)

  datatype Code =
    | HistoryUnsafe | ChoiceConflict | GateRefused | ContextLimit | BudgetExhausted | NotAdmitted | Upstream
    | MalformedFrame | CallLimit | BackendError | PrivateFailed | BatchRejected | Internal

  datatype Event =
    | Text(partial: string)
    | ToolUse(block: Block)
    | Error(code: Code)
    | UsageUpdate(usage: Usage)
    | MessageStop(stop: Option<Stop>)

  datatype Record = Active | Failed | Succeeded

  datatype Fate = NoReservation | Open | Released | Estimated | Committed(usage: Usage)

  /** An event and the state the execution record was in when it was handed out. */
  datatype Emission = Emission(event: Event, record: Record)

  datatype Status = Running | Ended | Raised

  datatype Out = Out(log: seq<Emission>, record: Record, fate: Fate, status: Status)

  /** One event decoded from a frame. */
  datatype Decoded =
    | TextDelta(text: string)
    | Fragment(key: Key, id: string, name: string, arguments: string)
    | CallComplete(key: Key)
    | BatchComplete
    | UsageSeen(usage: Usage)
    | Complete(stop: Option<Stop>, finalUsage: Option<Usage>)
    | StreamError

  /** A frame decodes, does not parse, or makes the transport or the decoder raise; the
      last flag is the codec's word that the stream is complete. */
  datatype Frame = Frame(events: seq<Decoded>, last: bool) | Malformed | Broken

  /** Everything before the first frame, in the order the engine meets it. */
  datatype Opening =
    | PreparationRaises | HistoryIsUnsafe | ChoiceConflicts | PreparationFails | BytesSpent | GenerationsSpent
    | AdmissionRefuses | TransportRaises | HttpFails | Streams

  datatype Extraction = Extraction(candidates: seq<Candidate>, remaining: seq<string>)

  datatype Part = TextPart(text: string) | CallPart(block: Block) | OtherPart

  datatype Continued =
    | Fails
    | Terminal(error: bool)
    | Final(content: seq<Part>, candidates: seq<Candidate>, usage: Option<Usage>)

  datatype Decision = Decision(accepted: bool, blocks: seq<Block>)

  datatype Bookkeeping = Fine | EvidenceFails | FinalizeFails

  /** None is an exception, wherever a collaborator's answer is optional. */
  datatype Env = Env(
    opening: Opening,
    budgeted: bool,
    buffered: bool,
    maxMalformed: int,
    limits: Limits,
    enabled: set<string>,
    normal: Normalizer,
    extract: string -> Option<Extraction>,
    continued: (seq<Candidate>, string) -> Continued,
    reextract: (seq<Part>, seq<Candidate>) -> Option<seq<Candidate>>,
    decide: seq<Candidate> -> Option<Decision>,
    parse: string -> Option<string>,
    bookkeeping: Bookkeeping,
    rejectionErrorRaises: bool,
    safetyRecorderRaises: bool,
    closingRaises: bool)

  // -------------------------------------------------------------- emitting

  function Say(out: Out, e: Event): Out {
    out.(log := out.log + [Emission(e, out.record)])
  }

  function SayAll(out: Out, es: seq<Event>): Out
    decreases |es|
  {
    if es == [] then out else Say(SayAll(out, es[..|es| - 1]), es[|es| - 1])
  }

  /** `finalize_error`: only an active record can fail. */
  function FinalizeError(out: Out): Out {
    if out.record.Active? then out.(record := Failed) else out
  }

  /** Finalise, then the error, then the stop. */
  function Abort(out: Out, code: Code, stop: Option<Stop>): Out {
    Say(Say(FinalizeError(out), Error(code)), MessageStop(stop)).(status := Ended)
  }

  // --------------------------------------------------------- the frame loop

  /** What the loop accumulates. */
  datatype Turn = Turn(
    acc: Acc,
    text: string,
    usage: Option<Usage>,
    stop: Option<Stop>,
    malformed: nat,
    failed: bool)

  datatype State = State(turn: Turn, out: Out)

  const NO_TURN := Turn(Acc([], []), "", None, None, 0, false)

  function Opened(env: Env): Out {
    var start := Out([], Active, NoReservation, Running);
    var held := if env.budgeted then start.(fate := Open) else start;
    match env.opening
    case PreparationRaises => start.(status := Raised)
    case HistoryIsUnsafe => Abort(start, HistoryUnsafe, None)
    case ChoiceConflicts => Abort(start, ChoiceConflict, None)
    case PreparationFails => Abort(start, GateRefused, None)
    case BytesSpent => Abort(start, ContextLimit, None)
    case GenerationsSpent => Abort(start, BudgetExhausted, None)
    case AdmissionRefuses => Abort(if env.budgeted then held.(fate := Released) else held, NotAdmitted, None)
    case TransportRaises => held.(status := Raised)
    case HttpFails => Abort(if env.budgeted then held.(fate := Estimated) else held, Upstream, None)
    case Streams => held
  }

  function HandleEvent(env: Env, s: State, e: Decoded): State {
    match e
    case TextDelta(text) =>
      if env.buffered then s.(turn := s.turn.(text := s.turn.text + text))
      else s.(out := Say(s.out, Text(text)))
    case Fragment(key, id, name, arguments) =>
      (match Feed(env.limits, s.turn.acc, key, id, name, arguments)
       case Fed(acc) => s.(turn := s.turn.(acc := acc))
       case TooManyCalls => s.(out := s.out.(status := Raised))
       case TooLarge => s.(out := Abort(s.out, CallLimit, None)))
    case CallComplete(key) => s.(turn := s.turn.(acc := StreamAccumulator.Complete(s.turn.acc, key, true)))
    case BatchComplete => s.(turn := s.turn.(acc := CompleteAll(s.turn.acc, true)))
    case UsageSeen(usage) => s.(turn := s.turn.(usage := Some(usage)))
    case Complete(stop, usage) =>
      s.(turn := s.turn.(stop := stop, usage := if usage.Some? then usage else s.turn.usage))
    case StreamError => s.(turn := s.turn.(failed := true))
  }

  /** The events from the i-th on, as long as nothing ends the stream. */
  function HandleEvents(env: Env, s: State, es: seq<Decoded>, i: nat): State
    requires i <= |es|
    decreases |es| - i
  {
    if i == |es| || !s.out.status.Running? then s
    else HandleEvents(env, HandleEvent(env, s, es[i]), es, i + 1)
  }

  function HandleFrame(env: Env, s: State, f: Frame): State {
    match f
    case Broken => s.(out := s.out.(status := Raised))
    case Malformed =>
      var t := s.turn.(malformed := s.turn.malformed + 1);
      if t.acc.pending != [] then State(t.(acc := CompleteAll(t.acc, false)), Abort(s.out, MalformedFrame, None))
      else if t.malformed > env.maxMalformed then State(t, Abort(s.out, MalformedFrame, None))
      else State(t, s.out)
    case Frame(events, _) =>
      var t := HandleEvents(env, s, events, 0);
      if t.out.status.Running? && t.turn.failed then t.(out := Abort(t.out, BackendError, None)) else t
  }

  function HandleFrames(env: Env, s: State, fs: seq<Frame>, i: nat): State
    requires i <= |fs|
    decreases |fs| - i
  {
    if i == |fs| || !s.out.status.Running? then s
    else
      var t := HandleFrame(env, s, fs[i]);
      if fs[i].Frame? && fs[i].last then t else HandleFrames(env, t, fs, i + 1)
  }

  // ------------------------------------------------------ the end of the turn

  /** `_pending_to_candidates` on the first `n` drained calls. */
  function Candidates(calls: seq<Call>, n: nat): seq<Candidate>
    requires n <= |calls|
  {
    if n == 0 then []
    else if calls[n - 1].completed && calls[n - 1].name != "" then
      Candidates(calls, n - 1) + [Candidate(calls[n - 1].id, calls[n - 1].name, calls[n - 1].arguments)]
    else Candidates(calls, n - 1)
  }

  /** The text parts of the first `n` parts. */
  function Texts(parts: seq<Part>, n: nat): seq<string>
    requires n <= |parts|
  {
    if n == 0 then []
    else if parts[n - 1].TextPart? then Texts(parts, n - 1) + [parts[n - 1].text]
    else Texts(parts, n - 1)
  }

  function Join(texts: seq<string>, n: nat): string
    requires n <= |texts|
  {
    if n == 0 then "" else Join(texts, n - 1) + texts[n - 1]
  }

  /** What the end of a turn is going to do, before it does any of it. */
  datatype Plan =
    | Crash                                                     // raises before it emits anything
    | FailPrivately                                             // the private continuation failed
    | Emit(texts: seq<string>, batch: Option<Batch>, usage: Option<Usage>)
    | Relay(events: seq<Event>, crash: bool)                    // the private continuation's turn, as it is

  datatype Batch = Batch(candidates: seq<Candidate>, decision: Decision)

  function Decided(env: Env, texts: seq<string>, cs: seq<Candidate>, usage: Option<Usage>): Plan {
    match env.decide(cs)
    case None => Crash
    case Some(d) => Emit(texts, Some(Batch(cs, d)), usage)
  }

  /** Text and candidates are known: decide the candidates or let the text go. */
  function BufferedEnd(env: Env, text: string, remaining: seq<string>, merged: seq<Candidate>,
                       usage: Option<Usage>): Plan {
    var cs := Unasked(env.enabled, merged);
    if cs != [] then Decided(env, remaining, cs, usage)
    else Emit(if text == "" then [] else [text], None, usage)
  }

  function BufferedPlan(env: Env, turn: Turn, native: seq<Candidate>): Plan {
    match (if turn.text == "" then Some(Extraction([], [])) else env.extract(turn.text))
    case None => Crash
    case Some(found) =>
      var merged := Merge(env.normal, native, found.candidates);
      var internals := Asked(env.enabled, merged);
      if internals == [] then BufferedEnd(env, turn.text, found.remaining, merged, turn.usage)
      else match env.continued(internals, turn.text)
        case Fails => Crash
        case Terminal(true) => FailPrivately
        case Terminal(false) => BufferedEnd(env, turn.text, found.remaining, merged, turn.usage)
        case Final(content, candidates, usage) =>
          var texts := Texts(content, |content|);
          match env.reextract(content, candidates)
          case None => Crash
          case Some(again) =>
            BufferedEnd(env, Join(texts, |texts|), texts, again, if usage.Some? then usage else turn.usage)
  }

  /** What a continued turn's parts are relayed as. */
  function Parts(parts: seq<Part>, n: nat): seq<Event>
    requires n <= |parts|
  {
    if n == 0 then []
    else match parts[n - 1]
      case TextPart(text) => Parts(parts, n - 1) + (if text == "" then [] else [Text(text)])
      case CallPart(block) => Parts(parts, n - 1) + [ToolUse(block)]
      case OtherPart => Parts(parts, n - 1)
  }

  /** The calls of a continued turn up to the first whose arguments do not parse. */
  function Relayed(env: Env, cs: seq<Candidate>, i: nat): (seq<Event>, bool)
    requires i <= |cs|
    decreases |cs| - i
  {
    if i == |cs| then ([], false)
    else
      var parsed := if cs[i].arguments == "" then Some("{}") else env.parse(cs[i].arguments);
      if parsed.None? then ([], true)
      else
        var (rest, crash) := Relayed(env, cs, i + 1);
        ([ToolUse(Block(cs[i].id, cs[i].name, parsed.value))] + rest, crash)
  }

  function NativePlan(env: Env, turn: Turn, native: seq<Candidate>): Plan {
    if native == [] then Emit([], None, turn.usage)
    else
      var internals := Asked(env.enabled, native);
      if internals == [] then Decided(env, [], native, turn.usage)
      else match env.continued(internals, "")
        case Fails => Crash
        case Terminal(_) => FailPrivately
        case Final(content, candidates, _) =>
          var (calls, crash) := Relayed(env, candidates, 0);
          Relay(Parts(content, |content|) + calls, crash)
  }

  /** The turn's native calls, once everything still open is completed. */
  function NativeCalls(turn: Turn): seq<Candidate> {
    var drained := CompleteAll(turn.acc, true).completed;
    Candidates(drained, |drained|)
  }

  function PlanOf(env: Env, turn: Turn): Plan {
    if env.buffered then BufferedPlan(env, turn, NativeCalls(turn)) else NativePlan(env, turn, NativeCalls(turn))
  }

  predicate Rejects(d: Decision) { !d.accepted && d.blocks == [] }

  function TextEvents(texts: seq<string>, n: nat): seq<Event>
    requires n <= |texts|
  {
    if n == 0 then [] else TextEvents(texts, n - 1) + (if texts[n - 1] == "" then [] else [Text(texts[n - 1])])
  }

  function CallEvents(blocks: seq<Block>, n: nat): seq<Event>
    requires n <= |blocks|
  {
    if n == 0 then [] else CallEvents(blocks, n - 1) + [ToolUse(blocks[n - 1])]
  }

  predicate AnyCall(es: seq<Event>) { exists i :: 0 <= i < |es| && es[i].ToolUse? }

  /** Settle the reservation, finalise the record, and only then stop. */
  function CleanEnd(env: Env, out: Out, turn: Turn, usage: Option<Usage>, called: bool): Out {
    var settled := if !out.fate.Open? then out
                   else out.(fate := if usage.Some? then Committed(usage.value) else Estimated);
    match env.bookkeeping
    case EvidenceFails => Abort(settled, Internal, Some(InvalidOutput))
    case FinalizeFails => Abort(settled.(record := Succeeded), Internal, Some(InvalidOutput))
    case Fine =>
      var done := settled.(record := Succeeded);
      var told := if usage.Some? then Say(done, UsageUpdate(usage.value)) else done;
      var stop := if called then ToolCalls else if turn.stop.Some? then turn.stop.value else EndTurn;
      Say(told, MessageStop(Some(stop))).(status := Ended)
  }

  function Perform(env: Env, turn: Turn, plan: Plan, out: Out): Out {
    match plan
    case Crash => out.(status := Raised)
    case FailPrivately => Abort(out, PrivateFailed, Some(InvalidOutput))
    case Emit(texts, None, usage) => CleanEnd(env, SayAll(out, TextEvents(texts, |texts|)), turn, usage, false)
    case Emit(texts, Some(Batch(_, d)), usage) =>
      var spoken := SayAll(out, TextEvents(texts, |texts|));
      if Rejects(d) && env.rejectionErrorRaises then spoken.(status := Raised)
      else if Rejects(d) then
        var rejected := Abort(spoken, BatchRejected, Some(InvalidOutput));
        if env.safetyRecorderRaises then rejected.(status := Raised) else rejected
      else
        var called := SayAll(spoken, CallEvents(d.blocks, |d.blocks|));
        if env.safetyRecorderRaises then called.(status := Raised)
        else CleanEnd(env, called, turn, usage, d.blocks != [])
    case Relay(events, crash) =>
      var told := SayAll(out, events);
      if crash then told.(status := Raised)
      else if !AnyCall(events) then told.(status := Ended)
      else CleanEnd(env, told, turn, turn.usage, true)
  }

  // ------------------------------------------------------------ the stream

  function Listened(env: Env, fs: seq<Frame>): State {
    HandleFrames(env, State(NO_TURN, Opened(env)), fs, 0)
  }

  /** `run_send_stream` */
  function Engine(env: Env, fs: seq<Frame>): Out {
    var s := Listened(env, fs);
    if s.out.status.Running? then Perform(env, s.turn, PlanOf(env, s.turn), s.out) else s.out
  }

  /** `handle_stream`: an exception becomes one more error and one more stop. */
  function Stream(env: Env, fs: seq<Frame>): Out {
    var out := Engine(env, fs);
    if out.status.Raised? || env.closingRaises then Abort(out, Internal, None) else out
  }

  // ---------------------------------------------------------- its grammar

  predicate IsBody(e: Event) { e.Text? || e.ToolUse? }

  ghost predicate BodyOnly(log: seq<Emission>, n: nat)
    requires n <= |log|
  {
    forall i :: 0 <= i < n ==> IsBody(log[i].event)
  }

  ghost predicate HasCall(log: seq<Emission>, n: nat)
    requires n <= |log|
  {
    exists i :: 0 <= i < n && log[i].event.ToolUse?
  }

  ghost predicate NoCall(log: seq<Emission>) {
    forall i :: 0 <= i < |log| ==> !log[i].event.ToolUse?
  }

  /** The first `n` events are text and calls; then an error and a stop, or at most one
      usage update and a stop; the record is final by the stop; and a clean end after a
      call says so. */
  ghost predicate EndsAt(log: seq<Emission>, n: nat) {
    && n < |log| <= n + 2
    && BodyOnly(log, n)
    && (|log| == n + 2 ==> log[n].event.Error? || log[n].event.UsageUpdate?)
    && var last := log[|log| - 1];
       && last.event.MessageStop? && !last.record.Active?
       && (HasCall(log, n) && !log[n].event.Error? ==> last.event.stop == Some(ToolCalls))
  }

  ghost predicate WellFormed(log: seq<Emission>) { exists n: nat :: EndsAt(log, n) }

  /** How many times the first `n` events stop the stream. */
  function Stops(log: seq<Emission>, n: nat): nat
    requires n <= |log|
  {
    if n == 0 then 0 else Stops(log, n - 1) + (if log[n - 1].event.MessageStop? then 1 else 0)
  }

  /** The end of the turn is reached with the stream still open. */
  ghost predicate Heard(env: Env, fs: seq<Frame>) { Listened(env, fs).out.status.Running? }

  /** A native stream asks for something private, and the continuation answers with neither
      a call among its parts nor a candidate. */
  ghost predicate Silent(env: Env, fs: seq<Frame>) {
    && Heard(env, fs) && !env.buffered
    && var internals := Asked(env.enabled, NativeCalls(Listened(env, fs).turn));
       internals != [] && CallFree(env.continued(internals, ""))
  }

  predicate CallFree(c: Continued) {
    c.Final? && c.candidates == [] && forall i :: 0 <= i < |c.content| ==> !c.content[i].CallPart?
  }

  predicate SilentPlan(plan: Plan) { plan.Relay? && !plan.crash && !AnyCall(plan.events) }

  /** The stream-safety recorder raised after a rejected batch had stopped the stream. */
  ghost predicate RaisesAfterStop(env: Env, fs: seq<Frame>) {
    && Heard(env, fs) && env.safetyRecorderRaises && !env.rejectionErrorRaises
    && RejectingPlan(PlanOf(env, Listened(env, fs).turn))
  }

  predicate RejectingPlan(plan: Plan) { plan.Emit? && plan.batch.Some? && Rejects(plan.batch.value.decision) }

  // ------------------------------------------------------------- its lemmas

  /** The stream is still open: text and calls so far, and an active record. */
  ghost predicate OpenOut(out: Out) { BodyOnly(out.log, |out.log|) && out.record.Active? }

  lemma AbortEnds(out: Out, code: Code, stop: Option<Stop>)
    requires BodyOnly(out.log, |out.log|)
    ensures EndsAt(Abort(out, code, stop).log, |out.log|)
    ensures Abort(out, code, stop).status.Ended? && !Abort(out, code, stop).record.Active?
    ensures Abort(out, code, stop).fate == out.fate
    ensures forall i :: 0 <= i < |out.log| ==> Abort(out, code, stop).log[i] == out.log[i]
  {
  }

  lemma {:induction false} SayAllSays(out: Out, es: seq<Event>)
    ensures var r := SayAll(out, es);
            && r.record == out.record && r.fate == out.fate && r.status == out.status
            && |r.log| == |out.log| + |es|
            && (forall i :: 0 <= i < |out.log| ==> r.log[i] == out.log[i])
            && (forall i :: 0 <= i < |es| ==> r.log[|out.log| + i] == Emission(es[i], out.record))
    decreases |es|
  {
    if es != [] {
      SayAllSays(out, es[..|es| - 1]);
    }
  }

  lemma SayAllStaysOpen(out: Out, es: seq<Event>)
    requires OpenOut(out) && forall i :: 0 <= i < |es| ==> IsBody(es[i])
    ensures OpenOut(SayAll(out, es))
    ensures HasCall(SayAll(out, es).log, |SayAll(out, es).log|) <==> HasCall(out.log, |out.log|) || AnyCall(es)
  {
    SayAllSays(out, es);
    var (r, n) := (SayAll(out, es), |out.log|);
    forall i | 0 <= i < |r.log| ensures IsBody(r.log[i].event) {
      if i >= n {
        assert r.log[n + (i - n)] == Emission(es[i - n], out.record);
      }
    }
    if AnyCall(es) {
      var i :| 0 <= i < |es| && es[i].ToolUse?;
      assert r.log[n + i].event.ToolUse?;
    }
    if HasCall(out.log, n) {
      var i :| 0 <= i < n && out.log[i].event.ToolUse?;
      assert r.log[i].event.ToolUse?;
    }
    if HasCall(r.log, |r.log|) {
      var i :| 0 <= i < |r.log| && r.log[i].event.ToolUse?;
      if i < n {
        assert out.log[i].event.ToolUse?;
      } else {
        assert r.log[n + (i - n)].event == es[i - n];
      }
    }
  }

  lemma CleanEndEnds(env: Env, out: Out, turn: Turn, usage: Option<Usage>, called: bool)
    requires OpenOut(out) && (HasCall(out.log, |out.log|) ==> called)
    ensures var r := CleanEnd(env, out, turn, usage, called);
            EndsAt(r.log, |out.log|) && r.status.Ended? && !r.record.Active? && !r.fate.Open?
  {
    var n := |out.log|;
    var r := CleanEnd(env, out, turn, usage, called);
    assert forall i :: 0 <= i < n ==> r.log[i] == out.log[i];
  }

  // what the frame loop keeps

  /** Before the end of the turn: only text has been let through, and the stream has ended
      properly or its record is still active. */
  ghost predicate Listening(out: Out) {
    && NoCall(out.log)
    && if out.status.Ended? then WellFormed(out.log) && !out.record.Active? else OpenOut(out)
  }

  lemma AbortListens(out: Out, code: Code)
    requires Listening(out) && out.status.Running?
    ensures Listening(Abort(out, code, None))
  {
    AbortEnds(out, code, None);
  }

  lemma OpenedListens(env: Env)
    ensures Listening(Opened(env)) && (!Opened(env).status.Ended? ==> Opened(env).log == [])
  {
    var start := Out([], Active, NoReservation, Running);
    var held := if env.budgeted then start.(fate := Open) else start;
    match env.opening
    case HistoryIsUnsafe => AbortListens(start, HistoryUnsafe);
    case ChoiceConflicts => AbortListens(start, ChoiceConflict);
    case PreparationFails => AbortListens(start, GateRefused);
    case BytesSpent => AbortListens(start, ContextLimit);
    case GenerationsSpent => AbortListens(start, BudgetExhausted);
    case AdmissionRefuses => AbortListens(if env.budgeted then held.(fate := Released) else held, NotAdmitted);
    case HttpFails => AbortListens(if env.budgeted then held.(fate := Estimated) else held, Upstream);
    case _ =>
  }

  lemma EventListens(env: Env, s: State, e: Decoded)
    requires Listening(s.out) && s.out.status.Running?
    ensures var t := HandleEvent(env, s, e);
            Listening(t.out) && t.out.fate == s.out.fate && (env.buffered && t.out.status.Running? ==> t.out.log == s.out.log)
  {
    if e.Fragment? {
      AbortListens(s.out, CallLimit);
    }
  }

  lemma {:induction false} EventsListen(env: Env, s: State, es: seq<Decoded>, i: nat)
    requires i <= |es| && Listening(s.out)
    ensures var t := HandleEvents(env, s, es, i);
            Listening(t.out) && t.out.fate == s.out.fate && (env.buffered && t.out.status.Running? ==> t.out.log == s.out.log)
    decreases |es| - i
  {
    if i < |es| && s.out.status.Running? {
      EventListens(env, s, es[i]);
      EventsListen(env, HandleEvent(env, s, es[i]), es, i + 1);
    }
  }

  lemma FrameListens(env: Env, s: State, f: Frame)
    requires Listening(s.out) && s.out.status.Running?
    ensures var t := HandleFrame(env, s, f);
            Listening(t.out) && t.out.fate == s.out.fate && (env.buffered && t.out.status.Running? ==> t.out.log == s.out.log)
  {
    AbortListens(s.out, MalformedFrame);
    if f.Frame? {
      EventsListen(env, s, f.events, 0);
      var t := HandleEvents(env, s, f.events, 0);
      if t.out.status.Running? {
        AbortListens(t.out, BackendError);
      }
    }
  }

  lemma {:induction false} FramesListen(env: Env, s: State, fs: seq<Frame>, i: nat)
    requires i <= |fs| && Listening(s.out)
    ensures var t := HandleFrames(env, s, fs, i);
            Listening(t.out) && t.out.fate == s.out.fate && (env.buffered && t.out.status.Running? ==> t.out.log == s.out.log)
    decreases |fs| - i
  {
    if i < |fs| && s.out.status.Running? {
      FrameListens(env, s, fs[i]);
      if !(fs[i].Frame? && fs[i].last) {
        FramesListen(env, HandleFrame(env, s, fs[i]), fs, i + 1);
      }
    }
  }

  /** No call is let through before the last frame is consumed, and in buffered mode no
      text either. */
  lemma NothingEarly(env: Env, fs: seq<Frame>)
    ensures var out := Listened(env, fs).out;
            Listening(out) && out.fate == Opened(env).fate && (env.buffered && out.status.Running? ==> out.log == [])
  {
    OpenedListens(env);
    FramesListen(env, State(NO_TURN, Opened(env)), fs, 0);
    if !Opened(env).status.Running? {
      assert Listened(env, fs) == State(NO_TURN, Opened(env));
    }
  }

  // what the end of the turn does

  lemma {:induction false} TextEventsAreText(texts: seq<string>, n: nat)
    requires n <= |texts|
    ensures forall i :: 0 <= i < |TextEvents(texts, n)| ==> TextEvents(texts, n)[i].Text?
  {
    if n > 0 {
      TextEventsAreText(texts, n - 1);
    }
  }

  lemma {:induction false} CallEventsAreCalls(blocks: seq<Block>, n: nat)
    requires n <= |blocks|
    ensures |CallEvents(blocks, n)| == n
    ensures forall i :: 0 <= i < n ==> CallEvents(blocks, n)[i] == ToolUse(blocks[i])
  {
    if n > 0 {
      CallEventsAreCalls(blocks, n - 1);
    }
  }

  lemma {:induction false} PartsAreBody(parts: seq<Part>, n: nat)
    requires n <= |parts|
    ensures forall i :: 0 <= i < |Parts(parts, n)| ==> IsBody(Parts(parts, n)[i])
  {
    if n > 0 {
      PartsAreBody(parts, n - 1);
    }
  }

  lemma {:induction false} RelayedAreCalls(env: Env, cs: seq<Candidate>, i: nat)
    requires i <= |cs|
    ensures forall k :: 0 <= k < |Relayed(env, cs, i).0| ==> Relayed(env, cs, i).0[k].ToolUse?
    decreases |cs| - i
  {
    if i < |cs| {
      RelayedAreCalls(env, cs, i + 1);
    }
  }

  ghost predicate RelaysBody(plan: Plan) {
    plan.Relay? ==> forall i :: 0 <= i < |plan.events| ==> IsBody(plan.events[i])
  }

  lemma PlansRelayBody(env: Env, turn: Turn)
    ensures RelaysBody(PlanOf(env, turn))
    ensures PlanOf(env, turn).Relay? ==> !env.buffered
  {
    var native := NativeCalls(turn);
    if !env.buffered && native != [] && Asked(env.enabled, native) != [] {
      var c := env.continued(Asked(env.enabled, native), "");
      if c.Final? {
        PartsAreBody(c.content, |c.content|);
        RelayedAreCalls(env, c.candidates, 0);
      }
    }
  }

  lemma {:induction false} PartsCallIff(parts: seq<Part>, n: nat)
    requires n <= |parts|
    ensures AnyCall(Parts(parts, n)) <==> exists i :: 0 <= i < n && parts[i].CallPart?
  {
    if n > 0 {
      PartsCallIff(parts, n - 1);
      var (before, es) := (Parts(parts, n - 1), Parts(parts, n));
      assert forall i :: 0 <= i < |before| ==> es[i] == before[i];
      if parts[n - 1].CallPart? {
        assert es[|before|].ToolUse?;
      }
    }
  }

  lemma BothCallIff(a: seq<Event>, b: seq<Event>)
    ensures AnyCall(a + b) <==> AnyCall(a) || AnyCall(b)
  {
    if i :| 0 <= i < |a| && a[i].ToolUse? {
      assert (a + b)[i].ToolUse?;
    }
    if i :| 0 <= i < |b| && b[i].ToolUse? {
      assert (a + b)[|a| + i].ToolUse?;
    }
  }

  /** A continuation is relayed in silence exactly when it is free of calls: one whose
      first call does not parse raises instead. */
  lemma RelayIsSilentIff(env: Env, c: Continued)
    requires c.Final?
    ensures var (calls, crash) := Relayed(env, c.candidates, 0);
            SilentPlan(Relay(Parts(c.content, |c.content|) + calls, crash)) <==> CallFree(c)
  {
    var (calls, crash) := Relayed(env, c.candidates, 0);
    PartsCallIff(c.content, |c.content|);
    BothCallIff(Parts(c.content, |c.content|), calls);
    RelayedAreCalls(env, c.candidates, 0);
    if c.candidates != [] && !crash {
      assert calls[0].ToolUse?;
    }
  }

  /** The guard of the silent branch is what makes the end of the turn a silent one. */
  lemma SilentIsItsBranch(env: Env, fs: seq<Frame>)
    ensures Silent(env, fs) <==> Heard(env, fs) && SilentPlan(PlanOf(env, Listened(env, fs).turn))
  {
    var native := NativeCalls(Listened(env, fs).turn);
    var internals := Asked(env.enabled, native);
    if native == [] {
      assert internals == [];
    } else if internals != [] && env.continued(internals, "").Final? {
      RelayIsSilentIff(env, env.continued(internals, ""));
    }
  }

  /** How the end of a turn leaves the stream. */
  ghost predicate Performed(env: Env, plan: Plan, out: Out) {
    if SilentPlan(plan) then out.status.Ended? && OpenOut(out)
    else if RejectingPlan(plan) && env.safetyRecorderRaises && !env.rejectionErrorRaises then
      out.status.Raised? && WellFormed(out.log) && !out.record.Active?
    else if out.status.Raised? then OpenOut(out)
    else out.status.Ended? && WellFormed(out.log) && !out.record.Active?
  }

  lemma PerformEmit(env: Env, turn: Turn, plan: Plan, out: Out)
    requires OpenOut(out) && NoCall(out.log) && plan.Emit?
    ensures Performed(env, plan, Perform(env, turn, plan, out))
  {
    var spoken := SayAll(out, TextEvents(plan.texts, |plan.texts|));
    TextEventsAreText(plan.texts, |plan.texts|);
    SayAllStaysOpen(out, TextEvents(plan.texts, |plan.texts|));
    match plan.batch {
      case None => CleanEndEnds(env, spoken, turn, plan.usage, false);
      case Some(Batch(_, d)) =>
        if Rejects(d) {
          AbortEnds(spoken, BatchRejected, Some(InvalidOutput));
        } else {
          CallEventsAreCalls(d.blocks, |d.blocks|);
          SayAllStaysOpen(spoken, CallEvents(d.blocks, |d.blocks|));
          CleanEndEnds(env, SayAll(spoken, CallEvents(d.blocks, |d.blocks|)), turn, plan.usage, d.blocks != []);
        }
    }
  }

  lemma PerformRelay(env: Env, turn: Turn, plan: Plan, out: Out)
    requires OpenOut(out) && NoCall(out.log) && plan.Relay? && RelaysBody(plan)
    ensures Performed(env, plan, Perform(env, turn, plan, out))
  {
    SayAllStaysOpen(out, plan.events);
    CleanEndEnds(env, SayAll(out, plan.events), turn, turn.usage, true);
  }

  lemma PerformEnds(env: Env, turn: Turn, plan: Plan, out: Out)
    requires OpenOut(out) && NoCall(out.log) && RelaysBody(plan)
    ensures Performed(env, plan, Perform(env, turn, plan, out))
  {
    match plan {
      case Crash =>
      case FailPrivately => AbortEnds(out, PrivateFailed, Some(InvalidOutput));
      case Emit(_, _, _) => PerformEmit(env, turn, plan, out);
      case Relay(_, _) => PerformRelay(env, turn, plan, out);
    }
  }

  // the whole stream

  lemma {:induction false} StopsAgree(a: seq<Emission>, b: seq<Emission>, n: nat)
    requires n <= |a| && n <= |b| && forall i :: 0 <= i < n ==> a[i] == b[i]
    ensures Stops(a, n) == Stops(b, n)
  {
    if n > 0 {
      StopsAgree(a, b, n - 1);
    }
  }

  lemma {:induction false} BodyNeverStops(log: seq<Emission>, n: nat)
    requires n <= |log| && BodyOnly(log, n)
    ensures Stops(log, n) == 0
  {
    if n > 0 {
      assert IsBody(log[n - 1].event);
      BodyNeverStops(log, n - 1);
    }
  }

  lemma WellFormedStopsOnce(log: seq<Emission>)
    requires WellFormed(log)
    ensures Stops(log, |log|) == 1
  {
    var n: nat :| EndsAt(log, n);
    BodyNeverStops(log, n);
  }

  lemma AbortStopsOnceMore(out: Out, code: Code, stop: Option<Stop>)
    ensures var log := Abort(out, code, stop).log;
            Stops(log, |log|) == Stops(out.log, |out.log|) + 1
  {
    var log := Abort(out, code, stop).log;
    StopsAgree(log, out.log, |out.log|);
  }

  /** What the engine alone leaves behind. */
  lemma EngineEnds(env: Env, fs: seq<Frame>)
    ensures var r := Engine(env, fs);
            if Silent(env, fs) then r.status.Ended? && OpenOut(r)
            else if RaisesAfterStop(env, fs) then r.status.Raised? && WellFormed(r.log) && !r.record.Active?
            else if r.status.Raised? then OpenOut(r)
            else r.status.Ended? && WellFormed(r.log) && !r.record.Active?
  {
    var s := Listened(env, fs);
    NothingEarly(env, fs);
    SilentIsItsBranch(env, fs);
    if s.out.status.Running? {
      PlansRelayBody(env, s.turn);
      PerformEnds(env, s.turn, PlanOf(env, s.turn), s.out);
    }
  }

  /** How often a stream stops: once, except that a native private continuation without a
      call never stops on its own, and that an exception after the stop stops again. */
  lemma StreamStops(env: Env, fs: seq<Frame>)
    ensures var log := Stream(env, fs).log;
            Stops(log, |log|) ==
              if Silent(env, fs) then (if env.closingRaises then 1 else 0)
              else if RaisesAfterStop(env, fs) then 2
              else if Engine(env, fs).status.Ended? && env.closingRaises then 2
              else 1
  {
    var r := Engine(env, fs);
    EngineEnds(env, fs);
    AbortStopsOnceMore(r, Internal, None);
    if WellFormed(r.log) {
      WellFormedStopsOnce(r.log);
    } else {
      BodyNeverStops(r.log, |r.log|);
    }
  }

  /** A stream is text and calls, then one error or at most one usage update, then one stop
      and nothing more, exactly when it stops once; the record is final by then, and a
      clean end after a call reports a tool call. */
  lemma StreamIsWellFormedIff(env: Env, fs: seq<Frame>)
    ensures var log := Stream(env, fs).log;
            WellFormed(log) <==> Stops(log, |log|) == 1
    ensures !env.closingRaises && !env.safetyRecorderRaises ==>
              (WellFormed(Stream(env, fs).log) <==> !Silent(env, fs))
  {
    var r := Engine(env, fs);
    EngineEnds(env, fs);
    StreamStops(env, fs);
    if WellFormed(Stream(env, fs).log) {
      WellFormedStopsOnce(Stream(env, fs).log);
    }
    if OpenOut(r) {
      AbortEnds(r, Internal, None);
    }
  }

  // --------------------------------------------------- calls and reservation

  /** The calls among the first `n` events of a log, and of a list of events. */
  function CallsIn(log: seq<Emission>, n: nat): seq<Block>
    requires n <= |log|
  {
    if n == 0 then []
    else if log[n - 1].event.ToolUse? then CallsIn(log, n - 1) + [log[n - 1].event.block]
    else CallsIn(log, n - 1)
  }

  function BlocksIn(es: seq<Event>, n: nat): seq<Block>
    requires n <= |es|
  {
    if n == 0 then []
    else if es[n - 1].ToolUse? then BlocksIn(es, n - 1) + [es[n - 1].block]
    else BlocksIn(es, n - 1)
  }

  lemma {:induction false} CallsAgree(a: seq<Emission>, b: seq<Emission>, n: nat)
    requires n <= |a| && n <= |b| && forall i :: 0 <= i < n ==> a[i] == b[i]
    ensures CallsIn(a, n) == CallsIn(b, n)
  {
    if n > 0 {
      CallsAgree(a, b, n - 1);
    }
  }

  lemma {:induction false} SayAllCalls(out: Out, es: seq<Event>, n: nat)
    requires n <= |es|
    ensures |SayAll(out, es).log| == |out.log| + |es|
    ensures CallsIn(SayAll(out, es).log, |out.log| + n) == CallsIn(out.log, |out.log|) + BlocksIn(es, n)
  {
    SayAllSays(out, es);
    var log := SayAll(out, es).log;
    if n == 0 {
      CallsAgree(log, out.log, |out.log|);
    } else {
      SayAllCalls(out, es, n - 1);
      assert log[|out.log| + (n - 1)] == Emission(es[n - 1], out.record);
    }
  }

  lemma {:induction false} NoBlocksInText(es: seq<Event>, n: nat)
    requires n <= |es| && forall i :: 0 <= i < |es| ==> es[i].Text?
    ensures BlocksIn(es, n) == []
  {
    if n > 0 {
      NoBlocksInText(es, n - 1);
    }
  }

  lemma {:induction false} BlocksInCalls(blocks: seq<Block>, n: nat)
    requires n <= |blocks|
    ensures |CallEvents(blocks, |blocks|)| == |blocks|
    ensures BlocksIn(CallEvents(blocks, |blocks|), n) == blocks[..n]
  {
    CallEventsAreCalls(blocks, |blocks|);
    if n > 0 {
      BlocksInCalls(blocks, n - 1);
      assert blocks[..n] == blocks[..n - 1] + [blocks[n - 1]];
    }
  }

  lemma {:induction false} NoCallsIn(log: seq<Emission>, n: nat)
    requires n <= |log| && NoCall(log)
    ensures CallsIn(log, n) == []
  {
    if n > 0 {
      NoCallsIn(log, n - 1);
    }
  }

  lemma AbortAddsNoCall(out: Out, code: Code, stop: Option<Stop>)
    ensures var log := Abort(out, code, stop).log;
            CallsIn(log, |log|) == CallsIn(out.log, |out.log|)
  {
    CallsAgree(Abort(out, code, stop).log, out.log, |out.log|);
  }

  lemma CleanEndAddsNoCall(env: Env, out: Out, turn: Turn, usage: Option<Usage>, called: bool)
    ensures var log := CleanEnd(env, out, turn, usage, called).log;
            CallsIn(log, |log|) == CallsIn(out.log, |out.log|)
  {
    var log := CleanEnd(env, out, turn, usage, called).log;
    assert forall i :: 0 <= i < |out.log| ==> log[i] == out.log[i];
    CallsAgree(log, out.log, |out.log|);
  }

  /** The calls a plan lets through: the whole decided batch or nothing of it. */
  function Announced(plan: Plan): seq<Block> {
    match plan
    case Emit(_, Some(Batch(_, d)), _) => if Rejects(d) then [] else d.blocks
    case Relay(events, _) => BlocksIn(events, |events|)
    case _ => []
  }

  lemma SpeakingAddsNoCall(out: Out, texts: seq<string>)
    ensures var log := SayAll(out, TextEvents(texts, |texts|)).log;
            CallsIn(log, |log|) == CallsIn(out.log, |out.log|)
  {
    var es := TextEvents(texts, |texts|);
    TextEventsAreText(texts, |texts|);
    SayAllCalls(out, es, |es|);
    NoBlocksInText(es, |es|);
  }

  lemma CallingAddsBlocks(out: Out, blocks: seq<Block>)
    ensures var log := SayAll(out, CallEvents(blocks, |blocks|)).log;
            CallsIn(log, |log|) == CallsIn(out.log, |out.log|) + blocks
  {
    BlocksInCalls(blocks, |blocks|);
    SayAllCalls(out, CallEvents(blocks, |blocks|), |blocks|);
    assert blocks[..|blocks|] == blocks;
  }

  lemma EmitAnnounces(env: Env, turn: Turn, plan: Plan, out: Out)
    requires CallsIn(out.log, |out.log|) == [] && plan.Emit? && plan.batch.Some?
    ensures var log := Perform(env, turn, plan, out).log;
            CallsIn(log, |log|) == Announced(plan)
  {
    var spoken := SayAll(out, TextEvents(plan.texts, |plan.texts|));
    var d := plan.batch.value.decision;
    SpeakingAddsNoCall(out, plan.texts);
    if Rejects(d) {
      AbortAddsNoCall(spoken, BatchRejected, Some(InvalidOutput));
    } else {
      CallingAddsBlocks(spoken, d.blocks);
      CleanEndAddsNoCall(env, SayAll(spoken, CallEvents(d.blocks, |d.blocks|)), turn, plan.usage, d.blocks != []);
    }
  }

  lemma PerformAnnounces(env: Env, turn: Turn, plan: Plan, out: Out)
    requires CallsIn(out.log, |out.log|) == []
    ensures var log := Perform(env, turn, plan, out).log;
            CallsIn(log, |log|) == Announced(plan)
  {
    match plan {
      case Crash =>
      case FailPrivately => AbortAddsNoCall(out, PrivateFailed, Some(InvalidOutput));
      case Relay(events, _) =>
        SayAllCalls(out, events, |events|);
        CleanEndAddsNoCall(env, SayAll(out, events), turn, turn.usage, true);
      case Emit(texts, None, usage) =>
        SpeakingAddsNoCall(out, texts);
        CleanEndAddsNoCall(env, SayAll(out, TextEvents(texts, |texts|)), turn, usage, false);
      case Emit(_, Some(_), _) => EmitAnnounces(env, turn, plan, out);
    }
  }

  /** The calls a client sees are those of one decision, all of them and in its order, or
      none: none at all when the frame loop already ended the stream. */
  lemma CallsAreTheDecision(env: Env, fs: seq<Frame>)
    ensures var log := Stream(env, fs).log;
            CallsIn(log, |log|) == if Heard(env, fs) then Announced(PlanOf(env, Listened(env, fs).turn)) else []
  {
    var s := Listened(env, fs);
    NothingEarly(env, fs);
    NoCallsIn(s.out.log, |s.out.log|);
    if Heard(env, fs) {
      PerformAnnounces(env, s.turn, PlanOf(env, s.turn), s.out);
    }
    AbortAddsNoCall(Engine(env, fs), Internal, None);
  }

  /** The atomic policy, as `process_tool_batch` keeps it. */
  ghost predicate AtomicDecisions(env: Env) {
    forall cs :: env.decide(cs).Some? ==>
      |env.decide(cs).value.blocks| == (if env.decide(cs).value.accepted then |cs| else 0)
  }

  lemma BatchIsDecided(env: Env, turn: Turn)
    requires PlanOf(env, turn).Emit? && PlanOf(env, turn).batch.Some?
    ensures var b := PlanOf(env, turn).batch.value;
            b.candidates != [] && env.decide(b.candidates) == Some(b.decision)
  {
  }

  /** Under the atomic policy a turn's candidates all reach the client or none does. */
  lemma AllOrNone(env: Env, fs: seq<Frame>)
    requires AtomicDecisions(env) && Heard(env, fs)
    requires PlanOf(env, Listened(env, fs).turn).Emit? && PlanOf(env, Listened(env, fs).turn).batch.Some?
    ensures var (log, b) := (Stream(env, fs).log, PlanOf(env, Listened(env, fs).turn).batch.value);
            |CallsIn(log, |log|)| == if b.decision.accepted then |b.candidates| else 0
  {
    CallsAreTheDecision(env, fs);
    BatchIsDecided(env, Listened(env, fs).turn);
  }

  // what a relay shows

  /** The arguments of a relayed candidate, when they parse. */
  function Parsed(env: Env, c: Candidate): Option<string> {
    if c.arguments == "" then Some("{}") else env.parse(c.arguments)
  }

  /** How many candidates come before the first whose arguments do not parse. */
  function Parsable(env: Env, cs: seq<Candidate>): (n: nat)
    ensures n <= |cs| && forall i :: 0 <= i < n ==> Parsed(env, cs[i]).Some?
    ensures n < |cs| ==> Parsed(env, cs[n]).None?
  {
    if cs == [] || Parsed(env, cs[0]).None? then 0 else 1 + Parsable(env, cs[1..])
  }

  ghost predicate ShownAs(env: Env, c: Candidate, b: Block) {
    b.id == c.id && b.name == c.name && Some(b.arguments) == Parsed(env, c)
  }

  lemma {:induction false} RelayedFrom(env: Env, cs: seq<Candidate>, i: nat)
    requires i <= |cs|
    ensures var (r, crash, n) := (Relayed(env, cs, i).0, Relayed(env, cs, i).1, Parsable(env, cs[i..]));
            && |r| == n && (crash <==> i + n < |cs|)
            && forall k :: 0 <= k < n ==> r[k].ToolUse? && ShownAs(env, cs[i + k], r[k].block)
    decreases |cs| - i
  {
    if i < |cs| {
      RelayedFrom(env, cs, i + 1);
      assert cs[i..][1..] == cs[i + 1..];
      var (r, rest) := (Relayed(env, cs, i).0, Relayed(env, cs, i + 1).0);
      forall k | 0 < k < |r| ensures r[k].ToolUse? && ShownAs(env, cs[i + k], r[k].block) {
        assert r[k] == rest[k - 1];
      }
    }
  }

  lemma {:induction false} BlocksInConcat(a: seq<Event>, b: seq<Event>, n: nat)
    requires n <= |b|
    ensures BlocksIn(a + b, |a| + n) == BlocksIn(a, |a|) + BlocksIn(b, n)
  {
    if n == 0 {
      BlocksAgree(a + b, a, |a|);
    } else {
      BlocksInConcat(a, b, n - 1);
      assert (a + b)[|a| + (n - 1)] == b[n - 1];
    }
  }

  lemma {:induction false} BlocksAgree(a: seq<Event>, b: seq<Event>, n: nat)
    requires n <= |a| && n <= |b| && forall i :: 0 <= i < n ==> a[i] == b[i]
    ensures BlocksIn(a, n) == BlocksIn(b, n)
  {
    if n > 0 {
      BlocksAgree(a, b, n - 1);
    }
  }

  lemma {:induction false} BlocksOfCalls(es: seq<Event>, n: nat)
    requires n <= |es| && forall i :: 0 <= i < |es| ==> es[i].ToolUse?
    ensures |BlocksIn(es, n)| == n && forall i :: 0 <= i < n ==> BlocksIn(es, n)[i] == es[i].block
  {
    if n > 0 {
      BlocksOfCalls(es, n - 1);
    }
  }

  /** The calls among the first `n` parts. */
  function PartCalls(parts: seq<Part>, n: nat): seq<Block>
    requires n <= |parts|
  {
    if n == 0 then []
    else if parts[n - 1].CallPart? then PartCalls(parts, n - 1) + [parts[n - 1].block]
    else PartCalls(parts, n - 1)
  }

  lemma {:induction false} PartsShowCalls(parts: seq<Part>, n: nat)
    requires n <= |parts|
    ensures BlocksIn(Parts(parts, n), |Parts(parts, n)|) == PartCalls(parts, n)
  {
    if n > 0 {
      PartsShowCalls(parts, n - 1);
      var (before, es) := (Parts(parts, n - 1), Parts(parts, n));
      assert forall i :: 0 <= i < |before| ==> es[i] == before[i];
      BlocksAgree(es, before, |before|);
    }
  }

  /** What a native stream relays of a continuation. */
  lemma RelayShape(env: Env, turn: Turn)
    requires PlanOf(env, turn).Relay?
    ensures var c := env.continued(Asked(env.enabled, NativeCalls(turn)), "");
            && !env.buffered && c.Final?
            && PlanOf(env, turn) == Relay(Parts(c.content, |c.content|) + Relayed(env, c.candidates, 0).0,
                                          Relayed(env, c.candidates, 0).1)
  {
    PlansRelayBody(env, turn);
  }

  /** The calls among the parts and then, in order and under their ids and names, exactly the
      candidates before the first whose arguments do not parse. */
  ghost predicate ShowsPrefix(env: Env, c: Continued, calls: seq<Block>)
    requires c.Final?
  {
    var (parts, n) := (PartCalls(c.content, |c.content|), Parsable(env, c.candidates));
    && |calls| == |parts| + n && calls[..|parts|] == parts
    && forall k :: 0 <= k < n ==> ShownAs(env, c.candidates[k], calls[|parts| + k])
  }

  lemma RelayedBlocks(env: Env, c: Continued)
    requires c.Final?
    ensures var (calls, crash) := Relayed(env, c.candidates, 0);
            var events := Parts(c.content, |c.content|) + calls;
            ShowsPrefix(env, c, BlocksIn(events, |events|)) && (crash <==> Parsable(env, c.candidates) < |c.candidates|)
  {
    var (events, relayed) := (Parts(c.content, |c.content|), Relayed(env, c.candidates, 0).0);
    RelayedFrom(env, c.candidates, 0);
    assert c.candidates[0..] == c.candidates;
    PartsShowCalls(c.content, |c.content|);
    BlocksInConcat(events, relayed, |relayed|);
    BlocksOfCalls(relayed, |relayed|);
  }

  lemma ShowsAllIff(env: Env, c: Continued, calls: seq<Block>)
    requires c.Final? && ShowsPrefix(env, c, calls)
    ensures |calls| == |PartCalls(c.content, |c.content|)| + |c.candidates| <==>
              forall i :: 0 <= i < |c.candidates| ==> Parsed(env, c.candidates[i]).Some?
  {
  }

  /** A relayed continuation shows the calls among its parts and then exactly the candidates
      before the first whose arguments do not parse; so it shows all of its calls if and only
      if every argument parses, and otherwise the stream ends in an exception. */
  lemma RelayShowsPrefix(env: Env, fs: seq<Frame>)
    requires Heard(env, fs) && PlanOf(env, Listened(env, fs).turn).Relay?
    ensures var (log, turn) := (Stream(env, fs).log, Listened(env, fs).turn);
            var c := env.continued(Asked(env.enabled, NativeCalls(turn)), "");
            && c.Final? && ShowsPrefix(env, c, CallsIn(log, |log|))
            && (|CallsIn(log, |log|)| == |PartCalls(c.content, |c.content|)| + |c.candidates| <==>
                  forall i :: 0 <= i < |c.candidates| ==> Parsed(env, c.candidates[i]).Some?)
            && (Parsable(env, c.candidates) < |c.candidates| ==> Engine(env, fs).status.Raised?)
  {
    var (log, turn) := (Stream(env, fs).log, Listened(env, fs).turn);
    var c := env.continued(Asked(env.enabled, NativeCalls(turn)), "");
    RelayShape(env, turn);
    RelayedBlocks(env, c);
    CallsAreTheDecision(env, fs);
    ShowsAllIff(env, c, CallsIn(log, |log|));
  }

  /** The end of the turn goes on to the clean end. */
  ghost predicate Reaches(env: Env, plan: Plan) {
    match plan
    case Emit(_, None, _) => true
    case Emit(_, Some(Batch(_, d)), _) => !Rejects(d) && !env.safetyRecorderRaises
    case Relay(events, crash) => !crash && AnyCall(events)
    case _ => false
  }

  function UsageOf(plan: Plan, turn: Turn): Option<Usage> { if plan.Emit? then plan.usage else turn.usage }

  function SettledBy(fate: Fate, usage: Option<Usage>): Fate {
    if !fate.Open? then fate else if usage.Some? then Committed(usage.value) else Estimated
  }

  lemma CleanEndSettles(env: Env, out: Out, turn: Turn, usage: Option<Usage>, called: bool)
    ensures CleanEnd(env, out, turn, usage, called).fate == SettledBy(out.fate, usage)
  {
  }

  lemma PerformSettles(env: Env, turn: Turn, plan: Plan, out: Out)
    ensures Perform(env, turn, plan, out).fate ==
              if Reaches(env, plan) then SettledBy(out.fate, UsageOf(plan, turn)) else out.fate
  {
    match plan {
      case Crash =>
      case FailPrivately =>
      case Relay(events, _) =>
        SayAllSays(out, events);
        CleanEndSettles(env, SayAll(out, events), turn, turn.usage, true);
      case Emit(texts, batch, usage) =>
        var spoken := SayAll(out, TextEvents(texts, |texts|));
        SayAllSays(out, TextEvents(texts, |texts|));
        CleanEndSettles(env, spoken, turn, usage, false);
        if batch.Some? {
          var blocks := batch.value.decision.blocks;
          SayAllSays(spoken, CallEvents(blocks, |blocks|));
          CleanEndSettles(env, SayAll(spoken, CallEvents(blocks, |blocks|)), turn, usage, blocks != []);
        }
    }
  }

  lemma PerformRecords(env: Env, turn: Turn, plan: Plan, out: Out)
    requires out.record.Active?
    ensures Perform(env, turn, plan, out).record ==
              if Reaches(env, plan) then (if env.bookkeeping.EvidenceFails? then Failed else Succeeded)
              else if plan.FailPrivately? || (RejectingPlan(plan) && !env.rejectionErrorRaises) then Failed
              else Active
  {
    match plan {
      case Crash =>
      case FailPrivately =>
      case Relay(events, _) => SayAllSays(out, events);
      case Emit(texts, batch, _) =>
        SayAllSays(out, TextEvents(texts, |texts|));
        if batch.Some? {
          var blocks := batch.value.decision.blocks;
          SayAllSays(SayAll(out, TextEvents(texts, |texts|)), CallEvents(blocks, |blocks|));
        }
    }
  }

  /** What becomes of the record: it succeeds if and only if the stream gets to its clean end
      and the evidence is recorded, even where finalising it then raises; it stays active if
      and only if the stream is silent and closing does not raise; and otherwise it fails. */
  lemma RecordIs(env: Env, fs: seq<Frame>)
    ensures Stream(env, fs).record ==
              if Heard(env, fs) && Reaches(env, PlanOf(env, Listened(env, fs).turn)) && !env.bookkeeping.EvidenceFails? then Succeeded
              else if Silent(env, fs) && !env.closingRaises then Active
              else Failed
  {
    var s := Listened(env, fs);
    NothingEarly(env, fs);
    ListenedFails(env, fs);
    SilentIsItsBranch(env, fs);
    if Heard(env, fs) {
      PerformRecords(env, s.turn, PlanOf(env, s.turn), s.out);
      PlansRelayBody(env, s.turn);
      PerformEnds(env, s.turn, PlanOf(env, s.turn), s.out);
    }
  }

  /** An ended stream has failed, any other is active. */
  predicate FailsAtEnd(out: Out) { out.record == if out.status.Ended? then Failed else Active }

  lemma {:induction false} EventsFail(env: Env, s: State, es: seq<Decoded>, i: nat)
    requires i <= |es| && FailsAtEnd(s.out)
    ensures FailsAtEnd(HandleEvents(env, s, es, i).out)
    decreases |es| - i
  {
    if i < |es| && s.out.status.Running? {
      EventsFail(env, HandleEvent(env, s, es[i]), es, i + 1);
    }
  }

  lemma {:induction false} FramesFail(env: Env, s: State, fs: seq<Frame>, i: nat)
    requires i <= |fs| && FailsAtEnd(s.out)
    ensures FailsAtEnd(HandleFrames(env, s, fs, i).out)
    decreases |fs| - i
  {
    if i < |fs| && s.out.status.Running? {
      if fs[i].Frame? {
        EventsFail(env, s, fs[i].events, 0);
      }
      if !(fs[i].Frame? && fs[i].last) {
        FramesFail(env, HandleFrame(env, s, fs[i]), fs, i + 1);
      }
    }
  }

  lemma ListenedFails(env: Env, fs: seq<Frame>)
    ensures FailsAtEnd(Listened(env, fs).out)
  {
    FramesFail(env, State(NO_TURN, Opened(env)), fs, 0);
  }

  /** What becomes of the reservation: released when nothing was sent, estimated on an
      error status, and otherwise settled exactly when the stream gets to its clean end.
      Every other way out of a stream that was sent leaves it open. */
  lemma ReservationSettledIff(env: Env, fs: seq<Frame>)
    requires env.budgeted
    ensures var (fate, s) := (Stream(env, fs).fate, Listened(env, fs));
            match env.opening
            case AdmissionRefuses => fate == Released
            case HttpFails => fate == Estimated
            case TransportRaises => fate == Open
            case Streams =>
              (fate.Open? <==> !(Heard(env, fs) && Reaches(env, PlanOf(env, s.turn))))
              && (!fate.Open? ==> fate == SettledBy(Open, UsageOf(PlanOf(env, s.turn), s.turn)))
            case _ => fate == NoReservation
  {
    var s := Listened(env, fs);
    NothingEarly(env, fs);
    OnlyStreamsAreHeard(env, fs);
    PerformSettles(env, s.turn, PlanOf(env, s.turn), s.out);
  }

  /** Without a budget there is no reservation. */
  lemma NoBudgetNoReservation(env: Env, fs: seq<Frame>)
    requires !env.budgeted
    ensures Stream(env, fs).fate == NoReservation
  {
    var s := Listened(env, fs);
    ListenedKeepsFate(env, fs);
    PerformReservesNothing(env, s.turn, PlanOf(env, s.turn), s.out);
  }

  lemma PerformReservesNothing(env: Env, turn: Turn, plan: Plan, out: Out)
    requires out.fate == NoReservation
    ensures Perform(env, turn, plan, out).fate == NoReservation
  {
    PerformSettles(env, turn, plan, out);
  }

  lemma ListenedKeepsFate(env: Env, fs: seq<Frame>)
    ensures Listened(env, fs).out.fate == Opened(env).fate
  {
    NothingEarly(env, fs);
  }

  lemma OnlyStreamsAreHeard(env: Env, fs: seq<Frame>)
    ensures Heard(env, fs) ==> env.opening.Streams?
  {
    var start := State(NO_TURN, Opened(env));
    assert !start.out.status.Running? ==> HandleFrames(env, start, fs, 0) == start;
  }
}
