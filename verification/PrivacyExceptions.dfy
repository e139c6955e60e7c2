/** Streams that show what their private loop keeps to itself: one input for each way it
    happens. */
module PrivacyExceptions {
  import opened StreamPrivacy
  import opened StreamExceptions
  import opened Strings
  import opened ToolCalls
  import opened Wrappers
  import CandidateMerge
  import Firewall
  import PrivateLoop
  import StreamAccumulator
  import StreamEngine

  const RECALL := "__interop_recall_history"

  const RETRIEVE := Candidate("call_1", RETRIEVAL, "{}")

  /** A loop whose model answers the first round with this turn. */
  function Answering(answer: PrivateLoop.Turn, pinned: set<string>): PrivateLoop.Env {
    PrivateLoop.Env({RETRIEVAL}, Some([]), false, pinned, c => PrivateLoop.Arguments("{}"),
                    (round, index, name, arguments) => PrivateLoop.Output("", false, ""), round => true,
                    (round, messages) => PrivateLoop.Response(false, answer),
                    (turn: PrivateLoop.Turn) => turn.candidates)
  }

  function ContinuationOf(ending: PrivateLoop.Ending): StreamEngine.Continued {
    if ending.Public? then StreamEngine.Final(PartsOf(ending.turn.content), ending.turn.candidates, None)
    else StreamEngine.Terminal(true)
  }

  /** A stream that continues through this loop, with nothing else out of the ordinary. */
  function Before(loop: PrivateLoop.Env, buffered: bool): StreamEngine.Env {
    Plain(loop.enabled, StreamEngine.Fails, StreamEngine.Decision(true, []), false, false).(
      buffered := buffered,
      continued := (cs, text) => ContinuationOf(RunFor(loop, cs, text).1))
  }

  lemma BeforeContinues(loop: PrivateLoop.Env, buffered: bool)
    ensures Continues(Before(loop, buffered), loop)
  {
  }

  /** The turn the loop hands back when the model asks for nothing enabled. */
  function Handed(answer: PrivateLoop.Turn, pinned: set<string>): PrivateLoop.Turn {
    answer.(content := Firewall.Public(answer.content, Some(Firewall.Identity({"call_1"}, pinned, {RETRIEVAL}))))
  }

  lemma OneRetrieval()
    ensures Asked({RETRIEVAL}, [RETRIEVE]) == [RETRIEVE]
  {
    assert Split({RETRIEVAL}, [RETRIEVE], true, 0) == [];
  }

  /** One round, and the answer goes through the filter. */
  lemma AnswerIsHanded(answer: PrivateLoop.Turn, pinned: set<string>)
    requires Asked({RETRIEVAL}, answer.candidates) == [] && Unasked({RETRIEVAL}, answer.candidates) == answer.candidates
    ensures RunFor(Answering(answer, pinned), [RETRIEVE], "").1 == PrivateLoop.Public(Handed(answer, pinned))
  {
    var loop := Answering(answer, pinned);
    var show := PrivateLoop.Showing(loop);
    var s := PrivateLoop.Begin(loop, [RETRIEVE], TurnOf(""));
    assert PrivateLoop.IdsTo([RETRIEVE], 1, 0) == {} && PrivateLoop.IdsTo([RETRIEVE], 1, 1) == {"call_1"};
    assert PrivateLoop.RefsTo(loop, [RETRIEVE], 1, 0) == {} && PrivateLoop.RefsTo(loop, [RETRIEVE], 1, 1) == {};
    var (t, ending) := PrivateLoop.Round(loop, show, s);
    assert ending.None? && t.pending == [] && t.turn == answer;
    assert t.ids == {"call_1"} && t.refs == pinned;
    assert PrivateLoop.Converse(loop, show, t) == (t, PrivateLoop.Public(PrivateLoop.Firewalled(loop, t)));
  }

  const RECALLED := Candidate("call_2", RECALL, "{}")

  /** The model asks for an internal tool that is not enabled. */
  const RECALLING := Answering(PrivateLoop.Turn([], "end_turn", [RECALLED]), {})

  lemma RecallIsContinued()
    ensures Before(RECALLING, false).continued([RETRIEVE], "") == StreamEngine.Final([], [RECALLED], None)
  {
    var answer := PrivateLoop.Turn([], "end_turn", [RECALLED]);
    assert Split({RETRIEVAL}, [RECALLED], true, 0) == [] && Split({RETRIEVAL}, [RECALLED], false, 0) == [];
    AnswerIsHanded(answer, {});
    assert Handed(answer, {}) == answer;
  }

  lemma RecallIsReserved()
    ensures Firewall.Reserved(RECALL) && RECALL != RETRIEVAL
  {
  }

  /** A native stream with a retrieval, whose continuation asks for an internal tool that is
      not enabled: the call is shown to the client although its name is reserved. */
  lemma ReservedCallIsRelayed()
    ensures var (env, fs) := (Before(RECALLING, false), OneCall(RETRIEVAL));
            var log := StreamEngine.Stream(env, fs).log;
            && Continues(env, RECALLING) && StreamEngine.Heard(env, fs) && Firewall.Reserved(RECALL)
            && StreamEngine.CallsIn(log, |log|) == [StreamEngine.Block("call_2", RECALL, "{}")]
  {
    var (env, fs) := (Before(RECALLING, false), OneCall(RETRIEVAL));
    BeforeContinues(RECALLING, false);
    RecallIsReserved();
    OneCallIsHeard(env, RETRIEVAL);
    RecallIsContinued();
    OneCallIsRelayed(env, StreamEngine.Listened(env, fs).turn, RECALLED);
    StreamEngine.CallsAreTheDecision(env, fs);
    OneBlock(StreamEngine.Block("call_2", RECALL, "{}"));
  }

  lemma OneBlock(block: StreamEngine.Block)
    ensures StreamEngine.BlocksIn([StreamEngine.ToolUse(block)], 1) == [block]
  {
    assert StreamEngine.BlocksIn([StreamEngine.ToolUse(block)], 0) == [];
  }

  /** With one call to relay, and nothing else, that call is the plan. */
  lemma OneCallIsRelayed(env: StreamEngine.Env, turn: StreamEngine.Turn, call: Candidate)
    requires !env.buffered && env.enabled == {RETRIEVAL} && StreamEngine.NativeCalls(turn) == [RETRIEVE]
    requires env.continued([RETRIEVE], "") == StreamEngine.Final([], [call], None)
    requires call.arguments != "" && env.parse(call.arguments) == Some(call.arguments)
    ensures StreamEngine.PlanOf(env, turn) ==
              StreamEngine.Relay([StreamEngine.ToolUse(StreamEngine.Block(call.id, call.name, call.arguments))], false)
  {
    OneRetrieval();
    assert StreamEngine.Relayed(env, [call], 1) == ([], false);
  }

  const FIRST := "see ref_"

  const SECOND := "1"

  const REF := "ref_1"

  lemma NeitherMentions()
    ensures !Contains(FIRST, REF) && !Contains(SECOND, REF) && Contains("see ref_1", REF)
  {
    assert OccursAt("see ref_1", REF, 4);
    forall i: nat | i + 5 <= 8 ensures !OccursAt(FIRST, REF, i) {
      assert FIRST[i + 4] != REF[4];
    }
  }

  lemma TwoTextsPass()
    ensures var content := [Firewall.Text(FIRST), Firewall.Text(SECOND)];
            Firewall.Public(content, Some(Firewall.Identity({"call_1"}, {REF}, {RETRIEVAL}))) == content
  {
    NeitherMentions();
    Firewall.UntouchedWhenClean([Firewall.Text(FIRST), Firewall.Text(SECOND)],
                                Some(Firewall.Identity({"call_1"}, {REF}, {RETRIEVAL})));
  }

  lemma TwoTextsJoin()
    ensures StreamEngine.Texts(SPELT, 2) == [FIRST, SECOND] && StreamEngine.Join([FIRST, SECOND], 2) == "see ref_1"
  {
    assert StreamEngine.Texts(SPELT, 0) == [] && StreamEngine.Texts(SPELT, 1) == [FIRST];
    assert StreamEngine.Join([FIRST, SECOND], 0) == "" && StreamEngine.Join([FIRST, SECOND], 1) == FIRST;
  }

  /** With nothing else to decide, the joined texts are what is emitted. */
  lemma JoinedIsEmitted(env: StreamEngine.Env, turn: StreamEngine.Turn, parts: seq<StreamEngine.Part>)
    requires env.buffered && env.enabled == {RETRIEVAL} && turn.text == ""
    requires StreamEngine.NativeCalls(turn) == [RETRIEVE]
    requires env.continued([RETRIEVE], "") == StreamEngine.Final(parts, [], None) && env.reextract(parts, []) == Some([])
    requires StreamEngine.Join(StreamEngine.Texts(parts, |parts|), |StreamEngine.Texts(parts, |parts|)|) != ""
    ensures var texts := StreamEngine.Texts(parts, |parts|);
            StreamEngine.PlanOf(env, turn) == StreamEngine.Emit([StreamEngine.Join(texts, |texts|)], None, turn.usage)
  {
    OneRetrieval();
    assert CandidateMerge.Merge(env.normal, [RETRIEVE], []) == [RETRIEVE];
    assert Unasked(env.enabled, []) == [];
  }

  lemma EmittedFirst(env: StreamEngine.Env, turn: StreamEngine.Turn, out: StreamEngine.Out, text: string,
                     usage: Option<StreamEngine.Usage>)
    requires out.log == [] && text != ""
    ensures var log := StreamEngine.Perform(env, turn, StreamEngine.Emit([text], None, usage), out).log;
            log != [] && log[0].event == StreamEngine.Text(text)
  {
    assert StreamEngine.TextEvents([text], 0) == [];
    assert StreamEngine.TextEvents([text], 1) == [StreamEngine.Text(text)];
    StreamEngine.SayAllSays(out, [StreamEngine.Text(text)]);
    var said := StreamEngine.SayAll(out, [StreamEngine.Text(text)]);
    assert said.log[0] == StreamEngine.Emission(StreamEngine.Text(text), out.record);
    assert StreamEngine.CleanEnd(env, said, turn, usage, false).log[0] == said.log[0];
  }

  lemma StreamKeepsFirst(env: StreamEngine.Env, fs: seq<StreamEngine.Frame>)
    requires StreamEngine.Engine(env, fs).log != []
    ensures StreamEngine.Stream(env, fs).log != [] && StreamEngine.Stream(env, fs).log[0] == StreamEngine.Engine(env, fs).log[0]
  {
  }

  /** The model answers in two texts. */
  const SPELLING := Answering(PrivateLoop.Turn([Firewall.Text(FIRST), Firewall.Text(SECOND)], "end_turn", []), {REF})

  const SPELT := [StreamEngine.TextPart(FIRST), StreamEngine.TextPart(SECOND)]

  lemma SpellingIsContinued()
    ensures Before(SPELLING, true).continued([RETRIEVE], "") == StreamEngine.Final(SPELT, [], None)
  {
    var content := [Firewall.Text(FIRST), Firewall.Text(SECOND)];
    AnswerIsHanded(PrivateLoop.Turn(content, "end_turn", []), {REF});
    TwoTextsPass();
    assert PartsOf(content) == SPELT;
  }

  /** A stream that holds text back, with a retrieval, whose continuation spells a pinned
      reference across two texts: the client is sent the reference. */
  lemma JoinedTextsCanMention()
    ensures var (env, fs) := (Before(SPELLING, true), OneCall(RETRIEVAL));
            var (plan, log) := (StreamEngine.PlanOf(env, StreamEngine.Listened(env, fs).turn), StreamEngine.Stream(env, fs).log);
            && Continues(env, SPELLING) && StreamEngine.Heard(env, fs)
            && plan.Emit? && plan.texts == ["see ref_1"]
            && log != [] && log[0].event == StreamEngine.Text("see ref_1")
            && REF in SPELLING.pinned && Contains("see ref_1", REF)
  {
    var (env, fs) := (Before(SPELLING, true), OneCall(RETRIEVAL));
    BeforeContinues(SPELLING, true);
    OneCallIsHeard(env, RETRIEVAL);
    SpellingIsContinued();
    TwoTextsJoin();
    NeitherMentions();
    var turn := StreamEngine.Listened(env, fs).turn;
    JoinedIsEmitted(env, turn, SPELT);
    StreamEngine.NothingEarly(env, fs);
    EmittedFirst(env, turn, StreamEngine.Listened(env, fs).out, "see ref_1", turn.usage);
    StreamKeepsFirst(env, fs);
  }
}
