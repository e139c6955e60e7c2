/** The bounded private loop: run the internal calls of a turn, show the model their
    results, and only let the turn that asks for nothing private through. */
module PrivateLoop {
  import opened Firewall
  import opened Strings
  import opened ToolCalls
  import opened Wrappers

  const MAX_DEPTH: nat := 8

  datatype Turn = Turn(content: seq<Block>, stop: string, candidates: seq<Candidate>)

  datatype Response = Response(failed: bool, turn: Turn)

  datatype Message = Message(role: string, content: seq<Block>)

  datatype Parsed = Arguments(text: string) | Malformed(why: string)

  /** What an executor answers, as the model sees it; `ref` is empty when it minted no
      reference. */
  datatype Output = Output(text: string, isError: bool, ref: string)

  /** Everything around the loop, arbitrary: the model, the executor, the argument parser,
      the extractor, the allowance, and the request's references. `registry` says whether
      the request has a reference registry. */
  datatype Env = Env(
    enabled: set<string>,
    messages: Option<seq<Message>>,
    registry: bool,
    pinned: set<string>,
    parse: Candidate -> Parsed,
    execute: (nat, nat, string, string) -> Output,
    allowed: nat -> bool,
    model: (nat, seq<Message>) -> Response,
    extract: Turn -> seq<Candidate>)

  // -------------------------------------------------------------- one round

  function Digit(d: nat): char
    requires d < 10
  {
    "0123456789"[d]
  }

  function Decimal(n: nat): (s: string)
    ensures s != []
    ensures forall i :: 0 <= i < |s| ==> '0' <= s[i] <= '9'
  {
    if n < 10 then [Digit(n)] else Decimal(n / 10) + [Digit(n % 10)]
  }

  function SyntheticId(round: nat, index: nat): string {
    "interop_no_id_" + Decimal(round) + "_" + Decimal(index)
  }

  /** A call without an id gets one made of its round and place. */
  function CallId(c: Candidate, round: nat, index: nat): (id: string)
    ensures id != []
  {
    if c.id == "" then SyntheticId(round, index) else c.id
  }

  function InternalError(name: string, why: string): string {
    "[Interop internal error for " + name + "]: " + why
  }

  function NotEnabled(name: string): string { InternalError(name, "tool is not enabled for this request") }

  function ResultOf(env: Env, c: Candidate, round: nat, index: nat): Block {
    var id := CallId(c, round, index);
    if c.name !in env.enabled then ToolResult(id, NotEnabled(c.name), true)
    else match env.parse(c)
      case Malformed(why) => ToolResult(id, InternalError(c.name, why), true)
      case Arguments(text) =>
        var o := env.execute(round, index, c.name, text);
        ToolResult(id, o.text, o.isError)
  }

  /** A call that is not enabled is answered but not shown as made. */
  function CallOf(env: Env, c: Candidate, round: nat, index: nat): Block {
    Call(CallId(c, round, index), c.name, if env.parse(c).Arguments? then env.parse(c).text else "{}")
  }

  /** The reference a call mints into the request's registry. */
  function Minted(env: Env, c: Candidate, round: nat, index: nat): set<string> {
    if !env.registry || c.name !in env.enabled || env.parse(c).Malformed? then {}
    else
      var o := env.execute(round, index, c.name, env.parse(c).text);
      if o.ref != "" && !o.isError then {o.ref} else {}
  }

  /** The results of the first `n` pending calls, and the calls shown with them. */
  function ResultsTo(env: Env, pending: seq<Candidate>, round: nat, n: nat): (r: seq<Block>)
    requires n <= |pending|
    ensures |r| == n
  {
    if n == 0 then []
    else ResultsTo(env, pending, round, n - 1) + [ResultOf(env, pending[n - 1], round, n - 1)]
  }

  function EnabledTo(env: Env, pending: seq<Candidate>, n: nat): (r: nat)
    requires n <= |pending|
    ensures r <= n
  {
    if n == 0 then 0 else EnabledTo(env, pending, n - 1) + (if pending[n - 1].name in env.enabled then 1 else 0)
  }

  function CallsTo(env: Env, pending: seq<Candidate>, round: nat, n: nat): (r: seq<Block>)
    requires n <= |pending|
    ensures |r| == EnabledTo(env, pending, n)
  {
    if n == 0 then []
    else if pending[n - 1].name in env.enabled then
      CallsTo(env, pending, round, n - 1) + [CallOf(env, pending[n - 1], round, n - 1)]
    else CallsTo(env, pending, round, n - 1)
  }

  function Results(env: Env, pending: seq<Candidate>, round: nat): seq<Block> {
    ResultsTo(env, pending, round, |pending|)
  }

  function Calls(env: Env, pending: seq<Candidate>, round: nat): seq<Block> {
    CallsTo(env, pending, round, |pending|)
  }

  /** The ids the first `n` pending calls go by, and the references they mint. */
  function IdsTo(pending: seq<Candidate>, round: nat, n: nat): set<string>
    requires n <= |pending|
  {
    if n == 0 then {} else IdsTo(pending, round, n - 1) + {CallId(pending[n - 1], round, n - 1)}
  }

  function RefsTo(env: Env, pending: seq<Candidate>, round: nat, n: nat): set<string>
    requires n <= |pending|
  {
    if n == 0 then {} else RefsTo(env, pending, round, n - 1) + Minted(env, pending[n - 1], round, n - 1)
  }

  function RoundIds(pending: seq<Candidate>, round: nat): set<string> { IdsTo(pending, round, |pending|) }

  function RoundRefs(env: Env, pending: seq<Candidate>, round: nat): set<string> {
    RefsTo(env, pending, round, |pending|)
  }

  /** `build_private_continuation_messages` */
  function Continuation(original: seq<Message>, calls: seq<Block>, results: seq<Block>): seq<Message> {
    original + [Message("assistant", calls)] + (if results == [] then [] else [Message("tool", results)])
  }

  // ---------------------------------------------------------- the whole run

  /** One model step: what was pending, what the model was shown, and what it answered. */
  datatype ModelStep = ModelStep(pending: seq<Candidate>, shown: seq<Message>, response: Response)

  datatype State = State(
    pending: seq<Candidate>,
    turn: Turn,
    ids: set<string>,
    refs: set<string>,
    steps: seq<ModelStep>)

  datatype Ending = NothingEnabled | NoRequest | Denied | StepFailed | Exhausted | Public(turn: Turn)

  function Begin(env: Env, candidates: seq<Candidate>, turn: Turn): State {
    State(candidates, turn, {}, env.pinned, [])
  }

  /** The internal calls of the round have been answered. */
  function Answered(env: Env, s: State): State {
    var round := |s.steps| + 1;
    s.(ids := s.ids + RoundIds(s.pending, round), refs := s.refs + RoundRefs(env, s.pending, round))
  }

  /** What the model is shown of a round: always the original messages and this round. */
  function Shown(env: Env, pending: seq<Candidate>, round: nat): seq<Message> {
    if env.messages.None? then []
    else Continuation(env.messages.value, Calls(env, pending, round), Results(env, pending, round))
  }

  function RoundShowing(env: Env, s: State, shown: seq<Message>): (r: (State, Option<Ending>))
    ensures r.1.None? ==> |r.0.steps| == |s.steps| + 1
  {
    var (round, answered) := (|s.steps| + 1, Answered(env, s));
    if env.messages.None? then (answered, Some(NoRequest))
    else if !env.allowed(round) then (answered, Some(Denied))
    else
      var response := env.model(round, shown);
      if response.failed then (answered, Some(StepFailed))
      else
        var next := Asked(env.enabled, env.extract(response.turn));
        (answered.(pending := next, turn := if next == [] then response.turn else s.turn,
                   steps := s.steps + [ModelStep(s.pending, shown, response)]),
         None)
  }

  /** What each round shows the model. */
  type Show = (seq<Candidate>, nat) -> seq<Message>

  function Showing(env: Env): Show { (pending: seq<Candidate>, round: nat) => Shown(env, pending, round) }

  function Round(env: Env, show: Show, s: State): (r: (State, Option<Ending>))
    ensures r.1.None? ==> |r.0.steps| == |s.steps| + 1
  {
    RoundShowing(env, s, show(s.pending, |s.steps| + 1))
  }

  /** `_request_identity` at the end of a run. */
  function IdentityOf(env: Env, s: State): Identity { Identity(s.ids, s.refs, env.enabled) }

  /** The turn that goes back to the caller's pipeline. */
  function Firewalled(env: Env, s: State): Turn {
    s.turn.(content := Firewall.Public(s.turn.content, Some(IdentityOf(env, s))),
            candidates := Unasked(env.enabled, s.turn.candidates))
  }

  function Converse(env: Env, show: Show, s: State): (State, Ending)
    requires |s.steps| <= MAX_DEPTH
    decreases MAX_DEPTH - |s.steps|
  {
    if s.pending == [] then (s, Public(Firewalled(env, s)))
    else if |s.steps| == MAX_DEPTH then (s, Exhausted)
    else
      var (s', ending) := Round(env, show, s);
      if ending.Some? then (s', ending.value) else Converse(env, show, s')
  }

  function RunOf(env: Env, candidates: seq<Candidate>, turn: Turn): (State, Ending) {
    if env.enabled == {} then (Begin(env, candidates, turn), NothingEnabled)
    else Converse(env, Showing(env), Begin(env, candidates, turn))
  }

  // ------------------------------------------------------------- identities

  lemma {:induction false} DecimalsDiffer(m: nat, n: nat)
    requires Decimal(m) == Decimal(n)
    ensures m == n
  {
    var (s, t) := (Decimal(m), Decimal(n));
    if m < 10 || n < 10 {
      assert (m < 10 <==> |s| == 1) && (n < 10 <==> |t| == 1);
      assert s[0] == t[0];
    } else {
      assert s[..|s| - 1] == Decimal(m / 10) && t[..|t| - 1] == Decimal(n / 10);
      assert s[|s| - 1] == Digit(m % 10) && t[|t| - 1] == Digit(n % 10);
      DecimalsDiffer(m / 10, n / 10);
    }
  }

  /** The number a text of digits stands for. */
  function Value(s: string): int {
    if s == "" then 0 else 10 * Value(s[..|s| - 1]) + (s[|s| - 1] as int - '0' as int)
  }

  lemma {:induction false} DecimalReadsBack(n: nat)
    ensures Value(Decimal(n)) == n
  {
    var s := Decimal(n);
    assert Digit(n % 10) as int - '0' as int == n % 10;
    if n < 10 {
      assert s[..|s| - 1] == "" && s[|s| - 1] == Digit(n);
    } else {
      DecimalReadsBack(n / 10);
      assert s[..|s| - 1] == Decimal(n / 10) && s[|s| - 1] == Digit(n % 10);
    }
  }

  /** The number before the separator is where the two ids first have a non-digit. */
  lemma SplitAtSeparator(a: string, b: string, c: string, d: string)
    requires a + "_" + b == c + "_" + d
    requires (forall i :: 0 <= i < |a| ==> a[i] != '_') && (forall i :: 0 <= i < |c| ==> c[i] != '_')
    ensures a == c && b == d
  {
    var (s, t) := (a + "_" + b, c + "_" + d);
    assert s[|a|] == '_' && t[|c|] == '_';
    assert forall i :: 0 <= i < |a| ==> s[i] == a[i];
    assert forall i :: 0 <= i < |c| ==> t[i] == c[i];
    assert |a| == |c|;
    assert a == s[..|a|] && c == t[..|c|];
    assert b == s[|a| + 1..] && d == t[|c| + 1..];
  }

  lemma SameHead(head: string, a: string, b: string)
    requires head + a == head + b
    ensures a == b
  {
    assert a == (head + a)[|head|..] && b == (head + b)[|head|..];
  }

  lemma Regroup(a: string, b: string, c: string, d: string)
    ensures a + b + c + d == a + (b + c + d)
  {
  }

  /** Ids made up in different rounds or places are different. */
  lemma SyntheticIdsDiffer(r: nat, i: nat, q: nat, j: nat)
    requires SyntheticId(r, i) == SyntheticId(q, j)
    ensures r == q && i == j
  {
    var head := "interop_no_id_";
    Regroup(head, Decimal(r), "_", Decimal(i));
    Regroup(head, Decimal(q), "_", Decimal(j));
    SameHead(head, Decimal(r) + "_" + Decimal(i), Decimal(q) + "_" + Decimal(j));
    SplitAtSeparator(Decimal(r), Decimal(i), Decimal(q), Decimal(j));
    DecimalsDiffer(r, q);
    DecimalsDiffer(i, j);
  }

  ghost predicate AllEnabled(env: Env, pending: seq<Candidate>) {
    forall i :: 0 <= i < |pending| ==> pending[i].name in env.enabled
  }

  /** The i-th call and the i-th result carry the same id, and there are as many of one as
      of the other. */
  ghost predicate OneToOne(calls: seq<Block>, results: seq<Block>) {
    && |calls| == |results|
    && forall i :: 0 <= i < |calls| ==> calls[i].Call? && results[i].ToolResult? && calls[i].id == results[i].callId
  }

  lemma {:induction false} AllCountedIff(env: Env, pending: seq<Candidate>, n: nat)
    requires n <= |pending|
    ensures EnabledTo(env, pending, n) == n <==> forall i :: 0 <= i < n ==> pending[i].name in env.enabled
  {
    if n > 0 {
      AllCountedIff(env, pending, n - 1);
    }
  }

  lemma {:induction false} ResultAt(env: Env, pending: seq<Candidate>, round: nat, n: nat, i: nat)
    requires i < n <= |pending|
    ensures ResultsTo(env, pending, round, n)[i] == ResultOf(env, pending[i], round, i)
  {
    if i < n - 1 {
      ResultAt(env, pending, round, n - 1, i);
    }
  }

  lemma {:induction false} CallAt(env: Env, pending: seq<Candidate>, round: nat, n: nat, i: nat)
    requires i < n <= |pending| && EnabledTo(env, pending, n) == n
    ensures CallsTo(env, pending, round, n)[i] == CallOf(env, pending[i], round, i)
  {
    if i < n - 1 {
      CallAt(env, pending, round, n - 1, i);
    }
  }

  /** A round shows the model matching calls and results exactly when it ran nothing that
      is not enabled. */
  lemma IdsMatchIff(env: Env, pending: seq<Candidate>, round: nat)
    ensures OneToOne(Calls(env, pending, round), Results(env, pending, round)) <==> AllEnabled(env, pending)
  {
    AllCountedIff(env, pending, |pending|);
    if AllEnabled(env, pending) {
      forall i | 0 <= i < |pending|
        ensures Calls(env, pending, round)[i].Call? && Results(env, pending, round)[i].ToolResult?
        ensures Calls(env, pending, round)[i].id == Results(env, pending, round)[i].callId
      {
        ResultAt(env, pending, round, |pending|, i);
        CallAt(env, pending, round, |pending|, i);
      }
    }
  }

  // -------------------------------------------------------- what a run keeps

  /** One model step of a run: it had something to answer, it was allowed, and the model
      answered what it was shown. */
  ghost predicate StepHolds(env: Env, step: ModelStep, round: nat) {
    && env.messages.Some? && env.allowed(round)
    && step.pending != []
    && step.response == env.model(round, step.shown)
    && !step.response.failed
  }

  function AskedBy(env: Env, step: ModelStep): seq<Candidate> { Asked(env.enabled, env.extract(step.response.turn)) }

  /** What has to be answered before the k-th step. */
  function Owed(env: Env, first: seq<Candidate>, steps: seq<ModelStep>, k: nat): seq<Candidate>
    requires k <= |steps|
  {
    if k == 0 then first else AskedBy(env, steps[k - 1])
  }

  /** Each step answers what the one before asked for. */
  ghost predicate Linked(env: Env, first: seq<Candidate>, steps: seq<ModelStep>) {
    forall k :: 0 <= k < |steps| ==>
      StepHolds(env, steps[k], k + 1) && steps[k].pending == Owed(env, first, steps, k)
  }

  /** Everything private of a step is known: its ids and the references it minted. */
  ghost predicate StepKnown(env: Env, step: ModelStep, round: nat, ids: set<string>, refs: set<string>) {
    RoundIds(step.pending, round) <= ids && RoundRefs(env, step.pending, round) <= refs
  }

  ghost predicate Known(env: Env, steps: seq<ModelStep>, ids: set<string>, refs: set<string>) {
    && env.pinned <= refs
    && forall k :: 0 <= k < |steps| ==> StepKnown(env, steps[k], k + 1, ids, refs)
  }

  /** The steps form one conversation that begins with the given calls and leaves
      `s.pending` to be answered. */
  ghost predicate Conversation(env: Env, first: seq<Candidate>, s: State) {
    && |s.steps| <= MAX_DEPTH
    && Linked(env, first, s.steps)
    && s.pending == Owed(env, first, s.steps, |s.steps|)
    && Known(env, s.steps, s.ids, s.refs)
  }

  ghost predicate TurnIsLast(turn: Turn, s: State) {
    s.pending == [] ==> s.turn == if s.steps == [] then turn else s.steps[|s.steps| - 1].response.turn
  }

  lemma LinkedGrows(env: Env, first: seq<Candidate>, steps: seq<ModelStep>, step: ModelStep)
    requires Linked(env, first, steps)
    requires StepHolds(env, step, |steps| + 1) && step.pending == Owed(env, first, steps, |steps|)
    ensures Linked(env, first, steps + [step])
  {
    var more := steps + [step];
    forall k | 0 <= k < |more|
      ensures StepHolds(env, more[k], k + 1) && more[k].pending == Owed(env, first, more, k)
    {
      assert k > 0 ==> more[k - 1] == steps[k - 1];
      if k < |steps| {
        assert more[k] == steps[k];
      }
    }
  }

  lemma KnownGrows(env: Env, steps: seq<ModelStep>, step: ModelStep, ids: set<string>, refs: set<string>,
                   moreIds: set<string>, moreRefs: set<string>)
    requires Known(env, steps, ids, refs) && ids <= moreIds && refs <= moreRefs
    requires StepKnown(env, step, |steps| + 1, moreIds, moreRefs)
    ensures Known(env, steps, moreIds, moreRefs) && Known(env, steps + [step], moreIds, moreRefs)
  {
    forall k | 0 <= k < |steps| ensures StepKnown(env, steps[k], k + 1, moreIds, moreRefs) {
      assert StepKnown(env, steps[k], k + 1, ids, refs);
    }
  }

  lemma AnsweredKeepsConversation(env: Env, first: seq<Candidate>, s: State, step: ModelStep)
    requires Conversation(env, first, s) && step.pending == s.pending
    ensures Conversation(env, first, Answered(env, s))
    ensures Known(env, s.steps + [step], Answered(env, s).ids, Answered(env, s).refs)
  {
    var answered := Answered(env, s);
    KnownGrows(env, s.steps, step, s.ids, s.refs, answered.ids, answered.refs);
  }

  lemma StepKeepsConversation(env: Env, first: seq<Candidate>, s: State, s': State, step: ModelStep)
    requires Conversation(env, first, s) && |s.steps| < MAX_DEPTH
    requires StepHolds(env, step, |s.steps| + 1) && step.pending == s.pending
    requires s'.steps == s.steps + [step] && s'.pending == AskedBy(env, step)
    requires s'.ids == Answered(env, s).ids && s'.refs == Answered(env, s).refs
    ensures Conversation(env, first, s')
  {
    KnownGrows(env, s.steps, step, s.ids, s.refs, s'.ids, s'.refs);
    LinkedGrows(env, first, s.steps, step);
  }

  /** A round either answers its calls and stops, or takes one step. */
  lemma RoundCases(env: Env, s: State, shown: seq<Message>)
    requires s.pending != []
    ensures var ((s', ending), step) := (RoundShowing(env, s, shown), ModelStep(s.pending, shown, env.model(|s.steps| + 1, shown)));
            if ending.Some? then s' == Answered(env, s)
            else StepHolds(env, step, |s.steps| + 1) && s'.steps == s.steps + [step] && s'.pending == AskedBy(env, step)
                 && s'.ids == Answered(env, s).ids && s'.refs == Answered(env, s).refs
  {
  }

  lemma RoundKeepsConversation(env: Env, first: seq<Candidate>, s: State, shown: seq<Message>)
    requires Conversation(env, first, s) && s.pending != [] && |s.steps| < MAX_DEPTH
    ensures Conversation(env, first, RoundShowing(env, s, shown).0)
  {
    var (s', ending) := RoundShowing(env, s, shown);
    var step := ModelStep(s.pending, shown, env.model(|s.steps| + 1, shown));
    RoundCases(env, s, shown);
    if ending.None? {
      StepKeepsConversation(env, first, s, s', step);
    } else {
      AnsweredKeepsConversation(env, first, s, step);
    }
  }

  lemma RoundMoves(env: Env, turn: Turn, s: State, shown: seq<Message>)
    ensures var (s', ending) := RoundShowing(env, s, shown);
            if ending.None? then TurnIsLast(turn, s') && |s'.steps| == |s.steps| + 1
            else s'.steps == s.steps && s'.pending == s.pending && CutShort(env, s', shown, ending.value)
                 && !ending.value.Exhausted?
  {
  }

  /** Why a run stopped with calls still to be answered. */
  ghost predicate CutShort(env: Env, s: State, shown: seq<Message>, ending: Ending) {
    match ending
    case NoRequest => env.messages.None?
    case Denied => env.messages.Some? && !env.allowed(|s.steps| + 1)
    case StepFailed => env.messages.Some? && env.model(|s.steps| + 1, shown).failed
    case Exhausted => |s.steps| == MAX_DEPTH
    case _ => false
  }

  ghost predicate EndsWell(env: Env, show: Show, turn: Turn, s: State, ending: Ending) {
    if ending.Public? then s.pending == [] && TurnIsLast(turn, s) && ending.turn == Firewalled(env, s)
    else s.pending != [] && CutShort(env, s, show(s.pending, |s.steps| + 1), ending)
         && (|s.steps| == MAX_DEPTH <==> ending.Exhausted?)
  }

  /** Whatever every round keeps, a run keeps. */
  lemma {:induction false} ConverseKeeps(env: Env, show: Show, s: State, kept: State -> bool)
    requires |s.steps| <= MAX_DEPTH && kept(s)
    requires forall t :: kept(t) && t.pending != [] && |t.steps| < MAX_DEPTH ==> kept(Round(env, show, t).0)
    ensures kept(Converse(env, show, s).0)
    decreases MAX_DEPTH - |s.steps|
  {
    if s.pending != [] && |s.steps| < MAX_DEPTH && Round(env, show, s).1.None? {
      ConverseKeeps(env, show, Round(env, show, s).0, kept);
    }
  }

  lemma ConverseKeepsConversation(env: Env, show: Show, first: seq<Candidate>, s: State)
    requires Conversation(env, first, s)
    ensures Conversation(env, first, Converse(env, show, s).0)
  {
    var kept := (t: State) => Conversation(env, first, t);
    forall t | kept(t) && t.pending != [] && |t.steps| < MAX_DEPTH ensures kept(Round(env, show, t).0) {
      RoundKeepsConversation(env, first, t, show(t.pending, |t.steps| + 1));
    }
    ConverseKeeps(env, show, s, kept);
  }

  lemma {:induction false} ConverseEndsWell(env: Env, show: Show, turn: Turn, s: State)
    requires |s.steps| <= MAX_DEPTH && TurnIsLast(turn, s)
    ensures var (s', ending) := Converse(env, show, s);
            EndsWell(env, show, turn, s', ending)
    decreases MAX_DEPTH - |s.steps|
  {
    if s.pending != [] && |s.steps| < MAX_DEPTH {
      RoundMoves(env, turn, s, show(s.pending, |s.steps| + 1));
      var (s', ending) := Round(env, show, s);
      if ending.None? {
        ConverseEndsWell(env, show, turn, s');
      }
    }
  }

  /** Every step showed the model what its round shows. */
  ghost predicate ShownWell(show: Show, steps: seq<ModelStep>) {
    forall k :: 0 <= k < |steps| ==> steps[k].shown == show(steps[k].pending, k + 1)
  }

  lemma RoundShowsWell(env: Env, show: Show, s: State)
    requires ShownWell(show, s.steps)
    ensures ShownWell(show, Round(env, show, s).0.steps)
  {
  }

  lemma ConverseShowsWell(env: Env, show: Show, s: State)
    requires |s.steps| <= MAX_DEPTH && ShownWell(show, s.steps)
    ensures ShownWell(show, Converse(env, show, s).0.steps)
  {
    var kept := (t: State) => ShownWell(show, t.steps);
    forall t | kept(t) && t.pending != [] && |t.steps| < MAX_DEPTH ensures kept(Round(env, show, t).0) {
      RoundShowsWell(env, show, t);
    }
    ConverseKeeps(env, show, s, kept);
  }

  /** Every run is a conversation of at most eight steps, whatever the model says, and each
      step shows the model the original messages and its own round; it is cut off exactly
      when the eighth answer still asks for something private. */
  lemma EveryRunIsBounded(env: Env, candidates: seq<Candidate>, turn: Turn)
    requires env.enabled != {}
    ensures var (s, ending) := RunOf(env, candidates, turn);
            && Conversation(env, candidates, s) && ShownWell(Showing(env), s.steps) && |s.steps| <= 8
            && (ending.Exhausted? <==> |s.steps| == 8 && s.pending != [])
            && EndsWell(env, Showing(env), turn, s, ending)
  {
    var s := Begin(env, candidates, turn);
    ConverseKeepsConversation(env, Showing(env), candidates, s);
    ConverseEndsWell(env, Showing(env), turn, s);
    ConverseShowsWell(env, Showing(env), s);
  }

  // ------------------------------------------------------- what the model is shown

  /** What the model is told of an internal call: why it was not run, or exactly what the
      executor answered for this round and place. */
  ghost predicate Tells(env: Env, c: Candidate, round: nat, index: nat, b: Block) {
    && b.ToolResult?
    && b.callId == (if c.id != "" then c.id else "interop_no_id_" + Decimal(round) + "_" + Decimal(index))
    && if c.name !in env.enabled then
         b.isError
         && b.content == "[Interop internal error for " + c.name + "]: " + "tool is not enabled for this request"
       else match env.parse(c)
         case Malformed(why) => b.isError && b.content == "[Interop internal error for " + c.name + "]: " + why
         case Arguments(text) =>
           && b.content == env.execute(round, index, c.name, text).text
           && b.isError == env.execute(round, index, c.name, text).isError
  }

  /** The call as the model is shown it, under the id of its result. */
  ghost predicate ShownAs(env: Env, c: Candidate, b: Block, id: string) {
    && b.Call? && b.id == id && b.name == c.name
    && b.arguments == match env.parse(c) { case Arguments(text) => text case Malformed(_) => "{}" }
  }

  lemma ResultTells(env: Env, c: Candidate, round: nat, index: nat)
    ensures Tells(env, c, round, index, ResultOf(env, c, round, index))
    ensures ShownAs(env, c, CallOf(env, c, round, index), ResultOf(env, c, round, index).callId)
  {
  }

  /** An enabled call stands behind the enabled calls before it. */
  lemma {:induction false} EnabledCallAt(env: Env, pending: seq<Candidate>, round: nat, n: nat, i: nat)
    requires i < n <= |pending| && pending[i].name in env.enabled
    ensures EnabledTo(env, pending, i) < EnabledTo(env, pending, n)
    ensures CallsTo(env, pending, round, n)[EnabledTo(env, pending, i)] == CallOf(env, pending[i], round, i)
  {
    if i < n - 1 {
      EnabledCallAt(env, pending, round, n - 1, i);
    }
  }

  /** One result for each pending call, in order, and the enabled calls, in order. */
  ghost predicate TellsRound(env: Env, pending: seq<Candidate>, round: nat, calls: seq<Block>, results: seq<Block>) {
    && |results| == |pending| && |calls| == EnabledTo(env, pending, |pending|)
    && (forall i :: 0 <= i < |pending| ==> Tells(env, pending[i], round, i, results[i]))
    && (forall i :: 0 <= i < |pending| && pending[i].name in env.enabled ==>
          EnabledTo(env, pending, i) < |calls| && results[i].ToolResult?
          && ShownAs(env, pending[i], calls[EnabledTo(env, pending, i)], results[i].callId))
  }

  lemma RoundTells(env: Env, pending: seq<Candidate>, round: nat)
    ensures TellsRound(env, pending, round, Calls(env, pending, round), Results(env, pending, round))
  {
    var (calls, results) := (Calls(env, pending, round), Results(env, pending, round));
    forall i | 0 <= i < |pending|
      ensures Tells(env, pending[i], round, i, results[i]) && results[i].ToolResult?
      ensures pending[i].name in env.enabled ==>
                EnabledTo(env, pending, i) < |calls|
                && ShownAs(env, pending[i], calls[EnabledTo(env, pending, i)], results[i].callId)
    {
      ResultAt(env, pending, round, |pending|, i);
      ResultTells(env, pending[i], round, i);
      if pending[i].name in env.enabled {
        EnabledCallAt(env, pending, round, |pending|, i);
      }
    }
  }

  lemma StepOfRun(env: Env, candidates: seq<Candidate>, turn: Turn, k: nat)
    requires k < |RunOf(env, candidates, turn).0.steps|
    ensures env.messages.Some?
    ensures var step := RunOf(env, candidates, turn).0.steps[k];
            && step.pending != [] && step.shown == Shown(env, step.pending, k + 1)
            && step.response == env.model(k + 1, step.shown) && !step.response.failed
  {
    RunIsLinked(env, candidates, turn);
    assert StepHolds(env, RunOf(env, candidates, turn).0.steps[k], k + 1);
  }

  lemma RunIsLinked(env: Env, candidates: seq<Candidate>, turn: Turn)
    ensures var steps := RunOf(env, candidates, turn).0.steps;
            Linked(env, candidates, steps) && ShownWell(Showing(env), steps)
  {
    if env.enabled != {} {
      EveryRunIsBounded(env, candidates, turn);
    }
  }

  lemma ShownIs(env: Env, pending: seq<Candidate>, round: nat)
    requires env.messages.Some? && pending != []
    ensures var (m, shown) := (env.messages.value, Shown(env, pending, round));
            && |shown| == |m| + 2 && shown[..|m|] == m
            && shown[|m|] == Message("assistant", Calls(env, pending, round))
            && shown[|m| + 1] == Message("tool", Results(env, pending, round))
  {
  }

  /** Every round of every run shows the model the original messages, then the round's enabled
      calls, each with its parsed arguments, then one result for each pending call, in
      order, with what the executor answered for it. */
  lemma RoundIsShown(env: Env, candidates: seq<Candidate>, turn: Turn, k: nat)
    requires k < |RunOf(env, candidates, turn).0.steps|
    ensures env.messages.Some?
    ensures var (step, m) := (RunOf(env, candidates, turn).0.steps[k], env.messages.value);
            && |step.shown| == |m| + 2 && step.shown[..|m|] == m
            && step.shown[|m|].role == "assistant" && step.shown[|m| + 1].role == "tool"
            && TellsRound(env, step.pending, k + 1, step.shown[|m|].content, step.shown[|m| + 1].content)
            && step.response == env.model(k + 1, step.shown) && !step.response.failed
  {
    StepOfRun(env, candidates, turn, k);
    var step := RunOf(env, candidates, turn).0.steps[k];
    ShownIs(env, step.pending, k + 1);
    RoundTells(env, step.pending, k + 1);
  }

  /** The first round answers what the run was started with, each later one exactly the
      enabled calls the model asked for in the round before. */
  lemma RoundsFollow(env: Env, candidates: seq<Candidate>, turn: Turn, k: nat)
    requires k < |RunOf(env, candidates, turn).0.steps|
    ensures var steps := RunOf(env, candidates, turn).0.steps;
            if k == 0 then steps[k].pending == candidates
            else forall c :: c in steps[k].pending <==> c in env.extract(steps[k - 1].response.turn) && c.name in env.enabled
  {
    EveryRunIsBounded(env, candidates, turn);
    if k > 0 {
      AskedAreEnabled(env.enabled, env.extract(RunOf(env, candidates, turn).0.steps[k - 1].response.turn));
    }
  }

  /** Only the calls the run starts with may leave a round unmatched: from the second round
      on, every call the model is shown has its result, in order and under its id. */
  lemma RoundsMatchIff(env: Env, candidates: seq<Candidate>, turn: Turn, k: nat)
    requires env.enabled != {}
    requires k < |RunOf(env, candidates, turn).0.steps|
    ensures var pending := RunOf(env, candidates, turn).0.steps[k].pending;
            OneToOne(Calls(env, pending, k + 1), Results(env, pending, k + 1))
            <==> (k > 0 || AllEnabled(env, candidates))
  {
    EveryRunIsBounded(env, candidates, turn);
    var s := RunOf(env, candidates, turn).0;
    IdsMatchIff(env, s.steps[k].pending, k + 1);
    if k > 0 {
      AskedAreEnabled(env.enabled, env.extract(s.steps[k - 1].response.turn));
    }
  }

  /** A run that starts with nothing but enabled calls, as its callers see to, shows matching
      calls and results in every round. */
  lemma EnabledRoundsMatch(env: Env, cs: seq<Candidate>, turn: Turn, k: nat)
    requires k < |RunOf(env, Asked(env.enabled, cs), turn).0.steps|
    ensures var pending := RunOf(env, Asked(env.enabled, cs), turn).0.steps[k].pending;
            OneToOne(Calls(env, pending, k + 1), Results(env, pending, k + 1))
  {
    var candidates := Asked(env.enabled, cs);
    AskedAreEnabled(env.enabled, cs);
    assert forall i :: 0 <= i < |candidates| ==> candidates[i] in candidates;
    RoundsMatchIff(env, candidates, turn, k);
  }

  /** A run whose first round shows the model a result without its call: it starts with a
      call that is not enabled, and the model then asks for nothing more. */
  lemma FirstRoundCanBeUnmatched()
    ensures var answer := Response(false, Turn([], "end_turn", []));
            var env := Env({"__interop_read_result"}, Some([]), false, {}, c => Arguments("{}"),
                           (round, index, name, arguments) => Output("", false, ""), round => true,
                           (round, messages) => answer, turn => []);
            var pending := [Candidate("1", "__interop_recall_history", "{}")];
            var (s, ending) := RunOf(env, pending, Turn([], "", []));
            && |s.steps| == 1 && s.steps[0].pending == pending && ending.Public?
            && !OneToOne(Calls(env, pending, 1), Results(env, pending, 1))
  {
    var answer := Response(false, Turn([], "end_turn", []));
    var env := Env({"__interop_read_result"}, Some([]), false, {}, c => Arguments("{}"),
                   (round, index, name, arguments) => Output("", false, ""), round => true,
                   (round, messages) => answer, turn => []);
    var pending := [Candidate("1", "__interop_recall_history", "{}")];
    var s := Begin(env, pending, Turn([], "", []));
    var (s', ending) := Round(env, Showing(env), s);
    assert s'.pending == [] && s'.steps == [ModelStep(pending, Showing(env)(pending, 1), answer)];
    assert Converse(env, Showing(env), s') == (s', Public(Firewalled(env, s')));
    RoundsMatchIff(env, pending, Turn([], "", []), 0);
  }

  /** Nothing private of any round of the run is in a turn that is handed back. */
  ghost predicate NothingPrivate(env: Env, steps: seq<ModelStep>, turn: Turn) {
    && (forall c :: c in turn.candidates ==> c.name !in env.enabled)
    && forall i :: 0 <= i < |turn.content| ==>
         match turn.content[i]
         case Text(text) => FreeOfRefs(env, steps, text)
         case Call(_, name, _) => name !in env.enabled && !Reserved(name)
         case ToolResult(callId, content, _) =>
           FreeOfRefs(env, steps, content)
           && forall k :: 0 <= k < |steps| ==> callId !in RoundIds(steps[k].pending, k + 1)
         case Media(_) => true
  }

  ghost predicate FreeOfRefs(env: Env, steps: seq<ModelStep>, text: string) {
    && (forall ref :: ref in env.pinned ==> !Contains(text, ref))
    && forall k, ref :: 0 <= k < |steps| && ref in RoundRefs(env, steps[k].pending, k + 1) ==> !Contains(text, ref)
  }

  lemma NotMentioned(env: Env, first: seq<Candidate>, s: State, text: string)
    requires Conversation(env, first, s) && !Mentions(text, s.refs)
    ensures FreeOfRefs(env, s.steps, text)
  {
    forall k, ref | 0 <= k < |s.steps| && ref in RoundRefs(env, s.steps[k].pending, k + 1)
      ensures !Contains(text, ref)
    {
      assert StepKnown(env, s.steps[k], k + 1, s.ids, s.refs);
    }
  }

  /** A turn that is handed back holds nothing private of any round, asks for nothing
      private, passes the leak assertion, and is the model's last turn with its private
      blocks removed. */
  lemma ReturnedTurnIsPublic(env: Env, candidates: seq<Candidate>, turn: Turn)
    requires RunOf(env, candidates, turn).1.Public?
    ensures var (s, ending) := RunOf(env, candidates, turn);
            && NothingPrivate(env, s.steps, ending.turn)
            && Passes(ending.turn.content, Some(IdentityOf(env, s)))
            && (s.steps != [] ==> AskedBy(env, s.steps[|s.steps| - 1]) == [])
            && ending.turn.content ==
                 Firewall.Public(if s.steps == [] then turn.content else s.steps[|s.steps| - 1].response.turn.content,
                                 Some(IdentityOf(env, s)))
  {
    EveryRunIsBounded(env, candidates, turn);
    var (s, ending) := RunOf(env, candidates, turn);
    var identity := IdentityOf(env, s);
    FilteredPassesIff(s.turn.content, Some(identity));
    AskedAreEnabled(env.enabled, s.turn.candidates);
    var content := ending.turn.content;
    forall i | 0 <= i < |content|
      ensures match content[i]
              case Text(text) => FreeOfRefs(env, s.steps, text)
              case Call(_, name, _) => name !in env.enabled && !Reserved(name)
              case ToolResult(callId, text, _) =>
                FreeOfRefs(env, s.steps, text)
                && forall k :: 0 <= k < |s.steps| ==> callId !in RoundIds(s.steps[k].pending, k + 1)
              case Media(_) => true
    {
      assert !Refused(content[i], Some(identity));
      match content[i] {
        case Text(text) => NotMentioned(env, candidates, s, text);
        case Call(_, _, _) =>
        case ToolResult(callId, text, _) =>
          NotMentioned(env, candidates, s, text);
          forall k | 0 <= k < |s.steps| ensures callId !in RoundIds(s.steps[k].pending, k + 1) {
            assert StepKnown(env, s.steps[k], k + 1, s.ids, s.refs);
          }
        case Media(_) =>
      }
    }
  }

  /** A run that has something to answer hands back the model's last turn, without its private
      blocks and without the candidates that are enabled. */
  lemma ReturnedIsLastTurn(env: Env, candidates: seq<Candidate>, turn: Turn)
    requires candidates != [] && RunOf(env, candidates, turn).1.Public?
    ensures var (s, ending) := RunOf(env, candidates, turn);
            s.steps != [] &&
            var last := s.steps[|s.steps| - 1].response.turn;
            && ending.turn.candidates == Unasked(env.enabled, last.candidates)
            && ending.turn.content == Firewall.Public(last.content, Some(IdentityOf(env, s)))
  {
    EveryRunIsBounded(env, candidates, turn);
  }

  lemma {:induction false} ResultIdsAreKnown(env: Env, pending: seq<Candidate>, round: nat, n: nat)
    requires n <= |pending|
    ensures forall told :: told in ResultsTo(env, pending, round, n) ==>
              told.ToolResult? && told.callId in IdsTo(pending, round, n)
  {
    if n > 0 {
      ResultIdsAreKnown(env, pending, round, n - 1);
    }
  }

  lemma {:induction false} RefsInclude(env: Env, pending: seq<Candidate>, round: nat, n: nat, i: nat)
    requires i < n <= |pending|
    ensures Minted(env, pending[i], round, i) <= RefsTo(env, pending, round, n)
  {
    if i < n - 1 {
      RefsInclude(env, pending, round, n - 1, i);
    }
  }

  /** The executor ran this call and minted a reference for it. */
  ghost predicate Mints(env: Env, c: Candidate, round: nat, index: nat, ref: string) {
    && env.registry && c.name in env.enabled && env.parse(c).Arguments?
    && var o := env.execute(round, index, c.name, env.parse(c).text);
       o.ref == ref != "" && !o.isError
  }

  /** The references of a round are exactly those the executor minted in it. */
  lemma {:induction false} RefsAreMinted(env: Env, pending: seq<Candidate>, round: nat, n: nat, ref: string)
    requires n <= |pending|
    ensures ref in RefsTo(env, pending, round, n) <==> exists i :: 0 <= i < n && Mints(env, pending[i], round, i, ref)
  {
    if n > 0 {
      RefsAreMinted(env, pending, round, n - 1, ref);
    }
  }

  /** No result the model was shown in any round is in a turn that is handed back: no result
      there stands under the id of one. */
  lemma NoShownResultComesBack(env: Env, candidates: seq<Candidate>, turn: Turn, k: nat)
    requires RunOf(env, candidates, turn).1.Public? && k < |RunOf(env, candidates, turn).0.steps|
    ensures env.messages.Some? && |RunOf(env, candidates, turn).0.steps[k].shown| == |env.messages.value| + 2
    ensures var (s, ending) := RunOf(env, candidates, turn);
            var results := s.steps[k].shown[|env.messages.value| + 1].content;
            forall j, told :: 0 <= j < |ending.turn.content| && told in results && ending.turn.content[j].ToolResult? ==>
              told.ToolResult? && ending.turn.content[j].callId != told.callId
  {
    ReturnedTurnIsPublic(env, candidates, turn);
    StepOfRun(env, candidates, turn, k);
    var step := RunOf(env, candidates, turn).0.steps[k];
    ShownIs(env, step.pending, k + 1);
    ResultIdsAreKnown(env, step.pending, k + 1, |step.pending|);
  }

  /** And no text or result there mentions a reference the executor minted in any round. */
  lemma NoMintedRefComesBack(env: Env, candidates: seq<Candidate>, turn: Turn, k: nat, i: nat, ref: string)
    requires RunOf(env, candidates, turn).1.Public? && k < |RunOf(env, candidates, turn).0.steps|
    requires i < |RunOf(env, candidates, turn).0.steps[k].pending|
    requires Mints(env, RunOf(env, candidates, turn).0.steps[k].pending[i], k + 1, i, ref)
    ensures forall j :: 0 <= j < |RunOf(env, candidates, turn).1.turn.content| ==>
              var b := RunOf(env, candidates, turn).1.turn.content[j];
              (b.Text? ==> !Contains(b.text, ref)) && (b.ToolResult? ==> !Contains(b.content, ref))
  {
    ReturnedTurnIsPublic(env, candidates, turn);
    var steps := RunOf(env, candidates, turn).0.steps;
    RefsInclude(env, steps[k].pending, k + 1, |steps[k].pending|, i);
    FreeOfRoundRef(env, steps, RunOf(env, candidates, turn).1.turn, k, ref);
  }

  lemma FreeOfRoundRef(env: Env, steps: seq<ModelStep>, turn: Turn, k: nat, ref: string)
    requires NothingPrivate(env, steps, turn) && k < |steps| && ref in RoundRefs(env, steps[k].pending, k + 1)
    ensures forall j :: 0 <= j < |turn.content| ==>
              var b := turn.content[j];
              (b.Text? ==> !Contains(b.text, ref)) && (b.ToolResult? ==> !Contains(b.content, ref))
  {
  }

  // -------------------------------------------------------------- the loops

  /** One internal call: its result, the call as the model is shown it, and what it mints. */
  method AnswerOne(env: Env, c: Candidate, round: nat, index: nat, callId: string)
    returns (call: Option<Block>, result: Block, minted: set<string>)
    requires callId == CallId(c, round, index)
    ensures result == ResultOf(env, c, round, index) && minted == Minted(env, c, round, index)
    ensures call == if c.name in env.enabled then Some(CallOf(env, c, round, index)) else None
  {
    minted := {};
    if c.name !in env.enabled {
      return None, ToolResult(callId, NotEnabled(c.name), true), {};
    }
    match env.parse(c) {
      case Malformed(why) =>
        result := ToolResult(callId, InternalError(c.name, why), true);
        call := Some(Call(callId, c.name, "{}"));
      case Arguments(text) =>
        var o := env.execute(round, index, c.name, text);
        if o.ref != "" && !o.isError && env.registry {
          minted := {o.ref};
        }
        result := ToolResult(callId, o.text, o.isError);
        call := Some(Call(callId, c.name, text));
    }
  }

  lemma UnionAssociates<T>(a: set<T>, b: set<T>, c: set<T>)
    ensures a + b + c == a + (b + c)
  {
  }

  /** The internal calls of one round, answered one by one. */
  method AnswerPending(env: Env, pending: seq<Candidate>, round: nat, ids0: set<string>, refs0: set<string>)
    returns (calls: seq<Block>, results: seq<Block>, ids: set<string>, refs: set<string>)
    ensures calls == Calls(env, pending, round) && results == Results(env, pending, round)
    ensures ids == ids0 + RoundIds(pending, round) && refs == refs0 + RoundRefs(env, pending, round)
  {
    calls, results, ids, refs := [], [], ids0, refs0;
    for i := 0 to |pending|
      invariant calls == CallsTo(env, pending, round, i) && results == ResultsTo(env, pending, round, i)
      invariant ids == ids0 + IdsTo(pending, round, i) && refs == refs0 + RefsTo(env, pending, round, i)
    {
      var callId := CallId(pending[i], round, |results|);
      UnionAssociates(ids0, IdsTo(pending, round, i), {callId});
      ids := ids + {callId};
      var call, result, minted := AnswerOne(env, pending[i], round, i, callId);
      UnionAssociates(refs0, RefsTo(env, pending, round, i), minted);
      results := results + [result];
      refs := refs + minted;
      if call.Some? {
        calls := calls + [call.value];
      }
    }
  }

  /** One iteration of the loop. */
  method RunRound(env: Env, s: State) returns (s': State, ending: Option<Ending>)
    ensures (s', ending) == Round(env, Showing(env), s)
  {
    var round := |s.steps| + 1;
    var calls, results, ids, refs := AnswerPending(env, s.pending, round, s.ids, s.refs);
    s' := s.(ids := ids, refs := refs);
    if env.messages.None? {
      return s', Some(NoRequest);
    }
    var shown := Continuation(env.messages.value, calls, results);
    if !env.allowed(round) {
      return s', Some(Denied);
    }
    var response := env.model(round, shown);
    if response.failed {
      return s', Some(StepFailed);
    }
    var next := Asked(env.enabled, env.extract(response.turn));
    s' := s'.(pending := next, turn := if next == [] then response.turn else s.turn,
              steps := s.steps + [ModelStep(s.pending, shown, response)]);
    ending := None;
  }

  /** `PrivateContinuationLoop.run` */
  method Run(env: Env, candidates: seq<Candidate>, decoded: Turn) returns (ending: Ending, steps: seq<ModelStep>)
    ensures steps == RunOf(env, candidates, decoded).0.steps && ending == RunOf(env, candidates, decoded).1
  {
    if env.enabled == {} {
      return NothingEnabled, [];
    }
    var s := Begin(env, candidates, decoded);
    var generations := 0;
    while s.pending != []
      invariant generations == |s.steps| <= MAX_DEPTH
      invariant Converse(env, Showing(env), s) == RunOf(env, candidates, decoded)
      decreases MAX_DEPTH - generations
    {
      generations := generations + 1;
      if generations > MAX_DEPTH {
        break;
      }
      var s', cut := RunRound(env, s);
      if cut.Some? {
        return cut.value, s'.steps;
      }
      s := s';
    }
    steps := s.steps;
    if s.pending != [] {
      return Exhausted, steps;
    }
    var content := FilterPublicBlocks(s.turn.content, Some(IdentityOf(env, s)));
    ending := Public(s.turn.(content := content, candidates := Unasked(env.enabled, s.turn.candidates)));
  }
}
