/** How a backend cuts its output into frames, text deltas and fragments does not matter:
    the same output cut differently is the same stream. */
module StreamChunks {
  import opened StreamAccumulator
  import opened StreamEngine
  import opened Wrappers

  // ------------------------------------------------------ the same, uncut

  /** Two neighbouring events that are pieces of one. */
  function Fuse(a: Decoded, b: Decoded): Option<Decoded> {
    match (a, b)
    case (TextDelta(s), TextDelta(t)) => Some(TextDelta(s + t))
    case (Fragment(key, id, name, arguments), Fragment(key', id', name', arguments')) =>
      if key != key' then None
      else Some(Fragment(key, if id == "" then id' else id, name + name', arguments + arguments'))
    case _ => None
  }

  function Add(es: seq<Decoded>, e: Decoded): seq<Decoded> {
    if es != [] && Fuse(es[|es| - 1], e).Some? then es[..|es| - 1] + [Fuse(es[|es| - 1], e).value]
    else es + [e]
  }

  /** The events with all neighbouring pieces put together. */
  function Uncut(es: seq<Decoded>): seq<Decoded> {
    if es == [] then [] else Add(Uncut(es[..|es| - 1]), es[|es| - 1])
  }

  /** The events of the frames from the i-th on, up to the one that completes the stream. */
  function Flat(fs: seq<Frame>, i: nat): seq<Decoded>
    requires i <= |fs|
    requires forall k :: 0 <= k < |fs| ==> fs[k].Frame?
    decreases |fs| - i
  {
    if i == |fs| then [] else if fs[i].last then fs[i].events else fs[i].events + Flat(fs, i + 1)
  }

  /** Frames that all decode, to events other than backend errors. */
  ghost predicate Clean(fs: seq<Frame>) {
    forall k :: 0 <= k < |fs| ==>
      fs[k].Frame? && forall j :: 0 <= j < |fs[k].events| ==> !fs[k].events[j].StreamError?
  }

  /** The same output, cut differently. */
  ghost predicate Recut(fs: seq<Frame>, gs: seq<Frame>) {
    Clean(fs) && Clean(gs) && Uncut(Flat(fs, 0)) == Uncut(Flat(gs, 0))
  }

  // --------------------------------------------------- the same to a client

  function Push(log: seq<Emission>, x: Emission): seq<Emission> {
    if log != [] && log[|log| - 1].event.Text? && x.event.Text? && log[|log| - 1].record == x.record then
      log[..|log| - 1] + [Emission(Text(log[|log| - 1].event.partial + x.event.partial), x.record)]
    else log + [x]
  }

  /** The log with neighbouring texts put together. */
  function Condensed(log: seq<Emission>): seq<Emission> {
    if log == [] then [] else Push(Condensed(log[..|log| - 1]), log[|log| - 1])
  }

  /** The same to a client: the very same events when text is held back, otherwise the same
      events once neighbouring texts are put together; the same record, reservation and
      status in any case. */
  ghost predicate Alike(env: Env, a: Out, b: Out) {
    && a.record == b.record && a.fate == b.fate && a.status == b.status
    && if env.buffered then a.log == b.log else Condensed(a.log) == Condensed(b.log)
  }

  ghost predicate Same(env: Env, s: State, t: State) {
    Alike(env, s.out, t.out) && (s.out.status.Running? ==> s.turn == t.turn)
  }

  // ------------------------------------------------ one event after another

  function Step(env: Env, s: State, e: Decoded): State {
    if s.out.status.Running? then HandleEvent(env, s, e) else s
  }

  function Fold(env: Env, s: State, es: seq<Decoded>): State
    decreases |es|
  {
    if es == [] then s else Step(env, Fold(env, s, es[..|es| - 1]), es[|es| - 1])
  }

  lemma FoldThen(env: Env, s: State, es: seq<Decoded>, e: Decoded)
    ensures Fold(env, s, es + [e]) == Step(env, Fold(env, s, es), e)
  {
    assert (es + [e])[..|es|] == es;
  }

  lemma {:induction false} FoldBoth(env: Env, s: State, es: seq<Decoded>, more: seq<Decoded>)
    ensures Fold(env, s, es + more) == Fold(env, Fold(env, s, es), more)
    decreases |more|
  {
    if more == [] {
      assert es + more == es;
    } else {
      var (less, last) := (more[..|more| - 1], more[|more| - 1]);
      assert es + more == (es + less) + [last];
      FoldThen(env, s, es + less, last);
      FoldBoth(env, s, es, less);
    }
  }

  lemma {:induction false} StoppedStays(env: Env, s: State, es: seq<Decoded>)
    requires !s.out.status.Running?
    ensures Fold(env, s, es) == s
    decreases |es|
  {
    if es != [] {
      StoppedStays(env, s, es[..|es| - 1]);
    }
  }

  lemma {:induction false} LoopIsFold(env: Env, s: State, es: seq<Decoded>, i: nat)
    requires i <= |es|
    ensures HandleEvents(env, s, es, i) == Fold(env, s, es[i..])
    decreases |es| - i
  {
    if i < |es| {
      assert es[i..] == [es[i]] + es[i + 1..];
      FoldBoth(env, s, [es[i]], es[i + 1..]);
      FoldThen(env, s, [], es[i]);
      assert [] + [es[i]] == [es[i]];
      LoopIsFold(env, Step(env, s, es[i]), es, i + 1);
      if !s.out.status.Running? {
        StoppedStays(env, s, es[i..]);
      }
    }
  }

  lemma {:induction false} NoErrorNoFailure(env: Env, s: State, es: seq<Decoded>)
    requires !s.turn.failed && forall j :: 0 <= j < |es| ==> !es[j].StreamError?
    ensures !Fold(env, s, es).turn.failed
    decreases |es|
  {
    if es != [] {
      NoErrorNoFailure(env, s, es[..|es| - 1]);
    }
  }

  /** Frame boundaries do not matter. */
  lemma {:induction false} FramesAreFlat(env: Env, s: State, fs: seq<Frame>, i: nat)
    requires i <= |fs| && Clean(fs) && !s.turn.failed
    ensures HandleFrames(env, s, fs, i) == Fold(env, s, Flat(fs, i))
    decreases |fs| - i
  {
    if !s.out.status.Running? {
      StoppedStays(env, s, Flat(fs, i));
    } else if i < |fs| {
      var es := fs[i].events;
      LoopIsFold(env, s, es, 0);
      assert es[0..] == es;
      NoErrorNoFailure(env, s, es);
      if !fs[i].last {
        FramesAreFlat(env, Fold(env, s, es), fs, i + 1);
        FoldBoth(env, s, es, Flat(fs, i + 1));
      }
    }
  }

  // ------------------------------------------------------ pieces of one event

  lemma CondensedThen(log: seq<Emission>, x: Emission)
    ensures Condensed(log + [x]) == Push(Condensed(log), x)
  {
    assert (log + [x])[..|log|] == log;
  }

  lemma SayAlike(env: Env, a: Out, b: Out, e: Event)
    requires Alike(env, a, b)
    ensures Alike(env, Say(a, e), Say(b, e))
  {
    CondensedThen(a.log, Emission(e, a.record));
    CondensedThen(b.log, Emission(e, b.record));
  }

  lemma AbortAlike(env: Env, a: Out, b: Out, code: Code, stop: Option<Stop>)
    requires Alike(env, a, b)
    ensures Alike(env, Abort(a, code, stop), Abort(b, code, stop))
  {
    SayAlike(env, FinalizeError(a), FinalizeError(b), Error(code));
    SayAlike(env, Say(FinalizeError(a), Error(code)), Say(FinalizeError(b), Error(code)), MessageStop(stop));
  }

  lemma StepSame(env: Env, s: State, t: State, e: Decoded)
    requires Same(env, s, t)
    ensures Same(env, Step(env, s, e), Step(env, t, e))
  {
    if s.out.status.Running? {
      match e {
        case TextDelta(text) => SayAlike(env, s.out, t.out, Text(text));
        case Fragment(_, _, _, _) => AbortAlike(env, s.out, t.out, CallLimit, None);
        case _ =>
      }
    }
  }

  lemma PushTwice(c: seq<Emission>, a: string, b: string, r: Record)
    ensures Push(Push(c, Emission(Text(a), r)), Emission(Text(b), r)) == Push(c, Emission(Text(a + b), r))
  {
    var x := Emission(Text(a), r);
    if c != [] && c[|c| - 1].event.Text? && c[|c| - 1].record == r {
      var (head, t) := (c[..|c| - 1], c[|c| - 1].event.partial);
      var p := head + [Emission(Text(t + a), r)];
      assert Push(c, x) == p && p[..|p| - 1] == head;
      assert (t + a) + b == t + (a + b);
    } else {
      assert Push(c, x) == c + [x] && (c + [x])[..|c|] == c;
    }
  }

  lemma TextsFuse(log: seq<Emission>, a: string, b: string, r: Record)
    ensures Condensed(log + [Emission(Text(a), r)] + [Emission(Text(b), r)]) == Condensed(log + [Emission(Text(a + b), r)])
  {
    CondensedThen(log, Emission(Text(a), r));
    CondensedThen(log + [Emission(Text(a), r)], Emission(Text(b), r));
    CondensedThen(log, Emission(Text(a + b), r));
    PushTwice(Condensed(log), a, b, r);
  }

  /** Two pieces handled one after the other are the whole handled at once. */
  lemma StepsFuse(env: Env, s: State, a: Decoded, b: Decoded)
    requires Fuse(a, b).Some?
    ensures Same(env, Step(env, Step(env, s, a), b), Step(env, s, Fuse(a, b).value))
  {
    if s.out.status.Running? {
      match a {
        case TextDelta(t) =>
          assert (s.turn.text + t) + b.text == s.turn.text + (t + b.text);
          TextsFuse(s.out.log, t, b.text, s.out.record);
        case Fragment(key, id, name, arguments) =>
          FragmentsMerge(env.limits, s.turn.acc, key, id, name, arguments, b.id, b.name, b.arguments);
        case _ =>
      }
    }
  }

  /** Putting the pieces together first makes no difference. */
  lemma {:induction false} UncutIsSame(env: Env, s: State, es: seq<Decoded>)
    ensures Same(env, Fold(env, s, es), Fold(env, s, Uncut(es)))
    decreases |es|
  {
    if es != [] {
      var (before, e) := (es[..|es| - 1], es[|es| - 1]);
      UncutIsSame(env, s, before);
      AddIsSame(env, s, Fold(env, s, before), Uncut(before), e);
    }
  }

  lemma AddIsSame(env: Env, s: State, t: State, us: seq<Decoded>, e: Decoded)
    requires Same(env, t, Fold(env, s, us))
    ensures Same(env, Step(env, t, e), Fold(env, s, Add(us, e)))
  {
    StepSame(env, t, Fold(env, s, us), e);
    if us != [] && Fuse(us[|us| - 1], e).Some? {
      var (head, last) := (us[..|us| - 1], us[|us| - 1]);
      assert us == head + [last];
      FoldThen(env, s, head, last);
      FoldThen(env, s, head, Fuse(last, e).value);
      StepsFuse(env, Fold(env, s, head), last, e);
    } else {
      FoldThen(env, s, us, e);
    }
  }

  // --------------------------------------------------------- the whole stream

  lemma {:induction false} SayAllAlike(env: Env, a: Out, b: Out, es: seq<Event>)
    requires Alike(env, a, b)
    ensures Alike(env, SayAll(a, es), SayAll(b, es))
    decreases |es|
  {
    if es != [] {
      SayAllAlike(env, a, b, es[..|es| - 1]);
      SayAlike(env, SayAll(a, es[..|es| - 1]), SayAll(b, es[..|es| - 1]), es[|es| - 1]);
    }
  }

  lemma StopAlike(env: Env, a: Out, b: Out, usage: Option<Usage>, stop: Stop)
    requires Alike(env, a, b)
    ensures var (x, y) := if usage.Some? then (Say(a, UsageUpdate(usage.value)), Say(b, UsageUpdate(usage.value))) else (a, b);
            Alike(env, Say(x, MessageStop(Some(stop))), Say(y, MessageStop(Some(stop))))
  {
    if usage.Some? {
      SayAlike(env, a, b, UsageUpdate(usage.value));
      SayAlike(env, Say(a, UsageUpdate(usage.value)), Say(b, UsageUpdate(usage.value)), MessageStop(Some(stop)));
    } else {
      SayAlike(env, a, b, MessageStop(Some(stop)));
    }
  }

  lemma CleanEndAlike(env: Env, a: Out, b: Out, turn: Turn, usage: Option<Usage>, called: bool)
    requires Alike(env, a, b)
    ensures Alike(env, CleanEnd(env, a, turn, usage, called), CleanEnd(env, b, turn, usage, called))
  {
    var fate := SettledBy(a.fate, usage);
    var (x, y) := (a.(fate := fate), b.(fate := fate));
    var (u, v) := (x.(record := Succeeded), y.(record := Succeeded));
    match env.bookkeeping {
      case EvidenceFails => AbortAlike(env, x, y, Internal, Some(InvalidOutput));
      case FinalizeFails => AbortAlike(env, u, v, Internal, Some(InvalidOutput));
      case Fine =>
        var stop := if called then ToolCalls else if turn.stop.Some? then turn.stop.value else EndTurn;
        StopAlike(env, u, v, usage, stop);
    }
  }

  lemma EmitAlike(env: Env, turn: Turn, plan: Plan, a: Out, b: Out)
    requires Alike(env, a, b) && plan.Emit?
    ensures Alike(env, Perform(env, turn, plan, a), Perform(env, turn, plan, b))
  {
    var es := TextEvents(plan.texts, |plan.texts|);
    var (x, y) := (SayAll(a, es), SayAll(b, es));
    SayAllAlike(env, a, b, es);
    if plan.batch.None? {
      CleanEndAlike(env, x, y, turn, plan.usage, false);
    } else {
      var d := plan.batch.value.decision;
      if Rejects(d) {
        AbortAlike(env, x, y, BatchRejected, Some(InvalidOutput));
      } else {
        var calls := CallEvents(d.blocks, |d.blocks|);
        SayAllAlike(env, x, y, calls);
        CleanEndAlike(env, SayAll(x, calls), SayAll(y, calls), turn, plan.usage, d.blocks != []);
      }
    }
  }

  lemma PerformAlike(env: Env, turn: Turn, plan: Plan, a: Out, b: Out)
    requires Alike(env, a, b)
    ensures Alike(env, Perform(env, turn, plan, a), Perform(env, turn, plan, b))
  {
    match plan {
      case Crash =>
      case FailPrivately => AbortAlike(env, a, b, PrivateFailed, Some(InvalidOutput));
      case Emit(_, _, _) => EmitAlike(env, turn, plan, a, b);
      case Relay(events, _) =>
        SayAllAlike(env, a, b, events);
        CleanEndAlike(env, SayAll(a, events), SayAll(b, events), turn, turn.usage, true);
    }
  }

  lemma ListenedSame(env: Env, fs: seq<Frame>, gs: seq<Frame>)
    requires Recut(fs, gs)
    ensures Same(env, Listened(env, fs), Listened(env, gs))
  {
    var start := State(NO_TURN, Opened(env));
    FramesAreFlat(env, start, fs, 0);
    FramesAreFlat(env, start, gs, 0);
    UncutIsSame(env, start, Flat(fs, 0));
    UncutIsSame(env, start, Flat(gs, 0));
  }

  /** The same output cut differently is the same stream to its client: event for event
      when text is held back, and up to where text is cut when it is not. This includes
      where a size limit ends the stream. */
  lemma RecutStreamsAreAlike(env: Env, fs: seq<Frame>, gs: seq<Frame>)
    requires Recut(fs, gs)
    ensures Alike(env, Stream(env, fs), Stream(env, gs))
  {
    ListenedSame(env, fs, gs);
    var (s, t) := (Listened(env, fs), Listened(env, gs));
    if s.out.status.Running? {
      PerformAlike(env, s.turn, PlanOf(env, s.turn), s.out, t.out);
    }
    AbortAlike(env, Engine(env, fs), Engine(env, gs), Internal, None);
  }
}
