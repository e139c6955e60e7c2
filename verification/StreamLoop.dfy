/** The stream engine's loops: the frames as they arrive, and the end of the turn, emitting
    as they go. */
module StreamLoop {
  import opened StreamAccumulator
  import opened PendingToolCalls
  import opened CandidateMerge
  import opened StreamEngine
  import opened ToolCalls
  import opened Wrappers

  // -------------------------------------------------------------- emitting

  lemma SayAllThen(out: Out, es: seq<Event>, e: Event)
    ensures SayAll(out, es + [e]) == Say(SayAll(out, es), e)
  {
    assert (es + [e])[..|es|] == es;
  }

  /** One text more to say, unless it is empty. */
  lemma NextText(start: Out, texts: seq<string>, i: nat)
    requires i < |texts|
    ensures SayAll(start, TextEvents(texts, i + 1)) ==
              if texts[i] == "" then SayAll(start, TextEvents(texts, i))
              else Say(SayAll(start, TextEvents(texts, i)), Text(texts[i]))
  {
    if texts[i] == "" {
      assert TextEvents(texts, i + 1) == TextEvents(texts, i);
    } else {
      SayAllThen(start, TextEvents(texts, i), Text(texts[i]));
    }
  }

  method EmitTexts(start: Out, texts: seq<string>) returns (out: Out)
    ensures out == SayAll(start, TextEvents(texts, |texts|))
  {
    out := start;
    for i := 0 to |texts|
      invariant out == SayAll(start, TextEvents(texts, i))
    {
      NextText(start, texts, i);
      if texts[i] != "" {
        out := Say(out, Text(texts[i]));
      }
    }
  }

  /** `_emit_batch_decision_events`; `rejected` is the coordinator's mark. */
  method EmitBatchDecision(env: Env, start: Out, d: Decision) returns (out: Out, rejected: bool, crash: bool)
    ensures crash == (Rejects(d) && env.rejectionErrorRaises) && rejected == (Rejects(d) && !crash)
    ensures out == if rejected then Abort(start, BatchRejected, Some(InvalidOutput))
                   else if crash then start.(status := Raised)
                   else SayAll(start, CallEvents(d.blocks, |d.blocks|))
  {
    if !d.accepted && |d.blocks| == 0 {
      if env.rejectionErrorRaises {
        return start.(status := Raised), false, true;
      }
      return Abort(start, BatchRejected, Some(InvalidOutput)), true, false;
    }
    rejected, crash := false, false;
    out := start;
    for i := 0 to |d.blocks|
      invariant out == SayAll(start, CallEvents(d.blocks, i))
    {
      SayAllThen(start, CallEvents(d.blocks, i), ToolUse(d.blocks[i]));
      out := Say(out, ToolUse(d.blocks[i]));
    }
  }

  method PendingToCandidates(calls: seq<Call>) returns (cs: seq<Candidate>)
    ensures cs == Candidates(calls, |calls|)
  {
    cs := [];
    for i := 0 to |calls|
      invariant cs == Candidates(calls, i)
    {
      if calls[i].completed && calls[i].name != "" {
        cs := cs + [Candidate(calls[i].id, calls[i].name, calls[i].arguments)];
      }
    }
  }

  // --------------------------------------------------------- the frame loop

  /** One decoded event. The accumulator holds the open calls; the rest of what the loop
      accumulates is passed along. */
  method Consume(env: Env, acc: PendingToolCallAccumulator, s: State, e: Decoded) returns (t: State)
    requires s.turn.acc == acc.View() && acc.limits == env.limits && s.out.status.Running?
    modifies acc
    ensures t.out == HandleEvent(env, s, e).out
    ensures t.out.status.Running? ==> t == HandleEvent(env, s, e) && t.turn.acc == acc.View()
  {
    t := s;
    match e {
      case TextDelta(text) =>
        if env.buffered {
          t := t.(turn := t.turn.(text := t.turn.text + text));
        } else {
          t := t.(out := Say(t.out, Text(text)));
        }
      case BatchComplete =>
        acc.CompleteAllPending();
      case CallComplete(key) =>
        acc.CompleteCall(key);
      case Fragment(key, id, name, arguments) =>
        var ok := acc.StartCall(key, id);
        if !ok {
          t := t.(out := t.out.(status := Raised));
          return;
        }
        StartedIsFound(env.limits, s.turn.acc, key, id);
        if name != "" {
          acc.FeedName(key, name);
        }
        if arguments != "" {
          FedIsFound(acc.limits, Start(env.limits, s.turn.acc, key, id).value, key, name);
          var fits := acc.FeedArguments(key, arguments);
          if !fits {
            t := t.(out := Abort(t.out, CallLimit, None));
            return;
          }
        }
      case UsageSeen(usage) =>
        t := t.(turn := t.turn.(usage := Some(usage)));
      case Complete(stop, usage) =>
        t := t.(turn := t.turn.(stop := stop));
        if usage.Some? {
          t := t.(turn := t.turn.(usage := usage));
        }
      case StreamError =>
        t := t.(turn := t.turn.(failed := true));
    }
    t := t.(turn := t.turn.(acc := acc.View()));
  }

  lemma StartedIsFound(limits: Limits, a: Acc, key: Key, id: string)
    requires Start(limits, a, key, id).Some?
    ensures var b := Start(limits, a, key, id).value;
            Find(b.pending, key) < |b.pending|
  {
    var i := Find(a.pending, key);
    if i == |a.pending| {
      FindStarted(a.pending, key, Call(key, id, "", "", false));
    } else {
      FindUpdated(a.pending, i, a.pending[i].(id := id));
    }
  }

  lemma FedIsFound(limits: Limits, b: Acc, key: Key, name: string)
    requires Find(b.pending, key) < |b.pending|
    ensures var named := if name == "" then Fed(b) else FeedName(limits, b, key, name);
            named.Fed? && Find(named.acc.pending, key) < |named.acc.pending|
  {
    var i := Find(b.pending, key);
    FindUpdated(b.pending, i, b.pending[i].(name := b.pending[i].name + name));
  }

  /** The frames, up to the last one or to whatever ends the stream. */
  method Listen(env: Env, fs: seq<Frame>, acc: PendingToolCallAccumulator) returns (s: State)
    requires acc.View() == Acc([], []) && acc.limits == env.limits
    modifies acc
    ensures s.out == Listened(env, fs).out
    ensures s.out.status.Running? ==> s == Listened(env, fs) && s.turn.acc == acc.View()
  {
    s := State(NO_TURN, Opened(env));
    var i := 0;
    while i < |fs| && s.out.status.Running?
      invariant i <= |fs|
      invariant s.out.status.Running? ==> HandleFrames(env, s, fs, i) == Listened(env, fs) && s.turn.acc == acc.View()
      invariant !s.out.status.Running? ==> s.out == Listened(env, fs).out
      decreases |fs| - i, 0
    {
      var before := s;
      match fs[i] {
        case Broken =>
          s := s.(out := s.out.(status := Raised));
        case Malformed =>
          var count := s.turn.malformed + 1;
          if acc.pending != [] {
            s := s.(out := Abort(s.out, MalformedFrame, None));
          } else if count > env.maxMalformed {
            s := s.(out := Abort(s.out, MalformedFrame, None));
          } else {
            s := s.(turn := s.turn.(malformed := count));
          }
        case Frame(events, last) =>
          s := ConsumeAll(env, acc, s, events);
          if s.out.status.Running? {
            if s.turn.failed {
              s := s.(out := Abort(s.out, BackendError, None));
            } else if last {
              return;
            }
          }
      }
      assert s.out == HandleFrame(env, before, fs[i]).out;
      assert s.out.status.Running? ==> s == HandleFrame(env, before, fs[i]);
      assert HandleFrames(env, before, fs, i) ==
               if fs[i].Frame? && fs[i].last then HandleFrame(env, before, fs[i])
               else HandleFrames(env, HandleFrame(env, before, fs[i]), fs, i + 1);
      i := i + 1;
    }
  }

  method ConsumeAll(env: Env, acc: PendingToolCallAccumulator, start: State, es: seq<Decoded>) returns (s: State)
    requires start.turn.acc == acc.View() && acc.limits == env.limits && start.out.status.Running?
    modifies acc
    ensures s.out == HandleEvents(env, start, es, 0).out
    ensures s.out.status.Running? ==> s == HandleEvents(env, start, es, 0) && s.turn.acc == acc.View()
  {
    s := start;
    for i := 0 to |es|
      invariant s.out.status.Running? && s.turn.acc == acc.View()
      invariant HandleEvents(env, s, es, i) == HandleEvents(env, start, es, 0)
    {
      s := Consume(env, acc, s, es[i]);
      if !s.out.status.Running? {
        return;
      }
    }
  }

  // ------------------------------------------------------ the end of the turn

  /** The end of a turn with text held back: both sources of calls in one batch. */
  method EndBuffered(env: Env, turn: Turn, native: seq<Candidate>, start: Out) returns (out: Out)
    ensures out == Perform(env, turn, BufferedPlan(env, turn, native), start)
  {
    out := start;
    var found := Extraction([], []);
    if turn.text != "" {
      var extracted := env.extract(turn.text);
      if extracted.None? {
        return out.(status := Raised);
      }
      found := extracted.value;
    }
    var merged := DedupToolCandidates(env.normal, native, found.candidates);
    var text, remaining, usage := turn.text, found.remaining, turn.usage;
    var internals := Asked(env.enabled, merged);
    if internals != [] {
      match env.continued(internals, turn.text) {
        case Fails =>
          return out.(status := Raised);
        case Terminal(error) =>
          if error {
            return Abort(out, PrivateFailed, Some(InvalidOutput));
          }
        case Final(content, candidates, spent) =>
          remaining := Texts(content, |content|);
          text := Join(remaining, |remaining|);
          var again := env.reextract(content, candidates);
          if again.None? {
            return out.(status := Raised);
          }
          merged := again.value;
          if spent.Some? {
            usage := spent;
          }
      }
    }
    assert BufferedPlan(env, turn, native) == BufferedEnd(env, text, remaining, merged, usage);
    out := FinishBuffered(env, turn, text, remaining, merged, usage, out);
  }

  /** The private calls are out of the way: decide the rest, or let the text go. */
  method FinishBuffered(env: Env, turn: Turn, text: string, remaining: seq<string>, merged: seq<Candidate>,
                        usage: Option<Usage>, start: Out) returns (out: Out)
    ensures out == Perform(env, turn, BufferedEnd(env, text, remaining, merged, usage), start)
  {
    var cs := Unasked(env.enabled, merged);
    if cs != [] {
      out := DecideAndEmit(env, turn, remaining, cs, usage, start);
    } else {
      out := EmitTexts(start, if text == "" then [] else [text]);
      out := CleanEnd(env, out, turn, usage, false);
    }
  }

  /** One decision on all candidates: text, then the decided calls, then the clean end. */
  method DecideAndEmit(env: Env, turn: Turn, texts: seq<string>, cs: seq<Candidate>, usage: Option<Usage>,
                       start: Out) returns (out: Out)
    ensures out == Perform(env, turn, Decided(env, texts, cs, usage), start)
  {
    out := start;
    var decision := env.decide(cs);
    if decision.None? {
      return out.(status := Raised);
    }
    out := EmitTexts(out, texts);
    var rejected, crash;
    out, rejected, crash := EmitBatchDecision(env, out, decision.value);
    if crash {
      return;
    }
    if env.safetyRecorderRaises {
      return out.(status := Raised);
    }
    if !rejected {
      out := CleanEnd(env, out, turn, usage, |decision.value.blocks| > 0);
    }
  }

  /** `_process_completed_stream_tools` and what follows it. */
  method EndNative(env: Env, turn: Turn, native: seq<Candidate>, start: Out) returns (out: Out)
    ensures out == Perform(env, turn, NativePlan(env, turn, native), start)
  {
    out := start;
    if native == [] {
      out := CleanEnd(env, out, turn, turn.usage, false);
      return;
    }
    var internals := Asked(env.enabled, native);
    if internals == [] {
      out := DecideAndEmit(env, turn, [], native, turn.usage, out);
      return;
    }
    match env.continued(internals, "") {
      case Fails =>
        return out.(status := Raised);
      case Terminal(_) =>
        return Abort(out, PrivateFailed, Some(InvalidOutput));
      case Final(content, candidates, _) =>
        var called, crash;
        out, called, crash := RelayTurn(env, out, content, candidates);
        if crash {
          return out.(status := Raised);
        }
        if !called {
          return out.(status := Ended);
        }
        out := CleanEnd(env, out, turn, turn.usage, true);
    }
  }

  method RelayTurn(env: Env, start: Out, content: seq<Part>, candidates: seq<Candidate>)
    returns (out: Out, called: bool, crash: bool)
    ensures var (calls, crashes) := Relayed(env, candidates, 0);
            var events := Parts(content, |content|) + calls;
            out == SayAll(start, events) && crash == crashes && called == AnyCall(events)
  {
    out, called := RelayParts(start, content);
    out, called, crash := RelayCalls(env, start, Parts(content, |content|), out, called, candidates);
  }

  method RelayParts(start: Out, content: seq<Part>) returns (out: Out, called: bool)
    ensures out == SayAll(start, Parts(content, |content|)) && called == AnyCall(Parts(content, |content|))
  {
    out := start;
    called := false;
    for i := 0 to |content|
      invariant out == SayAll(start, Parts(content, i)) && called == AnyCall(Parts(content, i))
    {
      ghost var events := Parts(content, i);
      match content[i] {
        case TextPart(text) =>
          if text != "" {
            SayAllThen(start, events, Text(text));
            CallAppended(events, Text(text));
            out := Say(out, Text(text));
          } else {
            assert Parts(content, i + 1) == events;
          }
        case CallPart(block) =>
          SayAllThen(start, events, ToolUse(block));
          CallAppended(events, ToolUse(block));
          out, called := Say(out, ToolUse(block)), true;
        case OtherPart =>
      }
    }
  }

  method RelayCalls(env: Env, ghost start: Out, ghost before: seq<Event>, said: Out, calledBefore: bool,
                    candidates: seq<Candidate>) returns (out: Out, called: bool, crash: bool)
    requires said == SayAll(start, before) && calledBefore == AnyCall(before)
    ensures var (calls, crashes) := Relayed(env, candidates, 0);
            out == SayAll(start, before + calls) && crash == crashes && called == AnyCall(before + calls)
  {
    out, called, crash := said, calledBefore, false;
    ghost var events := before;
    for i := 0 to |candidates|
      invariant out == SayAll(start, events) && called == AnyCall(events)
      invariant events + Relayed(env, candidates, i).0 == before + Relayed(env, candidates, 0).0
      invariant Relayed(env, candidates, i).1 == Relayed(env, candidates, 0).1
    {
      var parsed := if candidates[i].arguments == "" then Some("{}") else env.parse(candidates[i].arguments);
      if parsed.None? {
        crash := true;
        assert events + [] == events;
        return;
      }
      var e := ToolUse(Block(candidates[i].id, candidates[i].name, parsed.value));
      SayAllThen(start, events, e);
      CallAppended(events, e);
      assert events + ([e] + Relayed(env, candidates, i + 1).0) == (events + [e]) + Relayed(env, candidates, i + 1).0;
      out, called := Say(out, e), true;
      events := events + [e];
    }
    assert events + [] == events;
  }

  lemma CallAppended(es: seq<Event>, e: Event)
    ensures AnyCall(es + [e]) <==> AnyCall(es) || e.ToolUse?
  {
    if AnyCall(es) {
      var i :| 0 <= i < |es| && es[i].ToolUse?;
      assert (es + [e])[i].ToolUse?;
    }
    assert (es + [e])[|es|] == e;
  }

  /** `run_send_stream` */
  method RunSendStream(env: Env, fs: seq<Frame>) returns (out: Out)
    ensures out == Engine(env, fs)
  {
    var acc := new PendingToolCallAccumulator(env.limits);
    var s := Listen(env, fs, acc);
    if !s.out.status.Running? {
      return s.out;
    }
    acc.CompleteAllPending();
    var drained := acc.DrainCompleted();
    var native := PendingToCandidates(drained);
    if env.buffered {
      out := EndBuffered(env, s.turn, native, s.out);
    } else {
      out := EndNative(env, s.turn, native, s.out);
    }
  }
}
