/** What the accumulator of a stream looks like at the end of its turn, for every stream:
    one open call per key, everything within its limits, and calls in a definite order. */
module StreamTurns {
  import opened StreamAccumulator
  import opened StreamEngine
  import opened ToolCalls

  ghost predicate Kept(limits: Limits, a: Acc) { Distinct(a.pending) && Within(limits, a) }

  lemma {:induction false} CompleteAllKeeps(limits: Limits, a: Acc, ok: bool)
    requires Kept(limits, a)
    ensures Kept(limits, CompleteAll(a, ok))
    decreases |a.pending|
  {
    if a.pending != [] {
      var key := a.pending[LeastIndex(a.pending, |a.pending|)].key;
      CompleteStaysWithin(limits, a, key, ok);
      StepsStayDistinct(limits, a, key, "", "", "", ok);
      CompleteAllKeeps(limits, StreamAccumulator.Complete(a, key, ok), ok);
    }
  }

  lemma EventKeeps(env: Env, s: State, e: Decoded)
    requires Kept(env.limits, s.turn.acc)
    ensures Kept(env.limits, HandleEvent(env, s, e).turn.acc)
  {
    match e {
      case Fragment(key, id, name, arguments) =>
        StepsStayDistinct(env.limits, s.turn.acc, key, id, name, arguments, true);
        if Feed(env.limits, s.turn.acc, key, id, name, arguments).Fed? {
          FeedStaysWithin(env.limits, s.turn.acc, key, id, name, arguments);
        }
      case CallComplete(key) =>
        StepsStayDistinct(env.limits, s.turn.acc, key, "", "", "", true);
        CompleteStaysWithin(env.limits, s.turn.acc, key, true);
      case BatchComplete => CompleteAllKeeps(env.limits, s.turn.acc, true);
      case _ =>
    }
  }

  lemma {:induction false} EventsKeep(env: Env, s: State, es: seq<Decoded>, i: nat)
    requires i <= |es| && Kept(env.limits, s.turn.acc)
    ensures Kept(env.limits, HandleEvents(env, s, es, i).turn.acc)
    decreases |es| - i
  {
    if i < |es| && s.out.status.Running? {
      EventKeeps(env, s, es[i]);
      EventsKeep(env, HandleEvent(env, s, es[i]), es, i + 1);
    }
  }

  lemma FrameKeeps(env: Env, s: State, f: Frame)
    requires Kept(env.limits, s.turn.acc)
    ensures Kept(env.limits, HandleFrame(env, s, f).turn.acc)
  {
    match f {
      case Broken =>
      case Malformed => CompleteAllKeeps(env.limits, s.turn.acc, false);
      case Frame(events, _) => EventsKeep(env, s, events, 0);
    }
  }

  lemma {:induction false} FramesKeep(env: Env, s: State, fs: seq<Frame>, i: nat)
    requires i <= |fs| && Kept(env.limits, s.turn.acc)
    ensures Kept(env.limits, HandleFrames(env, s, fs, i).turn.acc)
    decreases |fs| - i
  {
    if i < |fs| && s.out.status.Running? {
      FrameKeeps(env, s, fs[i]);
      if !(fs[i].Frame? && fs[i].last) {
        FramesKeep(env, HandleFrame(env, s, fs[i]), fs, i + 1);
      }
    }
  }

  /** Whatever a backend sends, the accumulator has at most one open call per key and not
      more open calls than allowed, and no call of it has more argument bytes than allowed. */
  lemma EveryTurnIsWithinLimits(env: Env, fs: seq<Frame>)
    ensures Distinct(Listened(env, fs).turn.acc.pending) && Within(env.limits, Listened(env, fs).turn.acc)
  {
    FramesKeep(env, State(NO_TURN, Opened(env)), fs, 0);
  }

  // ------------------------------------------------------- the turn's candidates

  /** The calls that are drained at the end of the turn. */
  function Drained(turn: Turn): seq<Call> { CompleteAll(turn.acc, true).completed }

  /** The drained calls are those the stream completed, in the order it completed them, and
      behind them every call it left open, once, by choice and then by tool index. */
  lemma DrainedInOrder(env: Env, fs: seq<Frame>)
    ensures var (acc, drained) := (Listened(env, fs).turn.acc, Drained(Listened(env, fs).turn));
            var n := |acc.completed|;
            && |drained| == n + |acc.pending|
            && (forall j :: 0 <= j < n ==> drained[j] == acc.completed[j])
            && (forall j :: n <= j < |drained| ==> OpenIn(acc.pending, drained[j], true))
            && (forall j, k :: n <= j < k < |drained| ==>
                  var (a, b) := (drained[j].key, drained[k].key);
                  a.choice < b.choice || (a.choice == b.choice && a.tool < b.tool))
  {
    EveryTurnIsWithinLimits(env, fs);
    CompleteAllInOrder(Listened(env, fs).turn.acc, true);
  }

  /** Where the calls that become candidates stood among the first `n`. */
  function Positions(calls: seq<Call>, n: nat): (r: seq<nat>)
    requires n <= |calls|
    ensures forall i :: 0 <= i < |r| ==> r[i] < n && calls[r[i]].completed && calls[r[i]].name != ""
  {
    if n == 0 then []
    else if calls[n - 1].completed && calls[n - 1].name != "" then Positions(calls, n - 1) + [n - 1]
    else Positions(calls, n - 1)
  }

  function CandidateOf(c: Call): Candidate { Candidate(c.id, c.name, c.arguments) }

  lemma {:induction false} CandidatesStandAt(calls: seq<Call>, n: nat)
    requires n <= |calls|
    ensures var (r, cs) := (Positions(calls, n), Candidates(calls, n));
            && |r| == |cs|
            && (forall i :: 0 <= i < |r| ==> cs[i] == CandidateOf(calls[r[i]]))
            && (forall i, j :: 0 <= i < j < |r| ==> r[i] < r[j])
  {
    if n > 0 {
      CandidatesStandAt(calls, n - 1);
    }
  }

  lemma {:induction false} NamedCallsStand(calls: seq<Call>, n: nat, k: nat)
    requires k < n <= |calls| && calls[k].completed && calls[k].name != ""
    ensures k in Positions(calls, n)
  {
    if k < n - 1 {
      NamedCallsStand(calls, n - 1, k);
    }
  }

  /** The turn's native candidates are exactly the drained calls with a name, in their
      order, unchanged, and none has more argument bytes than allowed. */
  lemma TurnCandidates(env: Env, fs: seq<Frame>) returns (kept: seq<nat>)
    ensures var (drained, cs) := (Drained(Listened(env, fs).turn), NativeCalls(Listened(env, fs).turn));
            && |kept| == |cs|
            && (forall i, j :: 0 <= i < j < |kept| ==> kept[i] < kept[j])
            && (forall i :: 0 <= i < |kept| ==> kept[i] < |drained| && cs[i] == CandidateOf(drained[kept[i]]))
            && (forall k :: 0 <= k < |drained| && drained[k].completed && drained[k].name != "" ==> k in kept)
            && (forall i :: 0 <= i < |cs| ==>
                  cs[i].name != "" && (cs[i].arguments == "" || Bytes(cs[i].arguments) <= env.limits.maxBytes))
  {
    var turn := Listened(env, fs).turn;
    var drained := Drained(turn);
    kept := Positions(drained, |drained|);
    CandidatesStandAt(drained, |drained|);
    forall k | 0 <= k < |drained| && drained[k].completed && drained[k].name != "" ensures k in kept {
      NamedCallsStand(drained, |drained|, k);
    }
    EveryTurnIsWithinLimits(env, fs);
    CompleteAllKeeps(env.limits, turn.acc, true);
    forall i | 0 <= i < |kept|
      ensures NativeCalls(turn)[i].arguments == "" || Bytes(NativeCalls(turn)[i].arguments) <= env.limits.maxBytes
    {
      assert drained[kept[i]] == CompleteAll(turn.acc, true).completed[kept[i]];
    }
  }
}
