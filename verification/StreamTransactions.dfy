/** The tool-call transaction behind the stream: what the calls a client sees are worth when
    the stream's decisions are those of `process_tool_batch`. */
module StreamTransactions {
  import opened Wrappers
  import Firewall
  import StreamEngine
  import ToolBatch
  import ToolCalls

  function CandidatesOf(cs: seq<ToolCalls.Candidate>): (r: seq<ToolBatch.Candidate>)
    ensures |r| == |cs|
  {
    seq(|cs|, i requires 0 <= i < |cs| =>
      ToolBatch.Candidate(cs[i].id, cs[i].name, ToolBatch.Arguments(cs[i].arguments)))
  }

  function BlocksOf(calls: seq<ToolBatch.ToolCall>): (r: seq<StreamEngine.Block>)
    ensures |r| == |calls|
  {
    seq(|calls|, i requires 0 <= i < |calls| =>
      StreamEngine.Block(calls[i].id, calls[i].name, calls[i].arguments))
  }

  function DecisionOf(batches: ToolBatch.Env, attempts: nat, cs: seq<ToolCalls.Candidate>): StreamEngine.Decision {
    var b := ToolBatch.Process(batches, CandidatesOf(cs), attempts).0;
    StreamEngine.Decision(b.accepted, BlocksOf(b.blocks))
  }

  /** The stream decides its candidates through the transaction, or an exception leaves it. */
  ghost predicate Transacts(env: StreamEngine.Env, batches: ToolBatch.Env, attempts: nat) {
    forall cs :: env.decide(cs).Some? ==> env.decide(cs).value == DecisionOf(batches, attempts, cs)
  }

  /** The atomic policy of the transaction is the atomic policy of the stream. */
  lemma AtomicBatchesAreAtomic(env: StreamEngine.Env, batches: ToolBatch.Env, attempts: nat)
    requires Transacts(env, batches, attempts) && ToolBatch.Sane(batches) && batches.policy.Atomic?
    ensures StreamEngine.AtomicDecisions(env)
  {
    forall cs | env.decide(cs).Some?
      ensures |env.decide(cs).value.blocks| == (if env.decide(cs).value.accepted then |cs| else 0)
    {
      var kept := ToolBatch.BatchIsDecided(batches, CandidatesOf(cs), attempts);
    }
  }

  /** The regenerations made by the time the k-th candidate's turn comes. */
  function MadeBefore(batches: ToolBatch.Env, cs: seq<ToolCalls.Candidate>, attempts: nat, k: nat): nat
    requires k < |cs|
  {
    attempts + ToolBatch.SpentTo(ToolBatch.DecideTo(batches, CandidatesOf(cs), attempts, k).0, k)
  }

  /** The k-th candidate's call, when it is accepted. */
  lemma AcceptedIsCall(batches: ToolBatch.Env, cs: seq<ToolCalls.Candidate>, attempts: nat, k: nat, call: ToolBatch.ToolCall)
    requires k < |cs| && ToolBatch.NoneReserved(batches.declared) && call.name in batches.declared
    requires ToolBatch.BlockOf(CandidatesOf(cs)[k], call)
    requires var b := ToolBatch.Process(batches, CandidatesOf(cs), attempts).0;
             !b.choiceBroken && k < |b.decisions| && b.decisions[k].block == Some(call)
    ensures CallOf(batches, cs, attempts, k, StreamEngine.Block(call.id, call.name, call.arguments))
  {
    ToolBatch.AcceptedIff(batches, CandidatesOf(cs), attempts, k);
  }

  /** The calls a client sees in a stream that ends with a decided batch: each names a
      declared tool and no reserved one, carries its candidate's arguments as they were
      repaired or regenerated, has an id, its candidate's if it had one, and comes in the
      order of the candidates; `kept[i]` is the candidate of the i-th call. */
  lemma StreamedCallsAreDecided(env: StreamEngine.Env, fs: seq<StreamEngine.Frame>, batches: ToolBatch.Env, attempts: nat)
    returns (kept: seq<nat>)
    requires Transacts(env, batches, attempts) && ToolBatch.Sane(batches) && ToolBatch.NoneReserved(batches.declared)
    requires StreamEngine.Heard(env, fs)
    requires var plan := StreamEngine.PlanOf(env, StreamEngine.Listened(env, fs).turn);
             plan.Emit? && plan.batch.Some?
    ensures var (log, cs) := (StreamEngine.Stream(env, fs).log,
                              StreamEngine.PlanOf(env, StreamEngine.Listened(env, fs).turn).batch.value.candidates);
            var calls := StreamEngine.CallsIn(log, |log|);
            && |kept| == |calls|
            && (forall i, j :: 0 <= i < j < |kept| ==> kept[i] < kept[j])
            && (forall i :: 0 <= i < |kept| ==> kept[i] < |cs| && CallOf(batches, cs, attempts, kept[i], calls[i]))
            && (batches.policy.Atomic? ==> |calls| == 0 || |calls| == |cs|)
  {
    var turn := StreamEngine.Listened(env, fs).turn;
    var batch := StreamEngine.PlanOf(env, turn).batch.value;
    StreamEngine.CallsAreTheDecision(env, fs);
    StreamEngine.BatchIsDecided(env, turn);
    var decided := ToolBatch.Process(batches, CandidatesOf(batch.candidates), attempts).0;
    kept := ToolBatch.BatchIsDecided(batches, CandidatesOf(batch.candidates), attempts);
    assert batch.decision.blocks == BlocksOf(decided.blocks);
    forall i | 0 <= i < |kept|
      ensures kept[i] < |batch.candidates|
           && CallOf(batches, batch.candidates, attempts, kept[i], BlocksOf(decided.blocks)[i])
    {
      assert ToolBatch.BlockOf(CandidatesOf(batch.candidates)[kept[i]], decided.blocks[i]);
      AcceptedIsCall(batches, batch.candidates, attempts, kept[i], decided.blocks[i]);
    }
  }

  ghost predicate CallOf(batches: ToolBatch.Env, cs: seq<ToolCalls.Candidate>, attempts: nat, k: nat, call: StreamEngine.Block)
    requires k < |cs|
  {
    var c := cs[k];
    && Some(call.arguments) == ToolBatch.FinalArguments(
         batches, k, ToolBatch.Candidate(c.id, c.name, ToolBatch.Arguments(c.arguments)), MadeBefore(batches, cs, attempts, k))
    && call.id != "" && (c.id != "" ==> call.id == c.id)
    && batches.canonical(c.name) == Some(call.name)
    && call.name in batches.declared && !Firewall.Reserved(call.name)
  }
}
