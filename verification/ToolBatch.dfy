/** The tool-call transaction: one decision per candidate, one decision per batch, and the
    regeneration budget all of them share. */
module ToolBatch {
  import opened Firewall
  import opened Wrappers

  /** A batch is all or nothing, or whatever was accepted. */
  datatype BatchPolicy = Atomic | BestEffort

  datatype ToolChoice = AnyCall | NoCall | SomeCall | NamedCall(name: string)

  datatype Raw = Arguments(text: string) | ArgumentList

  datatype Candidate = Candidate(id: string, name: string, raw: Raw)

  datatype ToolCall = ToolCall(id: string, name: string, arguments: string)

  /** `repair` and `regenerate` are the repair pipeline's answers for the k-th candidate,
      arbitrary; `canonical` and `choiceCanonical` are the two ways names are resolved. */
  datatype Env = Env(
    declared: seq<string>,
    choice: ToolChoice,
    policy: BatchPolicy,
    maxRegenerations: int,
    regenerator: bool,
    canonical: string -> Option<string>,
    choiceCanonical: string -> Option<string>,
    repair: (nat, string, string) -> Option<string>,
    regenerate: (nat, string, string) -> Option<string>,
    newId: nat -> string)

  /** What callers may rely on: names resolve to declared tools, a declared name to itself,
      the transaction resolves a name as the choice check did or not at all, and made-up
      ids are not empty. */
  ghost predicate Sane(env: Env) {
    && (forall name :: env.canonical(name).Some? ==> env.canonical(name).value in env.declared)
    && (forall name :: name in env.declared ==> env.choiceCanonical(name) == Some(name))
    && (forall name :: env.choiceCanonical(name).Some? && env.canonical(name).Some? ==>
          env.canonical(name) == env.choiceCanonical(name))
    && (forall k :: env.newId(k) != "")
  }

  // ----------------------------------------------------------- the decisions

  /** One candidate's decision; `spent` says that a regeneration was made for it. */
  datatype Decision = Decision(block: Option<ToolCall>, spent: bool)

  predicate Mandatory(choice: ToolChoice) { choice.SomeCall? || choice.NamedCall? }

  predicate MayRegenerate(env: Env, attempts: nat) {
    env.maxRegenerations > 0 && env.regenerator && Mandatory(env.choice) && attempts < env.maxRegenerations
  }

  function BlockFor(env: Env, k: nat, c: Candidate, name: string, arguments: Option<string>): Option<ToolCall> {
    if arguments.None? then None
    else Some(ToolCall(if c.id != "" then c.id else env.newId(k), name, arguments.value))
  }

  /** `tool_transaction_service` on the k-th candidate. */
  function Decide(env: Env, k: nat, c: Candidate, attempts: nat): Decision {
    if c.name == "" || env.canonical(c.name).None? || c.raw.ArgumentList? then Decision(None, false)
    else
      var name := env.canonical(c.name).value;
      var repaired := env.repair(k, name, c.raw.text);
      if repaired.Some? then Decision(BlockFor(env, k, c, name, repaired), false)
      else if MayRegenerate(env, attempts) then
        Decision(BlockFor(env, k, c, name, env.regenerate(k, name, c.raw.text)), true)
      else Decision(None, false)
  }

  /** The decisions on the first `n` candidates, and the attempts made by then. */
  function DecideTo(env: Env, cs: seq<Candidate>, attempts: nat, n: nat): (r: (seq<Decision>, nat))
    requires n <= |cs|
    ensures |r.0| == n
  {
    if n == 0 then ([], attempts)
    else
      var (before, made) := DecideTo(env, cs, attempts, n - 1);
      var d := Decide(env, n - 1, cs[n - 1], made);
      (before + [d], if d.spent then made + 1 else made)
  }

  /** `validate_batch_choice`: whether the batch breaks the tool choice. */
  predicate BreaksChoice(env: Env, cs: seq<Candidate>) {
    match env.choice
    case NoCall => cs != []
    case NamedCall(name) =>
      name == "" || name !in env.declared || cs == []
      || exists k :: 0 <= k < |cs| && cs[k].name != "" && EffectiveName(env, cs[k].name) != name
    case SomeCall =>
      cs == [] || exists k :: 0 <= k < |cs| && cs[k].name != "" && env.choiceCanonical(cs[k].name).None?
    case AnyCall => false
  }

  function EffectiveName(env: Env, name: string): string {
    if env.choiceCanonical(name).Some? && env.choiceCanonical(name).value != "" then env.choiceCanonical(name).value
    else name
  }

  /** The accepted blocks among the first `n` decisions. */
  function BlocksTo(ds: seq<Decision>, n: nat): (r: seq<ToolCall>)
    requires n <= |ds|
    ensures |r| <= n
  {
    if n == 0 then []
    else if ds[n - 1].block.Some? then BlocksTo(ds, n - 1) + [ds[n - 1].block.value]
    else BlocksTo(ds, n - 1)
  }

  function RejectedTo(ds: seq<Decision>, n: nat): (r: nat)
    requires n <= |ds|
    ensures r <= n
  {
    if n == 0 then 0 else RejectedTo(ds, n - 1) + (if ds[n - 1].block.None? then 1 else 0)
  }

  datatype Batch = Batch(
    decisions: seq<Decision>,
    blocks: seq<ToolCall>,
    rejected: nat,
    accepted: bool,
    choiceBroken: bool)

  /** `process_tool_batch`: the batch, and the attempts made by its end. */
  function Process(env: Env, cs: seq<Candidate>, attempts: nat): (Batch, nat) {
    if BreaksChoice(env, cs) then (Batch([], [], |cs|, false, true), attempts)
    else
      var (ds, made) := DecideTo(env, cs, attempts, |cs|);
      var (blocks, rejected) := (BlocksTo(ds, |ds|), RejectedTo(ds, |ds|));
      (if rejected == 0 then Batch(ds, blocks, 0, true, false)
       else if env.policy.BestEffort? then Batch(ds, blocks, rejected, blocks != [], false)
       else Batch(ds, [], rejected, false, false),
       made)
  }

  // ------------------------------------------------------- what they promise

  /** `kept[i]` is the candidate the i-th block came from: the blocks stand in candidate
      order, each under its candidate's id if it has one, and never under an empty id. */
  ghost predicate ComesFrom(cs: seq<Candidate>, blocks: seq<ToolCall>, kept: seq<nat>) {
    && |kept| == |blocks|
    && (forall i :: 0 <= i < |kept| ==> kept[i] < |cs| && BlockOf(cs[kept[i]], blocks[i]))
    && (forall i, j :: 0 <= i < j < |kept| ==> kept[i] < kept[j])
  }

  ghost predicate BlockOf(c: Candidate, b: ToolCall) {
    b.id != "" && (c.id != "" ==> b.id == c.id) && c.name != ""
  }

  /** What one decision may accept. */
  ghost predicate Lawful(env: Env, c: Candidate, d: Decision) {
    && (d.spent ==> Mandatory(env.choice))
    && (d.block.Some? ==>
          BlockOf(c, d.block.value) && env.canonical(c.name) == Some(d.block.value.name)
          && d.block.value.name in env.declared)
  }

  lemma {:induction false} DecisionsAreLawful(env: Env, cs: seq<Candidate>, attempts: nat, n: nat)
    requires Sane(env) && n <= |cs|
    ensures forall k :: 0 <= k < n ==> Lawful(env, cs[k], DecideTo(env, cs, attempts, n).0[k])
  {
    if n > 0 {
      DecisionsAreLawful(env, cs, attempts, n - 1);
      var (before, made) := DecideTo(env, cs, attempts, n - 1);
      assert env.canonical(cs[n - 1].name).Some? ==> env.canonical(cs[n - 1].name).value in env.declared;
      assert env.newId(n - 1) != "";
      assert Lawful(env, cs[n - 1], Decide(env, n - 1, cs[n - 1], made));
    }
  }

  /** The blocks of a list of decisions: one per accepted decision, in order. */
  lemma {:induction false} BlocksStandAt(ds: seq<Decision>, n: nat) returns (kept: seq<nat>)
    requires n <= |ds|
    ensures |kept| == |BlocksTo(ds, n)|
    ensures forall i :: 0 <= i < |kept| ==> kept[i] < n && ds[kept[i]].block == Some(BlocksTo(ds, n)[i])
    ensures forall i, j :: 0 <= i < j < |kept| ==> kept[i] < kept[j]
    ensures forall k :: 0 <= k < n && ds[k].block.Some? ==> k in kept
  {
    if n == 0 {
      kept := [];
    } else {
      kept := BlocksStandAt(ds, n - 1);
      if ds[n - 1].block.Some? {
        kept := kept + [n - 1];
      }
    }
  }

  lemma BlocksComeFrom(env: Env, cs: seq<Candidate>, ds: seq<Decision>) returns (kept: seq<nat>)
    requires |ds| == |cs|
    requires forall k :: 0 <= k < |ds| ==> Lawful(env, cs[k], ds[k])
    ensures ComesFrom(cs, BlocksTo(ds, |ds|), kept)
    ensures forall i :: 0 <= i < |kept| ==> ds[kept[i]].block == Some(BlocksTo(ds, |ds|)[i])
    ensures forall k :: 0 <= k < |ds| && ds[k].block.Some? ==> k in kept
  {
    kept := BlocksStandAt(ds, |ds|);
    forall i | 0 <= i < |kept| ensures BlockOf(cs[kept[i]], BlocksTo(ds, |ds|)[i]) {
      assert Lawful(env, cs[kept[i]], ds[kept[i]]);
    }
  }

  lemma {:induction false} EveryDecisionCounts(ds: seq<Decision>, n: nat)
    requires n <= |ds|
    ensures RejectedTo(ds, n) + |BlocksTo(ds, n)| == n
    ensures RejectedTo(ds, n) == 0 <==> forall k :: 0 <= k < n ==> ds[k].block.Some?
  {
    if n > 0 {
      EveryDecisionCounts(ds, n - 1);
    }
  }

  ghost predicate AllAccepted(ds: seq<Decision>) {
    forall k :: 0 <= k < |ds| ==> ds[k].block.Some?
  }

  /** A batch in one statement: its blocks are the accepted calls in candidate order; under
      the atomic policy they are all of them or none; every block names a declared tool and
      keeps its candidate's id; and every candidate is counted. */
  lemma BatchIsDecided(env: Env, cs: seq<Candidate>, attempts: nat) returns (kept: seq<nat>)
    requires Sane(env)
    ensures var b := Process(env, cs, attempts).0;
            && ComesFrom(cs, b.blocks, kept)
            && (forall i :: 0 <= i < |kept| ==> env.canonical(cs[kept[i]].name) == Some(b.blocks[i].name)
                                                && b.blocks[i].name in env.declared)
            && (forall i :: 0 <= i < |kept| ==>
                  kept[i] < |b.decisions| && b.decisions[kept[i]].block == Some(b.blocks[i]))
            && (b.choiceBroken ==> b.blocks == [] && b.rejected == |cs| && !b.accepted)
            && (!b.choiceBroken ==>
                  && |b.decisions| == |cs|
                  && b.rejected + |BlocksTo(b.decisions, |cs|)| == |cs|
                  && (b.accepted <==> AllAccepted(b.decisions) || (env.policy.BestEffort? && b.blocks != []))
                  && (AllAccepted(b.decisions) || env.policy.BestEffort? ==>
                        forall k :: 0 <= k < |cs| ==> (k in kept <==> b.decisions[k].block.Some?)))
            && (env.policy.Atomic? ==> |b.blocks| == (if b.accepted then |cs| else 0))
  {
    kept := [];
    var b := Process(env, cs, attempts).0;
    if !b.choiceBroken {
      DecisionsAreLawful(env, cs, attempts, |cs|);
      EveryDecisionCounts(b.decisions, |cs|);
      if AllAccepted(b.decisions) || env.policy.BestEffort? {
        kept := BlocksComeFrom(env, cs, b.decisions);
      }
    }
  }

  /** A regeneration is made for this call: it is mandatory, there is a regenerator, and the
      limit is not reached. */
  ghost predicate Regenerates(env: Env, made: nat) {
    && (env.choice.SomeCall? || env.choice.NamedCall?)
    && env.regenerator && made < env.maxRegenerations
  }

  /** The arguments a call ends up with, None where they cannot be made to fit: repaired ones
      if the repair succeeds, otherwise regenerated ones if one is made. */
  ghost function FinalArguments(env: Env, k: nat, c: Candidate, made: nat): Option<string> {
    if c.name == "" || env.canonical(c.name).None? || c.raw.ArgumentList? then None
    else
      var name := env.canonical(c.name).value;
      if env.repair(k, name, c.raw.text).Some? then env.repair(k, name, c.raw.text)
      else if Regenerates(env, made) then env.regenerate(k, name, c.raw.text)
      else None
  }

  lemma DecisionIs(env: Env, k: nat, c: Candidate, made: nat)
    ensures var (d, arguments) := (Decide(env, k, c, made), FinalArguments(env, k, c, made));
            && (d.block.Some? <==> arguments.Some?)
            && (d.block.Some? ==>
                  && d.block.value.arguments == arguments.value && Some(d.block.value.name) == env.canonical(c.name)
                  && d.block.value.id == if c.id != "" then c.id else env.newId(k))
            && (d.spent <==>
                  && c.name != "" && env.canonical(c.name).Some? && c.raw.Arguments?
                  && env.repair(k, env.canonical(c.name).value, c.raw.text).None? && Regenerates(env, made))
  {
  }

  lemma {:induction false} DecisionAt(env: Env, cs: seq<Candidate>, attempts: nat, n: nat, k: nat)
    requires k < n <= |cs|
    ensures DecideTo(env, cs, attempts, n).0[k] == Decide(env, k, cs[k], DecideTo(env, cs, attempts, k).1)
  {
    if k < n - 1 {
      DecisionAt(env, cs, attempts, n - 1, k);
    }
  }

  /** In a batch that keeps the choice, the k-th candidate is accepted if and only if it has a
      name that resolves, arguments that are not a list, and these can be repaired or, the
      regenerations made before it counted, regenerated; its block carries exactly those
      arguments, the resolved name, and its own id or a new one. */
  lemma AcceptedIff(env: Env, cs: seq<Candidate>, attempts: nat, k: nat)
    requires k < |cs| && !Process(env, cs, attempts).0.choiceBroken
    ensures var (ds, made) := (Process(env, cs, attempts).0.decisions, attempts + SpentTo(DecideTo(env, cs, attempts, k).0, k));
            && |ds| == |cs|
            && (ds[k].block.Some? <==> FinalArguments(env, k, cs[k], made).Some?)
            && (ds[k].block.Some? ==>
                  && Some(ds[k].block.value.arguments) == FinalArguments(env, k, cs[k], made)
                  && Some(ds[k].block.value.name) == env.canonical(cs[k].name)
                  && ds[k].block.value.id == if cs[k].id != "" then cs[k].id else env.newId(k))
  {
    AttemptsAreCounted(env, cs, attempts, k);
    DecisionAt(env, cs, attempts, |cs|, k);
    DecisionIs(env, k, cs[k], DecideTo(env, cs, attempts, k).1);
  }

  /** A batch is refused as a whole for the tool choice exactly when calls are forbidden and
      there is one; a call is mandatory and there is none; one tool is named that is not
      declared, or some candidate with a name does not resolve to it; or some candidate with
      a name does not resolve at all although a call is mandatory. */
  lemma ChoiceBrokenIff(env: Env, cs: seq<Candidate>, attempts: nat)
    requires Sane(env)
    ensures Process(env, cs, attempts).0.choiceBroken <==>
              match env.choice
              case AnyCall => false
              case NoCall => cs != []
              case SomeCall =>
                cs == [] || exists k :: 0 <= k < |cs| && cs[k].name != "" && env.choiceCanonical(cs[k].name).None?
              case NamedCall(name) =>
                || name == "" || name !in env.declared || cs == []
                || exists k :: 0 <= k < |cs| && cs[k].name != "" && env.choiceCanonical(cs[k].name) != Some(name)
  {
    if env.choice.NamedCall? && env.choice.name in env.declared && env.choice.name != "" {
      var name := env.choice.name;
      assert env.choiceCanonical(name) == Some(name);
      forall k | 0 <= k < |cs|
        ensures EffectiveName(env, cs[k].name) != name <==> env.choiceCanonical(cs[k].name) != Some(name)
      {
      }
    }
  }

  /** What the tool choice lets through. */
  lemma ChoiceIsKept(env: Env, cs: seq<Candidate>, attempts: nat)
    requires Sane(env)
    ensures var b := Process(env, cs, attempts).0;
            match env.choice
            case NoCall => cs != [] ==> b.blocks == [] && !b.accepted
            case NamedCall(name) =>
              (cs == [] ==> !b.accepted) && forall i :: 0 <= i < |b.blocks| ==> b.blocks[i].name == name
            case SomeCall => cs == [] ==> !b.accepted
            case AnyCall => cs == [] ==> b.accepted && b.blocks == []
  {
    var b := Process(env, cs, attempts).0;
    var kept := BatchIsDecided(env, cs, attempts);
    if env.choice.NamedCall? && !b.choiceBroken {
      forall i | 0 <= i < |b.blocks| ensures b.blocks[i].name == env.choice.name {
        var c := cs[kept[i]];
        assert BlockOf(c, b.blocks[i]);
        assert EffectiveName(env, c.name) == env.choice.name;
        assert env.choiceCanonical(env.choice.name) == Some(env.choice.name);
      }
    }
  }

  /** `_check_reserved_namespace_collision` passes. */
  ghost predicate NoneReserved(declared: seq<string>) {
    forall i :: 0 <= i < |declared| ==> !Reserved(declared[i])
  }

  lemma AcceptedIsNeverReserved(env: Env, cs: seq<Candidate>, attempts: nat)
    requires Sane(env) && NoneReserved(env.declared)
    ensures forall i :: 0 <= i < |Process(env, cs, attempts).0.blocks| ==>
              !Reserved(Process(env, cs, attempts).0.blocks[i].name)
  {
    var kept := BatchIsDecided(env, cs, attempts);
  }

  // ------------------------------------------------------- the shared budget

  function SpentTo(ds: seq<Decision>, n: nat): nat
    requires n <= |ds|
  {
    if n == 0 then 0 else SpentTo(ds, n - 1) + (if ds[n - 1].spent then 1 else 0)
  }

  lemma {:induction false} SpentTogether(ds: seq<Decision>, es: seq<Decision>, n: nat)
    requires n <= |ds| && n <= |es| && forall k :: 0 <= k < n ==> ds[k] == es[k]
    ensures SpentTo(ds, n) == SpentTo(es, n)
  {
    if n > 0 {
      SpentTogether(ds, es, n - 1);
    }
  }

  lemma {:induction false} AttemptsAreCounted(env: Env, cs: seq<Candidate>, attempts: nat, n: nat)
    requires n <= |cs|
    ensures var (ds, made) := DecideTo(env, cs, attempts, n);
            && made == attempts + SpentTo(ds, n)
            && (made == attempts || (made <= env.maxRegenerations && Mandatory(env.choice)))
  {
    if n > 0 {
      AttemptsAreCounted(env, cs, attempts, n - 1);
      SpentTogether(DecideTo(env, cs, attempts, n).0, DecideTo(env, cs, attempts, n - 1).0, n - 1);
    }
  }

  /** The batches of one request, in order, on one budget. */
  function Attempts(env: Env, batches: seq<seq<Candidate>>): nat {
    if batches == [] then 0
    else Process(env, batches[|batches| - 1], Attempts(env, batches[..|batches| - 1])).1
  }

  /** However many batches a request has, its regenerations never exceed the limit, and
      there are none unless a call is mandatory. */
  lemma {:induction false} RegenerationsAreBounded(env: Env, batches: seq<seq<Candidate>>)
    ensures Attempts(env, batches) == 0
         || (Mandatory(env.choice) && env.regenerator && Attempts(env, batches) <= env.maxRegenerations)
  {
    if batches != [] {
      var (before, last) := (batches[..|batches| - 1], batches[|batches| - 1]);
      RegenerationsAreBounded(env, before);
      AttemptsAreCounted(env, last, Attempts(env, before), |last|);
      NoRegeneratorNoneMade(env, last, Attempts(env, before), |last|);
    }
  }

  lemma {:induction false} NoRegeneratorNoneMade(env: Env, cs: seq<Candidate>, attempts: nat, n: nat)
    requires n <= |cs|
    ensures !env.regenerator ==> DecideTo(env, cs, attempts, n).1 == attempts
  {
    if n > 0 {
      NoRegeneratorNoneMade(env, cs, attempts, n - 1);
    }
  }

  // -------------------------------------------------------------- the loops

  /** `RepairBudget`, as far as regenerations go. */
  class RepairBudget {
    var regenerationAttempts: nat

    constructor ()
      ensures regenerationAttempts == 0
    {
      regenerationAttempts := 0;
    }

    predicate CanRegenerate(max: int)
      reads this
    {
      regenerationAttempts < max
    }
  }

  /** `tool_transaction_service` */
  method Transact(env: Env, k: nat, c: Candidate, budget: RepairBudget) returns (d: Decision)
    modifies budget
    ensures d == Decide(env, k, c, old(budget.regenerationAttempts))
    ensures budget.regenerationAttempts == old(budget.regenerationAttempts) + (if d.spent then 1 else 0)
  {
    if c.name == "" {
      return Decision(None, false);
    }
    var canonical := env.canonical(c.name);
    if canonical.None? || c.raw.ArgumentList? {
      return Decision(None, false);
    }
    var outcome := env.repair(k, canonical.value, c.raw.text);
    var spent := false;
    if outcome.None? && env.maxRegenerations > 0 && env.regenerator {
      if Mandatory(env.choice) {
        if budget.CanRegenerate(env.maxRegenerations) {
          budget.regenerationAttempts := budget.regenerationAttempts + 1;
          spent := true;
          outcome := env.regenerate(k, canonical.value, c.raw.text);
        }
      }
    }
    d := Decision(BlockFor(env, k, c, canonical.value, outcome), spent);
  }

  /** `validate_batch_choice`: true where the source returns an error message. */
  method ValidateBatchChoice(env: Env, cs: seq<Candidate>) returns (broken: bool)
    ensures broken == BreaksChoice(env, cs)
  {
    match env.choice {
      case NoCall => return cs != [];
      case AnyCall => return false;
      case NamedCall(name) =>
        if name == "" || name !in env.declared || cs == [] {
          return true;
        }
        for k := 0 to |cs|
          invariant forall i :: 0 <= i < k ==> cs[i].name == "" || EffectiveName(env, cs[i].name) == name
        {
          if cs[k].name != "" && EffectiveName(env, cs[k].name) != name {
            return true;
          }
        }
        return false;
      case SomeCall =>
        if cs == [] {
          return true;
        }
        for k := 0 to |cs|
          invariant forall i :: 0 <= i < k ==> cs[i].name == "" || env.choiceCanonical(cs[i].name).Some?
        {
          if cs[k].name != "" && env.choiceCanonical(cs[k].name).None? {
            return true;
          }
        }
        return false;
    }
  }

  /** `process_tool_batch` */
  method ProcessToolBatch(env: Env, cs: seq<Candidate>, budget: RepairBudget) returns (b: Batch)
    modifies budget
    ensures (b, budget.regenerationAttempts) == Process(env, cs, old(budget.regenerationAttempts))
  {
    var broken := ValidateBatchChoice(env, cs);
    if broken {
      return Batch([], [], |cs|, false, true);
    }
    var decisions: seq<Decision> := [];
    for k := 0 to |cs|
      invariant (decisions, budget.regenerationAttempts)
             == DecideTo(env, cs, old(budget.regenerationAttempts), k)
    {
      var d := Transact(env, k, cs[k], budget);
      decisions := decisions + [d];
    }
    var blocks: seq<ToolCall>, rejected := [], 0;
    for k := 0 to |decisions|
      invariant blocks == BlocksTo(decisions, k) && rejected == RejectedTo(decisions, k)
    {
      if decisions[k].block.Some? {
        blocks := blocks + [decisions[k].block.value];
      } else {
        rejected := rejected + 1;
      }
    }
    b := Batch(decisions, [], rejected, rejected == 0, false);
    if rejected == 0 {
      b := b.(blocks := blocks);
    } else if env.policy.BestEffort? {
      b := b.(blocks := blocks, accepted := |blocks| > 0);
    }
  }

  /** `_check_reserved_namespace_collision`; false where it raises. */
  method CheckReservedNamespace(declared: seq<string>) returns (ok: bool)
    ensures ok <==> NoneReserved(declared)
  {
    for i := 0 to |declared|
      invariant forall k :: 0 <= k < i ==> !Reserved(declared[k])
    {
      if Reserved(declared[i]) {
        return false;
      }
    }
    ok := true;
  }
}
