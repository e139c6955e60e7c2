/** One generation at a time: render, gate, reserve, admit, send, settle. Rendering, the
    token meter, the admission queue, the backend and the decoder are what a request
    record says they answered. */
module GenerationSeam {
  import opened GenerationLedger
  import opened Numbers
  import opened Wrappers

  datatype Usage = Usage(input: int, output: int)

  /** What happens to a generation once it holds its reservation. */
  datatype Reply =
    | Refused                        // no admission slot: nothing is sent
    | TooLarge                       // sent; the body exceeds the transport's limit
    | HttpError                      // sent; answered with an error status
    | BadJson                        // sent; answered with something that is not JSON
    | Decoded(usage: Option<Usage>)  // sent, answered and decoded
    | Broken(sent: bool)             // any other exception, before or after sending

  /** `maxOut` and `safeLimit` are 0 when absent; `late` says that the latency
      allowance is used up when the reservation is asked for. */
  datatype Request = Request(
    meter: nat, bytes: nat, maxOut: int, safeLimit: int, purpose: string, late: bool, reply: Reply)

  datatype Answer =
    | ContextLimit       // the exact-context gate
    | BytesExhausted
    | InputExhausted
    | BudgetExhausted
    | NoSlot
    | Failed             // sent, with no usable answer
    | Done
    | Raised             // an exception leaves the seam

  /** The budget, if the request has one, and every body handed to the transport. */
  datatype System = System(ledger: Option<Ledger>, sent: seq<Request>)

  // --------------------------------------------------------------- the steps

  /** `generation_output_reserve` */
  function OutputReserve(maxOut: int): (r: nat)
    ensures 64 <= r <= 1024
    ensures 64 <= maxOut <= 1024 ==> r == maxOut
    ensures maxOut == 0 ==> r == 512
    ensures maxOut < 64 && maxOut != 0 ==> r == 64
    ensures maxOut > 1024 ==> r == 1024
  {
    Min(1024, Max(64, if maxOut == 0 then 512 else maxOut))
  }

  predicate FitsContext(q: Request) {
    q.safeLimit == 0 || q.meter + OutputReserve(q.maxOut) <= q.safeLimit
  }

  /** What the seam makes of a reply. */
  function AnswerTo(reply: Reply): Answer {
    match reply
    case Refused => NoSlot
    case TooLarge => Failed
    case HttpError => Failed
    case BadJson => Failed
    case Decoded(_) => Done
    case Broken(_) => Raised
  }

  /** How the reservation of a generation with this reply ends. */
  function FateOf(reply: Reply): Fate {
    match reply
    case Refused => Released
    case TooLarge => Estimated
    case HttpError => Estimated
    case BadJson => Estimated
    case Decoded(None) => Estimated
    case Decoded(Some(usage)) => Committed(usage.input, usage.output)
    case Broken(_) => Open
  }

  predicate Sends(reply: Reply) {
    match reply
    case Refused => false
    case Broken(sent) => sent
    case _ => true
  }

  /** Which check turns a request away before it holds a reservation. */
  function Turned(l: Ledger, q: Request): Option<Answer> {
    if !FitsContext(q) then Some(ContextLimit)
    else if l.bytes + q.bytes > l.limits.maxBytes then Some(BytesExhausted)
    else if l.input + q.meter > l.limits.maxInput then Some(InputExhausted)
    else if Reserve(l, q.meter, OutputReserve(q.maxOut), q.purpose, q.late).1.None? then Some(BudgetExhausted)
    else None
  }

  /** `run_step` on a request with a budget. */
  function StepLedger(l: Ledger, q: Request): (Ledger, Answer) {
    if Turned(l, q).Some? then (l, Turned(l, q).value)
    else
      var (held, number) := Reserve(l, q.meter, OutputReserve(q.maxOut), q.purpose, q.late);
      if q.reply.Broken? then (held, Raised)
      else
        var settled := Settle(held, number.value, FateOf(q.reply));
        (if Sends(q.reply) then RecordBytes(settled, q.bytes) else settled, AnswerTo(q.reply))
  }

  /** `run_step` on a request without one: a failure that goes through the seam's
      reconciliation is recorded on the missing budget, which raises. */
  function BareAnswer(q: Request): Answer {
    if !FitsContext(q) then ContextLimit
    else if q.reply.TooLarge? || q.reply.HttpError? then Raised
    else AnswerTo(q.reply)
  }

  function Step(s: System, q: Request): (System, Answer) {
    match s.ledger
    case None =>
      (s.(sent := if FitsContext(q) && Sends(q.reply) then s.sent + [q] else s.sent), BareAnswer(q))
    case Some(l) =>
      var (l', a) := StepLedger(l, q);
      (System(Some(l'), if Turned(l, q).None? && Sends(q.reply) then s.sent + [q] else s.sent), a)
  }

  /** The system and the answers after a run of requests on one budget. */
  function Run(s: System, qs: seq<Request>): (System, seq<Answer>) {
    if qs == [] then (s, [])
    else
      var (before, answers) := Run(s, qs[..|qs| - 1]);
      var (after, a) := Step(before, qs[|qs| - 1]);
      (after, answers + [a])
  }

  function Fresh(limits: Limits): System {
    System(Some(Ledger(limits, 0, 0, 0, map[], [])), [])
  }

  // ------------------------------------------------ the ledger and the wire

  /** The tokens a sent body costs: what the backend said, or else the estimate. */
  function InputCost(q: Request): int {
    if q.reply.Decoded? && q.reply.usage.Some? then Max(0, q.reply.usage.value.input) else q.meter
  }

  function OutputCost(q: Request): int {
    if q.reply.Decoded? && q.reply.usage.Some? then Max(0, q.reply.usage.value.output) else OutputReserve(q.maxOut)
  }

  function InputCosts(sent: seq<Request>): int {
    if sent == [] then 0 else InputCosts(sent[..|sent| - 1]) + InputCost(sent[|sent| - 1])
  }

  function OutputCosts(sent: seq<Request>): int {
    if sent == [] then 0 else OutputCosts(sent[..|sent| - 1]) + OutputCost(sent[|sent| - 1])
  }

  function Bytes(sent: seq<Request>): int {
    if sent == [] then 0 else Bytes(sent[..|sent| - 1]) + sent[|sent| - 1].bytes
  }

  function Sent(sent: seq<Request>, purpose: string): nat {
    if sent == [] then 0
    else Sent(sent[..|sent| - 1], purpose) + (if sent[|sent| - 1].purpose == purpose then 1 else 0)
  }

  /** No reservation is open. */
  ghost predicate AllSettled(l: Ledger) {
    forall i :: 0 <= i < |l.reservations| ==> !l.reservations[i].fate.Open?
  }

  /** The totals are exactly what the bodies on the wire cost, and each purpose is
      counted once per body. */
  ghost predicate Matches(l: Ledger, sent: seq<Request>) {
    && l.input == InputCosts(sent)
    && l.generated == OutputCosts(sent)
    && l.bytes == Bytes(sent)
    && forall p :: Generations(l, p) == Sent(sent, p)
  }

  /** What every run keeps, whatever was raised on the way. */
  ghost predicate Sound(l: Ledger, sent: seq<Request>) {
    && Balanced(l)
    && l.bytes <= Max(0, l.limits.maxBytes)
    && forall i :: 0 <= i < |sent| ==> !OverContext(sent[i])
  }

  /** The reservation of one step: none if the request was turned away, otherwise one
      more, with the fate its reply calls for; earlier ones are left alone. */
  lemma StepReservesOnce(l: Ledger, q: Request)
    ensures var (l', a) := StepLedger(l, q);
            if Turned(l, q).Some? then l' == l && a != Raised
            else l'.reservations ==
                   l.reservations + [Reservation(q.meter, OutputReserve(q.maxOut), q.purpose, FateOf(q.reply))]
                 && (a == Raised <==> q.reply.Broken?)
  {
    if Turned(l, q).None? {
      var r := Reservation(q.meter, OutputReserve(q.maxOut), q.purpose, Open);
      assert (l.reservations + [r])[|l.reservations| := r.(fate := FateOf(q.reply))]
          == l.reservations + [r.(fate := FateOf(q.reply))];
    }
  }

  lemma StepKeepsBalance(l: Ledger, q: Request)
    requires Balanced(l)
    ensures Balanced(StepLedger(l, q).0)
  {
    if Turned(l, q).None? {
      var (held, number) := Reserve(l, q.meter, OutputReserve(q.maxOut), q.purpose, q.late);
      ReserveKeepsBalance(l, q.meter, OutputReserve(q.maxOut), q.purpose, q.late);
      if !q.reply.Broken? {
        SettleKeepsBalance(held, number.value, FateOf(q.reply));
        var settled := Settle(held, number.value, FateOf(q.reply));
        forall p ensures Generations(RecordBytes(settled, q.bytes), p) == Generations(settled, p) {}
      }
    }
  }

  /** A body on the wire was inside every ceiling, with its estimate added, at the
      moment it was sent. */
  lemma SentWithinCeilings(l: Ledger, sent: seq<Request>, q: Request)
    requires Step(System(Some(l), sent), q).0.sent != sent
    ensures q.safeLimit != 0 ==> q.meter + OutputReserve(q.maxOut) <= q.safeLimit
    ensures !q.reply.Refused? && q.reply != Broken(false)
    ensures l.input + q.meter <= l.limits.maxInput
    ensures l.generated + OutputReserve(q.maxOut) <= l.limits.maxGenerated
    ensures l.input + q.meter + l.generated + OutputReserve(q.maxOut) <= l.limits.maxModel
    ensures l.bytes + q.bytes <= l.limits.maxBytes
  {
  }

  /** The body would not fit the context with its reserve. */
  ghost predicate OverContext(q: Request) {
    q.safeLimit != 0 && q.meter + OutputReserve(q.maxOut) > q.safeLimit
  }

  /** No headroom is left for the estimate. */
  ghost predicate OverBudget(l: Ledger, q: Request) {
    || q.late || l.generated + OutputReserve(q.maxOut) > l.limits.maxGenerated
    || l.input + q.meter + l.generated + OutputReserve(q.maxOut) > l.limits.maxModel
  }

  /** What a step answers, and whether its body goes to the wire: the first ceiling it would
      cross turns it away, in this order; past all of them its reply decides. */
  lemma AnswerIs(l: Ledger, sent: seq<Request>, q: Request)
    ensures var (s, a) := Step(System(Some(l), sent), q);
            if OverContext(q) then a == ContextLimit && s.sent == sent
            else if l.bytes + q.bytes > l.limits.maxBytes then a == BytesExhausted && s.sent == sent
            else if l.input + q.meter > l.limits.maxInput then a == InputExhausted && s.sent == sent
            else if OverBudget(l, q) then a == BudgetExhausted && s.sent == sent
            else
              && (a == Done <==> q.reply.Decoded?)
              && (a == NoSlot <==> q.reply.Refused?)
              && (a == Raised <==> q.reply.Broken?)
              && (a == Failed <==> q.reply.TooLarge? || q.reply.HttpError? || q.reply.BadJson?)
              && s.sent == if q.reply.Refused? || q.reply == Broken(false) then sent else sent + [q]
  {
  }

  /** And without a budget, where only the context is a ceiling. */
  lemma BareAnswerIs(sent: seq<Request>, q: Request)
    ensures var (s, a) := Step(System(None, sent), q);
            if OverContext(q) then a == ContextLimit && s.sent == sent
            else
              && (a == Done <==> q.reply.Decoded?)
              && (a == NoSlot <==> q.reply.Refused?)
              && (a == Failed <==> q.reply.BadJson?)
              && (a == Raised <==> q.reply.TooLarge? || q.reply.HttpError? || q.reply.Broken?)
              && s.sent == if q.reply.Refused? || q.reply == Broken(false) then sent else sent + [q]
  {
  }

  /** The bytes that are counted: those of a body that was sent and did not raise. */
  lemma BytesAre(l: Ledger, q: Request)
    ensures StepLedger(l, q).0.bytes == l.bytes +
              if StepLedger(l, q).1 in {Done, Failed} then q.bytes else 0
  {
  }

  /** What a settled step leaves its reservation worth: nothing if it was refused, what the
      backend reported if it reported its usage, and the estimate otherwise. */
  lemma ReservationIsWorth(l: Ledger, q: Request)
    requires Turned(l, q).None?
    ensures var rs := StepLedger(l, q).0.reservations;
            && |rs| == |l.reservations| + 1 && rs[..|l.reservations|] == l.reservations
            && var r := rs[|l.reservations|];
               && r.purpose == q.purpose && (r.fate.Open? <==> q.reply.Broken?)
               && InputCharge(r) == (if q.reply.Refused? then 0
                                     else if q.reply.Decoded? && q.reply.usage.Some? then Max(0, q.reply.usage.value.input)
                                     else q.meter)
               && OutputCharge(r) == (if q.reply.Refused? then 0
                                      else if q.reply.Decoded? && q.reply.usage.Some? then Max(0, q.reply.usage.value.output)
                                      else OutputReserve(q.maxOut))
  {
    StepReservesOnce(l, q);
  }

  /** What one settled step adds to the totals: the cost of its body if it was sent. */
  lemma StepCosts(l: Ledger, q: Request)
    requires Balanced(l) && Turned(l, q).None? && !q.reply.Broken?
    ensures var (l', sent) := (StepLedger(l, q).0, Sends(q.reply));
            && l'.input == l.input + (if sent then InputCost(q) else 0)
            && l'.generated == l.generated + (if sent then OutputCost(q) else 0)
            && l'.bytes == l.bytes + (if sent then q.bytes else 0)
  {
  }

  lemma StepCounts(l: Ledger, q: Request, p: string)
    requires Turned(l, q).None? && !q.reply.Broken?
    ensures Generations(StepLedger(l, q).0, p)
         == Generations(l, p) + (if Sends(q.reply) && q.purpose == p then 1 else 0)
  {
  }

  lemma SentGrows(sent: seq<Request>, q: Request, p: string)
    ensures Sent(sent + [q], p) == Sent(sent, p) + (if q.purpose == p then 1 else 0)
  {
    assert (sent + [q])[..|sent|] == sent;
  }

  lemma CostsGrow(sent: seq<Request>, q: Request)
    ensures InputCosts(sent + [q]) == InputCosts(sent) + InputCost(q)
    ensures OutputCosts(sent + [q]) == OutputCosts(sent) + OutputCost(q)
    ensures Bytes(sent + [q]) == Bytes(sent) + q.bytes
  {
    assert (sent + [q])[..|sent|] == sent;
  }

  /** A ledger that has grown by the cost of a body matches the wire with that body. */
  lemma MatchesGrows(l: Ledger, l': Ledger, sent: seq<Request>, q: Request)
    requires Matches(l, sent)
    requires l'.input == l.input + InputCost(q) && l'.generated == l.generated + OutputCost(q)
    requires l'.bytes == l.bytes + q.bytes
    requires forall p :: Generations(l', p) == Generations(l, p) + (if q.purpose == p then 1 else 0)
    ensures Matches(l', sent + [q])
  {
    CostsGrow(sent, q);
    forall p ensures Generations(l', p) == Sent(sent + [q], p) {
      SentGrows(sent, q, p);
    }
  }

  lemma StepMatches(l: Ledger, sent: seq<Request>, q: Request)
    requires Balanced(l) && Matches(l, sent) && Step(System(Some(l), sent), q).1 != Raised
    ensures var s' := Step(System(Some(l), sent), q).0;
            Matches(s'.ledger.value, s'.sent)
  {
    if Turned(l, q).None? {
      var l' := StepLedger(l, q).0;
      StepCosts(l, q);
      forall p ensures Generations(l', p) == Generations(l, p) + (if Sends(q.reply) && q.purpose == p then 1 else 0) {
        StepCounts(l, q, p);
      }
      if Sends(q.reply) {
        MatchesGrows(l, l', sent, q);
      }
    }
  }

  // ------------------------------------------------------------ whole runs

  lemma {:induction false} RunHasBudget(limits: Limits, qs: seq<Request>)
    ensures Run(Fresh(limits), qs).0.ledger.Some? && |Run(Fresh(limits), qs).1| == |qs|
    ensures Run(Fresh(limits), qs).0.ledger.value.limits == limits
  {
    if qs != [] {
      RunHasBudget(limits, qs[..|qs| - 1]);
    }
  }

  /** In every run the totals are the reservations' shares, rendered bytes stay under
      their ceiling, and no body above its safe limit reaches the wire. */
  lemma {:induction false} EveryRunIsSound(limits: Limits, qs: seq<Request>)
    ensures var s := Run(Fresh(limits), qs).0;
            s.ledger.Some? && Sound(s.ledger.value, s.sent)
  {
    if qs != [] {
      var before := qs[..|qs| - 1];
      RunHasBudget(limits, before);
      EveryRunIsSound(limits, before);
      StepKeepsBalance(Run(Fresh(limits), before).0.ledger.value, qs[|qs| - 1]);
    }
  }

  /** Every reservation is settled if and only if no call raised. */
  lemma {:induction false} AllSettledIffNoneRaised(limits: Limits, qs: seq<Request>)
    ensures Run(Fresh(limits), qs).0.ledger.Some?
    ensures AllSettled(Run(Fresh(limits), qs).0.ledger.value) <==> Raised !in Run(Fresh(limits), qs).1
  {
    if qs != [] {
      var before := qs[..|qs| - 1];
      var q := qs[|qs| - 1];
      RunHasBudget(limits, before);
      AllSettledIffNoneRaised(limits, before);
      var l := Run(Fresh(limits), before).0.ledger.value;
      StepReservesOnce(l, q);
      SettledAfter(l, StepLedger(l, q).0, q);
    }
  }

  lemma SettledAfter(l: Ledger, l': Ledger, q: Request)
    requires l'.reservations == l.reservations
          || l'.reservations ==
               l.reservations + [Reservation(q.meter, OutputReserve(q.maxOut), q.purpose, FateOf(q.reply))]
    ensures AllSettled(l') <==>
              AllSettled(l) && (l'.reservations == l.reservations || !q.reply.Broken?)
  {
    if AllSettled(l') {
      forall i | 0 <= i < |l.reservations| ensures !l.reservations[i].fate.Open? {
        assert l.reservations[i] == l'.reservations[i];
      }
      if l'.reservations != l.reservations {
        assert !l'.reservations[|l.reservations|].fate.Open?;
      }
    }
  }

  /** Where no call raised, the ledger is the wire: the totals are what the sent bodies
      cost, and a generation that was never sent is never counted. */
  lemma {:induction false} TheLedgerIsTheWire(limits: Limits, qs: seq<Request>)
    requires Raised !in Run(Fresh(limits), qs).1
    ensures var s := Run(Fresh(limits), qs).0;
            s.ledger.Some? && Matches(s.ledger.value, s.sent) && AllSettled(s.ledger.value)
  {
    AllSettledIffNoneRaised(limits, qs);
    if qs != [] {
      var before := qs[..|qs| - 1];
      var (s, answers) := Run(Fresh(limits), before);
      assert forall a | a in answers :: a in Run(Fresh(limits), qs).1;
      RunHasBudget(limits, before);
      TheLedgerIsTheWire(limits, before);
      EveryRunIsSound(limits, before);
      StepMatches(s.ledger.value, s.sent, qs[|qs| - 1]);
      assert s == System(Some(s.ledger.value), s.sent);
    }
  }

  /** Without a budget the gate still holds, but a failed dispatch raises instead of
      answering: the reconciliation of a failure is recorded on the missing budget. */
  lemma {:induction false} WithoutBudget(sent: seq<Request>, qs: seq<Request>)
    requires forall i :: 0 <= i < |sent| ==> FitsContext(sent[i])
    ensures var (s, answers) := Run(System(None, sent), qs);
            && s.ledger.None? && |answers| == |qs|
            && (forall i :: 0 <= i < |s.sent| ==> FitsContext(s.sent[i]))
            && (forall i :: 0 <= i < |qs| ==>
                  (answers[i] == Raised <==>
                     FitsContext(qs[i]) && (qs[i].reply.TooLarge? || qs[i].reply.HttpError? || qs[i].reply.Broken?)))
  {
    if qs != [] {
      WithoutBudget(sent, qs[..|qs| - 1]);
    }
  }

  // ------------------------------------------------------------- as objects

  /** `AttemptBudget`: running totals against ceilings. The reservations made are kept
      only for the proofs. */
  class AttemptBudget {
    const limits: Limits
    var totalInput: int
    var generated: int
    var renderedBytes: int
    var generationsByPurpose: map<string, nat>
    ghost var reservations: seq<Reservation>

    constructor (limits: Limits)
      ensures Some(View()) == Fresh(limits).ledger
    {
      this.limits := limits;
      totalInput, generated, renderedBytes := 0, 0, 0;
      generationsByPurpose := map[];
      reservations := [];
    }

    ghost function View(): Ledger
      reads this
    {
      Ledger(limits, totalInput, generated, renderedBytes, generationsByPurpose, reservations)
    }

    predicate ReserveRenderedBytes(count: nat)
      reads this
    {
      renderedBytes + count <= limits.maxBytes
    }

    predicate ReserveInput(count: nat)
      reads this
    {
      totalInput + count <= limits.maxInput
    }

    method ReserveGeneration(estimated: nat, reserve: nat, purpose: string, late: bool)
      returns (r: GenerationReservation?)
      modifies this
      ensures View() == Reserve(old(View()), estimated, reserve, purpose, late).0
      ensures (r == null) == Reserve(old(View()), estimated, reserve, purpose, late).1.None?
      ensures r != null ==> fresh(r) && r.Valid() && !r.consumed && r.budget == this
                            && Some(r.number) == Reserve(old(View()), estimated, reserve, purpose, late).1
    {
      if late {
        return null;
      }
      var projectedInput := totalInput + estimated;
      if projectedInput > limits.maxInput {
        return null;
      }
      var projectedGenerated := generated + reserve;
      if projectedGenerated > limits.maxGenerated {
        return null;
      }
      if projectedInput + projectedGenerated > limits.maxModel {
        return null;
      }
      totalInput := projectedInput;
      generated := projectedGenerated;
      reservations := reservations + [Reservation(estimated, reserve, purpose, Open)];
      r := new GenerationReservation(this, estimated, reserve, purpose, |reservations| - 1);
    }

    method RecordGeneration(purpose: string)
      modifies this`generationsByPurpose
      ensures View() == Counted(old(View()), purpose)
    {
      var count := if purpose in generationsByPurpose then generationsByPurpose[purpose] else 0;
      generationsByPurpose := generationsByPurpose[purpose := count + 1];
    }

    method RecordRenderedBytes(count: nat)
      modifies this`renderedBytes
      ensures View() == RecordBytes(old(View()), count)
    {
      renderedBytes := renderedBytes + Max(0, count);
    }
  }

  /** `GenerationReservation`: a single-use handle on reserved headroom. */
  class GenerationReservation {
    const budget: AttemptBudget
    const estimated: nat
    const reserve: nat
    const purpose: string
    ghost const number: nat
    var consumed: bool

    constructor (budget: AttemptBudget, estimated: nat, reserve: nat, purpose: string, ghost number: nat)
      requires number < |budget.reservations|
      requires budget.reservations[number] == Reservation(estimated, reserve, purpose, Open)
      ensures this.budget == budget && this.number == number && !consumed && Valid()
    {
      this.budget := budget;
      this.estimated := estimated;
      this.reserve := reserve;
      this.purpose := purpose;
      this.number := number;
      consumed := false;
    }

    ghost predicate Valid()
      reads this, budget
    {
      && number < |budget.reservations|
      && var r := budget.reservations[number];
         r.input == estimated && r.output == reserve && r.purpose == purpose && consumed == !r.fate.Open?
    }

    method Commit(input: int, output: int)
      requires Valid()
      modifies this`consumed, budget
      ensures Valid() && consumed
      ensures budget.View() == Settle(old(budget.View()), number, Committed(input, output))
    {
      if consumed {
        return;
      }
      consumed := true;
      budget.totalInput := Max(0, budget.totalInput - estimated);
      budget.generated := Max(0, budget.generated - reserve);
      budget.generated := budget.generated + Max(0, output);
      budget.totalInput := budget.totalInput + Max(0, input);
      budget.reservations :=
        budget.reservations[number := budget.reservations[number].(fate := Committed(input, output))];
      budget.RecordGeneration(purpose);
    }

    method Release()
      requires Valid()
      modifies this`consumed, budget
      ensures Valid() && consumed
      ensures budget.View() == Settle(old(budget.View()), number, Released)
    {
      if consumed {
        return;
      }
      consumed := true;
      budget.totalInput := Max(0, budget.totalInput - estimated);
      budget.generated := Max(0, budget.generated - reserve);
      budget.reservations := budget.reservations[number := budget.reservations[number].(fate := Released)];
    }

    method CommitEstimated()
      requires Valid()
      modifies this`consumed, budget
      ensures Valid() && consumed
      ensures budget.View() == Settle(old(budget.View()), number, Estimated)
    {
      if consumed {
        return;
      }
      consumed := true;
      budget.reservations := budget.reservations[number := budget.reservations[number].(fate := Estimated)];
      budget.RecordGeneration(purpose);
    }
  }

  /** What `dispatch` hands back: an answer already given, or a response still to be
      decoded. */
  datatype Dispatched = Ended(answer: Answer) | Response

  /** `GenerationSeam`, holding the bodies its transport was given. */
  class GenerationSeam {
    var sent: seq<Request>

    constructor ()
      ensures sent == []
    {
      sent := [];
    }

    static ghost function LedgerOf(budget: AttemptBudget?): Option<Ledger>
      reads budget
    {
      if budget == null then None else Some(budget.View())
    }

    /** `_reconcile_failed_reservation`; false when the missing budget makes it raise. */
    static method ReconcileFailed(budget: AttemptBudget?, r: GenerationReservation?, bytes: nat)
      returns (ok: bool)
      requires (r == null) == (budget == null)
      requires r != null ==> r.Valid() && r.budget == budget
      modifies r, budget
      ensures ok == (budget != null)
      ensures budget != null ==>
                budget.View() == RecordBytes(Settle(old(budget.View()), r.number, Estimated), bytes)
    {
      if r != null {
        r.CommitEstimated();
      }
      if budget == null {
        return false;
      }
      budget.RecordRenderedBytes(bytes);
      ok := true;
    }

    /** `finalize_reservation` */
    static method Finalize(usage: Option<Usage>, r: GenerationReservation?)
      requires r != null ==> r.Valid()
      modifies r, if r == null then {} else {r.budget}
      ensures r != null ==> r.Valid()
                            && r.budget.View() == Settle(old(r.budget.View()), r.number, FateOf(Decoded(usage)))
    {
      if r == null {
        return;
      }
      match usage {
        case None => r.CommitEstimated();
        case Some(u) => r.Commit(u.input, u.output);
      }
    }

    /** `dispatch`: on success the reservation comes back still open. */
    method Dispatch(budget: AttemptBudget?, q: Request) returns (d: Dispatched, r: GenerationReservation?)
      requires FitsContext(q)
      modifies this, budget
      ensures r != null ==> d.Response? && fresh(r) && r.Valid() && !r.consumed && r.budget == budget
      ensures budget == null ==> r == null
      ensures d.Response? <==> (q.reply.BadJson? || q.reply.Decoded?)
                               && (budget == null || Turned(old(budget.View()), q).None?)
      ensures d.Ended? ==>
                (System(LedgerOf(budget), sent), d.answer) == Step(System(old(LedgerOf(budget)), old(sent)), q)
      ensures d.Response? ==> sent == old(sent) + [q]
      ensures d.Response? && budget != null ==>
                r != null && var held := Reserve(old(budget.View()), q.meter, OutputReserve(q.maxOut), q.purpose, q.late);
                budget.View() == held.0 && held.1 == Some(r.number)
    {
      r := null;
      if budget != null {
        if !budget.ReserveRenderedBytes(q.bytes) {
          return Ended(BytesExhausted), null;
        }
        if !budget.ReserveInput(q.meter) {
          return Ended(InputExhausted), null;
        }
        r := budget.ReserveGeneration(q.meter, OutputReserve(q.maxOut), q.purpose, q.late);
        if r == null {
          return Ended(BudgetExhausted), null;
        }
      }
      match q.reply {
        case Refused =>
          if r != null {
            r.Release();
          }
          return Ended(NoSlot), null;
        case Broken(onTheWire) =>
          if onTheWire {
            sent := sent + [q];
          }
          return Ended(Raised), null;
        case TooLarge =>
          sent := sent + [q];
          var ok := ReconcileFailed(budget, r, q.bytes);
          return Ended(if ok then Failed else Raised), null;
        case HttpError =>
          sent := sent + [q];
          var ok := ReconcileFailed(budget, r, q.bytes);
          return Ended(if ok then Failed else Raised), null;
        case BadJson =>
          sent := sent + [q];
          d := Response;
        case Decoded(_) =>
          sent := sent + [q];
          d := Response;
      }
    }

    /** `run_step` */
    method RunStep(budget: AttemptBudget?, q: Request) returns (a: Answer)
      modifies this, budget
      ensures (System(LedgerOf(budget), sent), a) == Step(System(old(LedgerOf(budget)), old(sent)), q)
    {
      if q.safeLimit != 0 && q.meter + OutputReserve(q.maxOut) > q.safeLimit {
        return ContextLimit;
      }
      var d, r := Dispatch(budget, q);
      if d.Ended? {
        return d.answer;
      }
      if q.reply.BadJson? {
        if r != null {
          r.CommitEstimated();
          r.budget.RecordRenderedBytes(q.bytes);
        }
        return Failed;
      }
      if r != null {
        Finalize(q.reply.usage, r);
        r.budget.RecordRenderedBytes(q.bytes);
      }
      a := Done;
    }
  }
}
