/** The per-request budget of model generations and the one seam every generation goes
    through: reserve an estimate, dispatch, settle the estimate exactly once. */
module GenerationLedger {
  import opened Numbers
  import opened Wrappers

  /** What became of a reservation. */
  datatype Fate =
    | Open
    | Committed(input: int, output: int)   // replaced by the backend's actual usage
    | Estimated                            // kept: the backend may have spent it
    | Released                             // nothing was sent

  datatype Reservation = Reservation(input: nat, output: nat, purpose: string, fate: Fate)

  datatype Limits = Limits(maxInput: int, maxGenerated: int, maxModel: int, maxBytes: int)

  /** The budget's running totals, and every reservation ever made against it. */
  datatype Ledger = Ledger(
    limits: Limits,
    input: int,
    generated: int,
    bytes: int,
    generations: map<string, nat>,
    reservations: seq<Reservation>)

  function Generations(l: Ledger, purpose: string): nat {
    if purpose in l.generations then l.generations[purpose] else 0
  }

  function Counted(l: Ledger, purpose: string): Ledger {
    l.(generations := l.generations[purpose := Generations(l, purpose) + 1])
  }

  // -------------------------------------------------------------- operations

  /** `reserve_generation`: the ledger and the number of the new reservation. */
  function Reserve(l: Ledger, input: nat, output: nat, purpose: string, late: bool): (Ledger, Option<nat>) {
    if late || l.input + input > l.limits.maxInput || l.generated + output > l.limits.maxGenerated
       || (l.input + input) + (l.generated + output) > l.limits.maxModel
    then (l, None)
    else
      (l.(input := l.input + input, generated := l.generated + output,
          reservations := l.reservations + [Reservation(input, output, purpose, Open)]),
       Some(|l.reservations|))
  }

  /** `commit`, `release` and `commit_estimated`: the first call on a reservation wins,
      every later one does nothing. */
  function Settle(l: Ledger, i: nat, fate: Fate): Ledger
    requires i < |l.reservations|
  {
    var r := l.reservations[i];
    if !r.fate.Open? || fate.Open? then l
    else
      var closed := l.(reservations := l.reservations[i := r.(fate := fate)]);
      match fate
      case Committed(input, output) =>
        Counted(closed.(input := Max(0, l.input - r.input) + Max(0, input),
                        generated := Max(0, l.generated - r.output) + Max(0, output)), r.purpose)
      case Estimated => Counted(closed, r.purpose)
      case Released => closed.(input := Max(0, l.input - r.input), generated := Max(0, l.generated - r.output))
  }

  function RecordBytes(l: Ledger, n: nat): Ledger { l.(bytes := l.bytes + n) }

  // ------------------------------------------------------------ conservation

  /** What a reservation contributes to the input total, and to the output total. */
  function InputCharge(r: Reservation): int {
    match r.fate
    case Open => r.input
    case Committed(input, _) => Max(0, input)
    case Estimated => r.input
    case Released => 0
  }

  function OutputCharge(r: Reservation): int {
    match r.fate
    case Open => r.output
    case Committed(_, output) => Max(0, output)
    case Estimated => r.output
    case Released => 0
  }

  function InputSum(rs: seq<Reservation>): (n: int)
    ensures n >= 0
  {
    if rs == [] then 0 else InputCharge(rs[0]) + InputSum(rs[1..])
  }

  function OutputSum(rs: seq<Reservation>): (n: int)
    ensures n >= 0
  {
    if rs == [] then 0 else OutputCharge(rs[0]) + OutputSum(rs[1..])
  }

  /** How many generations of a purpose happened, or may have. */
  function Happened(rs: seq<Reservation>, purpose: string): nat {
    if rs == [] then 0
    else (if rs[0].purpose == purpose && (rs[0].fate.Committed? || rs[0].fate.Estimated?) then 1 else 0)
         + Happened(rs[1..], purpose)
  }

  /** The totals are the sum of what each reservation contributes: an open one its
      estimate, a committed one its actual usage, a released one nothing. */
  ghost predicate Balanced(l: Ledger) {
    && l.input == InputSum(l.reservations)
    && l.generated == OutputSum(l.reservations)
    && forall p :: Generations(l, p) == Happened(l.reservations, p)
  }

  lemma {:induction false} SumsConcat(a: seq<Reservation>, b: seq<Reservation>, p: string)
    ensures InputSum(a + b) == InputSum(a) + InputSum(b)
    ensures OutputSum(a + b) == OutputSum(a) + OutputSum(b)
    ensures Happened(a + b, p) == Happened(a, p) + Happened(b, p)
  {
    if a == [] {
      assert a + b == b;
    } else {
      assert (a + b)[1..] == a[1..] + b;
      SumsConcat(a[1..], b, p);
    }
  }

  lemma SumsSingle(r: Reservation, p: string)
    ensures InputSum([r]) == InputCharge(r) && OutputSum([r]) == OutputCharge(r)
    ensures Happened([r], p) == if r.purpose == p && (r.fate.Committed? || r.fate.Estimated?) then 1 else 0
  {
    assert [r][1..] == [];
  }

  /** Replacing one reservation moves each sum by the difference of its own share. */
  lemma SumsUpdate(rs: seq<Reservation>, i: nat, r: Reservation, p: string)
    requires i < |rs|
    ensures InputSum(rs[i := r]) == InputSum(rs) - InputCharge(rs[i]) + InputCharge(r)
    ensures OutputSum(rs[i := r]) == OutputSum(rs) - OutputCharge(rs[i]) + OutputCharge(r)
    ensures Happened(rs[i := r], p) == Happened(rs, p) - Happened([rs[i]], p) + Happened([r], p)
    ensures InputSum(rs) >= InputCharge(rs[i]) && OutputSum(rs) >= OutputCharge(rs[i])
  {
    var (a, b) := (rs[..i], rs[i + 1..]);
    assert rs == a + ([rs[i]] + b);
    assert rs[i := r] == a + ([r] + b);
    SumsConcat(a, [rs[i]] + b, p);
    SumsConcat(a, [r] + b, p);
    SumsConcat([rs[i]], b, p);
    SumsConcat([r], b, p);
    SumsSingle(rs[i], p);
    SumsSingle(r, p);
  }

  lemma ReserveKeepsBalance(l: Ledger, input: nat, output: nat, purpose: string, late: bool)
    requires Balanced(l)
    ensures var (l', i) := Reserve(l, input, output, purpose, late);
            Balanced(l') && (i.Some? ==> l'.input <= l.limits.maxInput && l'.generated <= l.limits.maxGenerated
                                         && l'.input + l'.generated <= l.limits.maxModel)
  {
    var r := Reservation(input, output, purpose, Open);
    var (l', i) := Reserve(l, input, output, purpose, late);
    if i.Some? {
      forall p ensures Happened(l'.reservations, p) == Happened(l.reservations, p)
                    && InputSum(l'.reservations) == l.input + input && OutputSum(l'.reservations) == l.generated + output {
        SumsConcat(l.reservations, [r], p);
        SumsSingle(r, p);
      }
      forall p ensures Generations(l', p) == Happened(l'.reservations, p) {
        assert Generations(l', p) == Generations(l, p);
      }
      assert InputSum(l'.reservations) == l.input + input && OutputSum(l'.reservations) == l.generated + output by {
        SumsConcat(l.reservations, [r], "");
        SumsSingle(r, "");
      }
    }
  }

  /** Settling keeps the balance, and subtracting the estimate never goes below zero: the
      totals always contain it. */
  lemma SettleKeepsBalance(l: Ledger, i: nat, fate: Fate)
    requires Balanced(l) && i < |l.reservations|
    ensures Balanced(Settle(l, i, fate))
    ensures l.reservations[i].fate.Open? ==>
              l.input >= l.reservations[i].input && l.generated >= l.reservations[i].output
  {
    var r := l.reservations[i];
    var l' := Settle(l, i, fate);
    SumsUpdate(l.reservations, i, r.(fate := fate), "");
    forall p ensures Generations(l', p) == Happened(l'.reservations, p) {
      SumsUpdate(l.reservations, i, r.(fate := fate), p);
      SumsSingle(r, p);
      SumsSingle(r.(fate := fate), p);
    }
  }

  /** Settling twice is settling once, whatever the two calls are. */
  lemma FirstSettlementWins(l: Ledger, i: nat, first: Fate, second: Fate)
    requires i < |l.reservations| && !first.Open?
    ensures Settle(Settle(l, i, first), i, second) == Settle(l, i, first)
    ensures l.reservations[i].fate.Open? ==> Settle(l, i, first).reservations[i].fate == first
  {
  }
}
