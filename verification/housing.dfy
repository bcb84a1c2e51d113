/**
 * The housing financing simulator: a constant-amortization schedule whose
 * outstanding balance is first corrected by the referential rate (TR) each
 * month, then charged the effective total cost (CET), then amortized by the
 * corrected balance divided by the months still to go.
 *
 * Rates are monthly here; the conversion from the annual rates is not part of
 * this model.
 */
module Housing {
  import opened Wrappers
  import opened Series

  /** Balances at or below this are treated as paid off. */
  const Tolerance: real := 0.005
  /** Closing balances of smaller magnitude are snapped to zero. */
  const Snap: real := 0.01

  /** Why a simulation was refused, one reason per validated input. */
  datatype InputError =
    | NegativeCet            // the CET rate is negative
    | NonPositiveTerm        // the number of months is not positive
    | NonPositivePrice       // the price of the property is not positive
    | DownPaymentOutOfRange  // the down-payment fraction is outside [0, 1]
    | NegativeTr             // the TR rate is negative

  /** One row of the schedule. */
  datatype MonthRecord = MonthRecord(
    month: int,          // 1 .. term
    opening: real,       // balance at the start of the month
    correction: real,    // TR correction charged on the opening balance
    corrected: real,     // balance after correction, clamped and normalised
    interest: real,      // CET interest on the corrected balance
    amortization: real,  // principal repaid this month
    installment: real,   // interest plus amortization
    closing: real)       // balance carried to the next month

  /** Result of a simulation: refused, or a schedule (empty when fully paid in cash). */
  datatype Simulation =
    | Rejected(error: InputError)
    | Simulated(entry: real, financed: real, records: seq<MonthRecord>)

  /** The per-month columns the cumulative columns and totals are taken from. */
  datatype Field = Correction | Interest | Amortization | Installment

  /** The table handed to the renderer: the records and their running totals. */
  datatype Table = Table(
    records: seq<MonthRecord>,
    cumInterest: seq<real>,
    cumAmortization: seq<real>,
    cumCorrection: seq<real>)

  /** Totals printed after the table. */
  datatype Totals = Totals(installments: real, paid: real, ratio: real)

  // ---------------------------------------------------------------------------
  // Validation and the financed amount

  /**
   * The first input check that fails, in the order the simulator makes them,
   * or None when every input is in range.
   */
  function Validate(cet: real, t: int, price: real, downFraction: real, tr: real): (e: Option<InputError>)
    ensures e == None <==>
              0.0 <= cet && 0 < t && 0.0 < price && 0.0 <= downFraction <= 1.0 && 0.0 <= tr
    ensures e == Some(NegativeCet) <==> cet < 0.0
    ensures e == Some(NonPositiveTerm) <==> 0.0 <= cet && t <= 0
    ensures e == Some(NonPositivePrice) <==> 0.0 <= cet && 0 < t && price <= 0.0
    ensures e == Some(DownPaymentOutOfRange) <==>
              0.0 <= cet && 0 < t && 0.0 < price && !(0.0 <= downFraction <= 1.0)
    ensures e == Some(NegativeTr) <==>
              0.0 <= cet && 0 < t && 0.0 < price && 0.0 <= downFraction <= 1.0 && tr < 0.0
  {
    if cet < 0.0 then Some(NegativeCet)
    else if t <= 0 then Some(NonPositiveTerm)
    else if price <= 0.0 then Some(NonPositivePrice)
    else if !(0.0 <= downFraction <= 1.0) then Some(DownPaymentOutOfRange)
    else if tr < 0.0 then Some(NegativeTr)
    else None
  }

  /**
   * The amount financed once the down payment is taken off a validated price:
   * it lies between zero and the price, and is zero exactly when the down
   * payment covers the whole price.
   */
  function Financed(price: real, downFraction: real): (pv: real)
    requires 0.0 < price && 0.0 <= downFraction <= 1.0
    ensures pv + price * downFraction == price
    ensures 0.0 <= pv <= price
    ensures pv == 0.0 <==> downFraction == 1.0
  {
    var entry := price * downFraction;
    assert price - entry == price * (1.0 - downFraction);
    assert 0.0 <= price * downFraction <= price * 1.0;
    price - entry
  }

  // ---------------------------------------------------------------------------
  // One month of the schedule

  function Abs(x: real): real
  {
    if x < 0.0 then -x else x
  }

  /**
   * Month i of a t-month schedule that opens with the given balance: the
   * correction, clamp, interest, recomputed amortization, snap to zero and
   * final-month settlement, in the order the simulator applies them.
   */
  function Month(i: int, t: int, opening: real, cet: real, tr: real): (r: MonthRecord)
    requires 1 <= i <= t
    ensures r.month == i && r.opening == opening
    ensures r.installment == r.interest + r.amortization
    ensures opening <= Tolerance ==> r.correction == 0.0 && r.corrected == 0.0
    ensures Tolerance < opening ==> r.correction == opening * tr
    ensures Tolerance < opening && 0.0 <= tr ==> r.corrected == opening + r.correction
    ensures r.corrected == 0.0 || Tolerance < r.corrected
    ensures r.corrected == 0.0 ==> r.interest == 0.0 && r.amortization == 0.0 && r.closing == 0.0
    ensures 0.0 < r.corrected ==>
              r.interest == r.corrected * cet &&
              r.amortization * (t - i + 1) as real == r.corrected
    ensures cet == 0.0 ==> r.interest == 0.0
    ensures r.closing == 0.0 || Snap <= r.closing
    ensures r.closing <= r.corrected
    ensures r.closing == r.corrected - r.amortization ||
            (r.closing == 0.0 && 0.0 <= r.corrected - r.amortization < Snap)
    ensures i == t ==> r.closing == 0.0
  {
    // TR correction of the opening balance, clamped at zero
    var correction := if opening <= Tolerance then 0.0 else opening * tr;
    var afterTr := if opening <= Tolerance then 0.0 else opening + correction;
    var clamped := if afterTr < 0.0 then 0.0 else afterTr;
    // CET interest on the corrected balance; residues are normalised to zero
    var interest := if clamped <= Tolerance then 0.0 else clamped * cet;
    var corrected := if clamped <= Tolerance then 0.0 else clamped;
    // amortization recomputed against the months still to go
    var remaining := t - i + 1;
    var amortization :=
      if corrected <= 0.0 then 0.0
      else if remaining > 0 then corrected / remaining as real
      else corrected;
    var installment := amortization + interest;
    var rawClosing := corrected - amortization;
    assert 0.0 < corrected ==> 0.0 <= rawClosing && (i == t ==> rawClosing == 0.0) by {
      if 0.0 < corrected {
        assert amortization * remaining as real == corrected;
        assert amortization <= amortization * remaining as real;
      }
    }
    var closing := if Abs(rawClosing) < Snap then 0.0 else rawClosing;
    // the last month must close at zero
    if i == t && closing != 0.0 then
      var settled := if corrected > 0.0 then corrected else amortization;
      var settledInstallment := if corrected > 0.0 then settled + interest else installment;
      MonthRecord(i, opening, correction, corrected, interest, settled, settledInstallment, 0.0)
    else
      MonthRecord(i, opening, correction, corrected, interest, amortization, installment, closing)
  }

  /** An all-zero record, as written for the months after an early payoff. */
  function ZeroRecord(month: int): MonthRecord
  {
    MonthRecord(month, 0.0, 0.0, 0.0, 0.0, 0.0, 0.0, 0.0)
  }

  /** The all-zero record is exactly what a month computes on a zero balance. */
  lemma ZeroRecordIsMonth(j: int, t: int, cet: real, tr: real)
    requires 1 <= j <= t
    ensures ZeroRecord(j) == Month(j, t, 0.0, cet, tr)
  {
  }

  // ---------------------------------------------------------------------------
  // The schedule

  /** Zero records for months a .. t. */
  function Zeros(a: int, t: int): (z: seq<MonthRecord>)
    requires a <= t + 1
    ensures |z| == t - a + 1
    ensures forall k :: 0 <= k < |z| ==> z[k] == ZeroRecord(a + k)
  {
    seq(t - a + 1, k requires 0 <= k < t - a + 1 => ZeroRecord(a + k))
  }

  /**
   * Months i .. t of the schedule, month i opening with the given balance.  A
   * month that closes at or below the tolerance before the last month ends the
   * computation: the remaining months are zero records.
   */
  function Months(i: int, t: int, opening: real, cet: real, tr: real): seq<MonthRecord>
    requires 1 <= i <= t + 1
    decreases t - i + 1
  {
    if i > t then []
    else
      var r := Month(i, t, opening, cet, tr);
      if r.closing <= Tolerance && i < t then [r] + Zeros(i + 1, t)
      else [r] + Months(i + 1, t, r.closing, cet, tr)
  }

  /**
   * The whole simulation as a value: the first failed input check, or the
   * down payment, the financed amount and the schedule, which is empty when
   * nothing is financed.
   */
  function HouseSimulation(cet: real, t: int, price: real, downFraction: real, tr: real): Simulation
  {
    match Validate(cet, t, price, downFraction, tr)
    case Some(e) => Rejected(e)
    case None =>
      var pv := Financed(price, downFraction);
      if pv == 0.0 then Simulated(price * downFraction, pv, [])
      else Simulated(price * downFraction, pv, Months(1, t, pv, cet, tr))
  }

  /**
   * One pass of the month loop's body: month i of t, opening with the given
   * balance, computed by the same sequence of updates as the simulator.
   */
  method CloseMonth(i: int, t: int, opening: real, cet: real, tr: real) returns (r: MonthRecord)
    requires 1 <= i <= t
    ensures r == Month(i, t, opening, cet, tr)
  {
    ghost var m := Month(i, t, opening, cet, tr);
    // 1. TR correction, clamped at zero
    var correction, corrected;
    if opening <= Tolerance {
      correction, corrected := 0.0, 0.0;
    } else {
      correction := opening * tr;
      corrected := opening + correction;
    }
    if corrected < 0.0 {
      corrected := 0.0;
    }
    assert correction == m.correction;
    // 2. CET interest; a residual balance is normalised to zero
    var interest;
    if corrected <= Tolerance {
      interest := 0.0;
      corrected := 0.0;
    } else {
      interest := corrected * cet;
    }
    assert interest == m.interest && corrected == m.corrected;
    // 3. amortization against the months still to go
    var amortization;
    if corrected <= 0.0 {
      amortization := 0.0;
    } else {
      var remaining := t - i + 1;
      if remaining > 0 {
        amortization := corrected / remaining as real;
      } else {
        amortization := corrected;
      }
    }
    var installment := amortization + interest;
    // 4. closing balance, snapped to zero, and settled in the last month
    var closing := corrected - amortization;
    if Abs(closing) < Snap {
      closing := 0.0;
    }
    if i == t && closing != 0.0 {
      if corrected > 0.0 {
        amortization := corrected;
        installment := amortization + interest;
      }
      closing := 0.0;
    }
    r := MonthRecord(i, opening, correction, corrected, interest, amortization, installment, closing);
  }

  lemma MonthsUnfold(i: int, t: int, opening: real, cet: real, tr: real)
    requires 1 <= i <= t
    ensures var r := Month(i, t, opening, cet, tr);
            Months(i, t, opening, cet, tr) ==
              [r] + if r.closing <= Tolerance && i < t then Zeros(i + 1, t)
                    else Months(i + 1, t, r.closing, cet, tr)
  {
  }

  lemma ZerosCons(j: int, t: int)
    requires j <= t
    ensures Zeros(j, t) == [ZeroRecord(j)] + Zeros(j + 1, t)
  {
  }

  /** The early-payoff tail: appends a zero record for each month a .. t. */
  method FillZeros(records: seq<MonthRecord>, a: int, t: int) returns (filled: seq<MonthRecord>)
    requires a <= t + 1
    ensures filled == records + Zeros(a, t)
  {
    filled := records;
    var j := a;
    while j <= t
      invariant a <= j <= t + 1
      invariant filled + Zeros(j, t) == records + Zeros(a, t)
    {
      ZerosCons(j, t);
      assert (filled + [ZeroRecord(j)]) + Zeros(j + 1, t) == filled + Zeros(j, t);
      filled := filled + [ZeroRecord(j)];
      j := j + 1;
    }
    assert Zeros(j, t) == [];
  }

  /**
   * The month loop: closes months 1 .. t from the financed amount, stopping
   * with zero records once the balance is paid off early.
   */
  method RunMonths(t: int, financed: real, cet: real, tr: real) returns (records: seq<MonthRecord>)
    requires 1 <= t
    ensures records == Months(1, t, financed, cet, tr)
  {
    ghost var schedule := Months(1, t, financed, cet, tr);
    var current := financed;
    records := [];
    var i := 1;
    while i <= t
      invariant 1 <= i <= t + 1
      invariant records + Months(i, t, current, cet, tr) == schedule
    {
      var r := CloseMonth(i, t, current, cet, tr);
      MonthsUnfold(i, t, current, cet, tr);
      ghost var before := records;
      records := records + [r];
      current := r.closing;
      if current <= Tolerance && i < t {
        assert records + Zeros(i + 1, t) == schedule by {
          assert before + ([r] + Zeros(i + 1, t)) == schedule;
        }
        records := FillZeros(records, i + 1, t);
        break;
      }
      assert records + Months(i + 1, t, current, cet, tr) == schedule by {
        assert before + ([r] + Months(i + 1, t, current, cet, tr)) == schedule;
      }
      i := i + 1;
    }
    assert records == schedule;
  }

  /** The simulator: validation, the financed amount, then the month loop. */
  method SimulateHouse(cet: real, t: int, price: real, downFraction: real := 0.0, tr: real := 0.0)
    returns (result: Simulation)
    ensures result == HouseSimulation(cet, t, price, downFraction, tr)
  {
    var error := Validate(cet, t, price, downFraction, tr);
    if error.Some? {
      return Rejected(error.value);
    }
    var entry := price * downFraction;
    var pv := price - entry;
    if pv == 0.0 {
      return Simulated(entry, pv, []);
    }
    var records := RunMonths(t, pv, cet, tr);
    result := Simulated(entry, pv, records);
  }

  // ---------------------------------------------------------------------------
  // Properties of the schedule

  /** Months i .. t has one record per month. */
  lemma {:induction false} MonthsLength(i: int, t: int, opening: real, cet: real, tr: real)
    requires 1 <= i <= t + 1
    ensures |Months(i, t, opening, cet, tr)| == t - i + 1
    decreases t - i + 1
  {
    if i <= t {
      var r := Month(i, t, opening, cet, tr);
      if !(r.closing <= Tolerance && i < t) {
        MonthsLength(i + 1, t, r.closing, cet, tr);
      }
    }
  }

  /**
   * The bookkeeping every schedule keeps: consecutive month numbers from
   * `first`, installment = interest + amortization on every row, each month
   * opening with the previous month's closing balance, the first opening with
   * `opening`, and the last row closing at zero.
   */
  ghost predicate Chained(s: seq<MonthRecord>, first: int, opening: real)
  {
    (forall k :: 0 <= k < |s| ==> s[k].month == first + k) &&
    (forall k :: 0 <= k < |s| ==> s[k].installment == s[k].interest + s[k].amortization) &&
    (forall k :: 0 < k < |s| ==> s[k].opening == s[k - 1].closing) &&
    (s != [] ==> s[0].opening == opening && s[|s| - 1].closing == 0.0)
  }

  lemma ZerosChained(a: int, t: int)
    requires a <= t + 1
    ensures Chained(Zeros(a, t), a, 0.0)
  {
  }

  /** Prepending a record that opens the chain keeps it chained. */
  lemma ChainedCons(r: MonthRecord, rest: seq<MonthRecord>, first: int, opening: real)
    requires r.month == first && r.opening == opening
    requires r.installment == r.interest + r.amortization
    requires Chained(rest, first + 1, r.closing)
    requires rest == [] ==> r.closing == 0.0
    ensures Chained([r] + rest, first, opening)
  {
    var s := [r] + rest;
    assert forall k :: 0 < k < |s| ==> s[k] == rest[k - 1];
  }

  /** Months i .. t keep the schedule's bookkeeping, early payoff or not. */
  lemma {:induction false} MonthsChained(i: int, t: int, opening: real, cet: real, tr: real)
    requires 1 <= i <= t + 1
    ensures Chained(Months(i, t, opening, cet, tr), i, opening)
    decreases t - i + 1
  {
    if i <= t {
      var r := Month(i, t, opening, cet, tr);
      MonthsUnfold(i, t, opening, cet, tr);
      if r.closing <= Tolerance && i < t {
        ZerosChained(i + 1, t);
        ChainedCons(r, Zeros(i + 1, t), i, opening);
      } else {
        MonthsChained(i + 1, t, r.closing, cet, tr);
        MonthsLength(i + 1, t, r.closing, cet, tr);
        ChainedCons(r, Months(i + 1, t, r.closing, cet, tr), i, opening);
      }
    }
  }

  /** `r` is what the step of month m computes from its own opening balance. */
  ghost predicate IsStep(r: MonthRecord, m: int, t: int, cet: real, tr: real)
  {
    1 <= m <= t && r == Month(m, t, r.opening, cet, tr)
  }

  /** Row k of `s` is the step of month first + k. */
  ghost predicate AllSteps(s: seq<MonthRecord>, first: int, t: int, cet: real, tr: real)
  {
    forall k :: 0 <= k < |s| ==> IsStep(s[k], first + k, t, cet, tr)
  }

  /** Prepending the step for month `first` keeps every row a step. */
  lemma StepsCons(r: MonthRecord, rest: seq<MonthRecord>, first: int, t: int, cet: real, tr: real)
    requires IsStep(r, first, t, cet, tr)
    requires AllSteps(rest, first + 1, t, cet, tr)
    ensures AllSteps([r] + rest, first, t, cet, tr)
  {
    var s := [r] + rest;
    forall k | 0 < k < |s| ensures IsStep(s[k], first + k, t, cet, tr) {
      assert s[k] == rest[k - 1];
      assert first + 1 + (k - 1) == first + k;
    }
  }

  lemma ZerosAreSteps(a: int, t: int, cet: real, tr: real)
    requires 1 <= a <= t + 1
    ensures AllSteps(Zeros(a, t), a, t, cet, tr)
  {
    var z := Zeros(a, t);
    forall k | 0 <= k < |z| ensures IsStep(z[k], a + k, t, cet, tr) {
      ZeroRecordIsMonth(a + k, t, cet, tr);
    }
  }

  /**
   * Every record of months i .. t, the zero records of an early payoff
   * included, is what the month step computes from that record's opening
   * balance; so every property of `Month` holds of every row.
   */
  lemma {:induction false} MonthsAreSteps(i: int, t: int, opening: real, cet: real, tr: real)
    requires 1 <= i <= t + 1
    ensures AllSteps(Months(i, t, opening, cet, tr), i, t, cet, tr)
    decreases t - i + 1
  {
    if i <= t {
      var r := Month(i, t, opening, cet, tr);
      MonthsUnfold(i, t, opening, cet, tr);
      if r.closing <= Tolerance && i < t {
        ZerosAreSteps(i + 1, t, cet, tr);
        StepsCons(r, Zeros(i + 1, t), i, t, cet, tr);
      } else {
        MonthsAreSteps(i + 1, t, r.closing, cet, tr);
        StepsCons(r, Months(i + 1, t, r.closing, cet, tr), i, t, cet, tr);
      }
    }
  }

  /**
   * Once a month closes at or below the tolerance, every later month is a zero
   * record.
   */
  lemma {:induction false} MonthsEarlyPayoff(i: int, t: int, opening: real, cet: real, tr: real)
    requires 1 <= i <= t + 1
    ensures var s := Months(i, t, opening, cet, tr);
            forall k, m :: 0 <= k < m < |s| && s[k].closing <= Tolerance ==> s[m] == ZeroRecord(i + m)
    decreases t - i + 1
  {
    if i <= t {
      var s := Months(i, t, opening, cet, tr);
      var r := Month(i, t, opening, cet, tr);
      var rest;
      if r.closing <= Tolerance && i < t {
        rest := Zeros(i + 1, t);
      } else {
        rest := Months(i + 1, t, r.closing, cet, tr);
        MonthsEarlyPayoff(i + 1, t, r.closing, cet, tr);
        MonthsLength(i + 1, t, r.closing, cet, tr);
      }
      assert s == [r] + rest;
      forall k, m | 0 <= k < m < |s| && s[k].closing <= Tolerance
        ensures s[m] == ZeroRecord(i + m)
      {
        assert s[m] == rest[m - 1];
        if 0 < k {
          assert s[k] == rest[k - 1];
        }
      }
    }
  }

  /** The values of one column of a schedule. */
  function Get(r: MonthRecord, f: Field): real
  {
    match f
    case Correction => r.correction
    case Interest => r.interest
    case Amortization => r.amortization
    case Installment => r.installment
  }

  function Column(s: seq<MonthRecord>, f: Field): (c: seq<real>)
    ensures |c| == |s|
    ensures forall k :: 0 <= k < |s| ==> c[k] == Get(s[k], f)
  {
    seq(|s|, k requires 0 <= k < |s| => Get(s[k], f))
  }

  lemma ColumnCons(r: MonthRecord, rest: seq<MonthRecord>, f: Field)
    ensures Column([r] + rest, f) == [Get(r, f)] + Column(rest, f)
  {
  }

  lemma ZerosSum(a: int, t: int, f: Field)
    requires a <= t + 1
    ensures Sum(Column(Zeros(a, t), f)) == 0.0
  {
    SumZeros(Column(Zeros(a, t), f));
  }

  /**
   * Conservation of the balance: the principal repaid over months i .. t is the
   * opening balance plus every TR correction charged, less what the snaps to
   * zero dropped, which is under one cent in total.
   */
  lemma {:induction false} MonthsRepayBalance(i: int, t: int, opening: real, cet: real, tr: real)
    requires 1 <= i <= t
    requires 0.0 <= opening && 0.0 <= tr
    ensures var s := Months(i, t, opening, cet, tr);
            0.0 <= opening + Sum(Column(s, Correction)) - Sum(Column(s, Amortization)) < Snap
    decreases t - i + 1
  {
    var s := Months(i, t, opening, cet, tr);
    var r := Month(i, t, opening, cet, tr);
    var rest;
    if r.closing <= Tolerance && i < t {
      rest := Zeros(i + 1, t);
      ZerosSum(i + 1, t, Correction);
      ZerosSum(i + 1, t, Amortization);
    } else {
      rest := Months(i + 1, t, r.closing, cet, tr);
      if i < t {
        MonthsRepayBalance(i + 1, t, r.closing, cet, tr);
      }
    }
    // what this month leaves of the balance and of the rest of the schedule
    var left := r.corrected - r.amortization;
    var restLeft := Sum(Column(rest, Correction)) - Sum(Column(rest, Amortization));
    if r.closing == 0.0 {
      assert 0.0 <= left < Snap;
      assert restLeft == 0.0;
    } else {
      assert left == r.closing;
      assert 0.0 <= r.closing + restLeft < Snap;
    }
    if opening <= Tolerance {
      assert r.closing == 0.0 && r.correction == 0.0 && left == 0.0;
    } else {
      assert r.corrected == opening + r.correction;
    }
    assert s == [r] + rest;
    ColumnCons(r, rest, Correction);
    ColumnCons(r, rest, Amortization);
    SumCons(r.correction, Column(rest, Correction));
    SumCons(r.amortization, Column(rest, Amortization));
  }

  /** With a zero CET no month charges interest. */
  lemma ZeroCetNoInterest(i: int, t: int, opening: real, tr: real)
    requires 1 <= i <= t + 1
    ensures var s := Months(i, t, opening, 0.0, tr);
            forall k :: 0 <= k < |s| ==> s[k].interest == 0.0
  {
    var s := Months(i, t, opening, 0.0, tr);
    MonthsAreSteps(i, t, opening, 0.0, tr);
    forall k | 0 <= k < |s| ensures s[k].interest == 0.0 {
      assert s[k] == Month(i + k, t, s[k].opening, 0.0, tr);
    }
  }

  /**
   * With zero rates, a month opening with `share` times the months to go
   * repays exactly `share` and charges no interest.
   */
  lemma ZeroRatesMonth(i: int, t: int, opening: real, share: real)
    requires 1 <= i <= t
    requires opening == share * (t - i + 1) as real && Snap <= share
    ensures var r := Month(i, t, opening, 0.0, 0.0);
            r.interest == 0.0 && r.amortization == share && r.installment == share &&
            r.closing == share * (t - i) as real
  {
    var n := (t - i + 1) as real;
    var r := Month(i, t, opening, 0.0, 0.0);
    assert Snap <= opening by {
      assert share <= share * n;
    }
    assert r.corrected == opening;
    assert r.amortization == share by {
      assert r.amortization * n == share * n;
    }
    assert r.corrected - r.amortization == share * (n - 1.0);
    assert i < t ==> Snap <= share * (n - 1.0) by {
      if i < t {
        assert share <= share * (n - 1.0);
      }
    }
  }

  /**
   * Every row repays `share`, charges no interest, and closes with `share`
   * times the number of rows after it.
   */
  ghost predicate ConstantShare(s: seq<MonthRecord>, share: real)
  {
    forall k :: 0 <= k < |s| ==>
      s[k].interest == 0.0 && s[k].amortization == share &&
      s[k].installment == share && s[k].closing == share * (|s| - 1 - k) as real
  }

  lemma ConstantShareCons(r: MonthRecord, rest: seq<MonthRecord>, share: real)
    requires r.interest == 0.0 && r.amortization == share && r.installment == share
    requires r.closing == share * |rest| as real
    requires ConstantShare(rest, share)
    ensures ConstantShare([r] + rest, share)
  {
    var s := [r] + rest;
    forall k | 0 < k < |s|
      ensures s[k].interest == 0.0 && s[k].amortization == share &&
              s[k].installment == share && s[k].closing == share * (|s| - 1 - k) as real
    {
      assert s[k] == rest[k - 1];
    }
  }

  /**
   * With zero CET and zero TR the schedule is plain constant amortization: a
   * balance of `share` times the months to go is repaid `share` a month, with
   * no interest, the balance falling linearly to zero (provided the share is at
   * least one cent, so that no snap to zero intervenes).
   */
  lemma {:induction false} ZeroRatesConstantAmortization(i: int, t: int, opening: real, share: real)
    requires 1 <= i <= t
    requires opening == share * (t - i + 1) as real && Snap <= share
    ensures |Months(i, t, opening, 0.0, 0.0)| == t - i + 1
    ensures ConstantShare(Months(i, t, opening, 0.0, 0.0), share)
    decreases t - i + 1
  {
    var r := Month(i, t, opening, 0.0, 0.0);
    ZeroRatesMonth(i, t, opening, share);
    MonthsLength(i, t, opening, 0.0, 0.0);
    var rest := Months(i + 1, t, r.closing, 0.0, 0.0);
    if i < t {
      ZeroRatesConstantAmortization(i + 1, t, r.closing, share);
    }
    assert Months(i, t, opening, 0.0, 0.0) == [r] + rest;
    ConstantShareCons(r, rest, share);
  }

  /** A 12000 loan over 12 months at zero rates repays 1000 a month. */
  lemma ZeroRatesScenario()
    ensures var s := Months(1, 12, 12000.0, 0.0, 0.0);
            |s| == 12 && s[11].closing == 0.0 &&
            forall k :: 0 <= k < 12 ==> s[k].amortization == 1000.0 && s[k].interest == 0.0
  {
    ZeroRatesConstantAmortization(1, 12, 12000.0, 1000.0);
  }

  // ---------------------------------------------------------------------------
  // The simulation as a whole

  /**
   * A simulation is refused exactly when an input check fails; otherwise it
   * finances the price less the down payment, and the schedule is empty when
   * that is zero and otherwise has one chained record per month of the term,
   * opening with the financed amount and closing at zero.
   */
  lemma ScheduleChained(cet: real, t: int, price: real, downFraction: real, tr: real)
    ensures var sim := HouseSimulation(cet, t, price, downFraction, tr);
            (sim.Rejected? <==> Validate(cet, t, price, downFraction, tr).Some?) &&
            (sim.Simulated? ==>
               sim.entry + sim.financed == price &&
               (sim.records == [] <==> downFraction == 1.0) &&
               (sim.records != [] ==> |sim.records| == t && Chained(sim.records, 1, sim.financed)))
  {
    var sim := HouseSimulation(cet, t, price, downFraction, tr);
    if sim.Simulated? && sim.records != [] {
      MonthsLength(1, t, sim.financed, cet, tr);
      MonthsChained(1, t, sim.financed, cet, tr);
    }
  }

  /**
   * The cumulative columns: running totals of interest, amortization and
   * correction, row by row.
   */
  function DerivedColumns(s: seq<MonthRecord>): (tab: Table)
    ensures tab.records == s
    ensures |tab.cumInterest| == |tab.cumAmortization| == |tab.cumCorrection| == |s|
    ensures forall k :: 0 <= k < |s| ==>
              tab.cumInterest[k] == Sum(Column(s, Interest)[..k + 1]) &&
              tab.cumAmortization[k] == Sum(Column(s, Amortization)[..k + 1]) &&
              tab.cumCorrection[k] == Sum(Column(s, Correction)[..k + 1])
  {
    Table(s, PrefixSums(Column(s, Interest)), PrefixSums(Column(s, Amortization)),
          PrefixSums(Column(s, Correction)))
  }

  /** A positive amount split into n >= 1 equal shares has positive shares. */
  lemma PositiveShare(a: real, n: real, c: real)
    requires 1.0 <= n && a * n == c && 0.0 < c
    ensures 0.0 < a <= c
  {
    assert a * (n - 1.0) >= 0.0;
  }

  /** With non-negative rates no month charges or repays a negative amount. */
  lemma MonthSigns(i: int, t: int, opening: real, cet: real, tr: real)
    requires 1 <= i <= t
    requires 0.0 <= cet && 0.0 <= tr
    ensures forall f :: 0.0 <= Get(Month(i, t, opening, cet, tr), f)
  {
    var r := Month(i, t, opening, cet, tr);
    var n := (t - i + 1) as real;
    if 0.0 < r.corrected {
      assert 0.0 <= r.corrected * cet;
      PositiveShare(r.amortization, n, r.corrected);
    }
    if Tolerance < opening {
      assert 0.0 <= opening * tr;
    }
  }

  /** Every column of a schedule with non-negative rates is non-negative. */
  lemma StepsNonNegative(s: seq<MonthRecord>, first: int, t: int, cet: real, tr: real)
    requires 1 <= first && AllSteps(s, first, t, cet, tr)
    requires 0.0 <= cet && 0.0 <= tr
    ensures forall f, k :: 0 <= k < |s| ==> 0.0 <= Column(s, f)[k]
  {
    forall k | 0 <= k < |s| ensures forall f :: 0.0 <= Get(s[k], f) {
      MonthSigns(first + k, t, s[k].opening, cet, tr);
    }
  }

  /**
   * Over months i .. t, the installments total the interest plus the opening
   * balance plus the TR correction, less under one cent dropped by the snaps
   * to zero.
   */
  lemma MonthsInstallmentsReconcile(i: int, t: int, opening: real, cet: real, tr: real)
    requires 1 <= i <= t
    requires 0.0 <= opening && 0.0 <= tr
    ensures var s := Months(i, t, opening, cet, tr);
            0.0 <= opening + Sum(Column(s, Interest)) + Sum(Column(s, Correction))
                   - Sum(Column(s, Installment)) < Snap
  {
    var s := Months(i, t, opening, cet, tr);
    MonthsChained(i, t, opening, cet, tr);
    SumPointwise(Column(s, Interest), Column(s, Amortization), Column(s, Installment));
    MonthsRepayBalance(i, t, opening, cet, tr);
  }

  /** What a simulation that finances a positive amount is made of. */
  lemma FinancedSchedule(cet: real, t: int, price: real, downFraction: real, tr: real)
    requires HouseSimulation(cet, t, price, downFraction, tr).Simulated?
    requires HouseSimulation(cet, t, price, downFraction, tr).records != []
    ensures var sim := HouseSimulation(cet, t, price, downFraction, tr);
            1 <= t && 0.0 <= cet && 0.0 <= tr && 0.0 < price &&
            0.0 < sim.financed && sim.entry + sim.financed == price &&
            sim.records == Months(1, t, sim.financed, cet, tr)
  {
  }

  /**
   * In every simulated schedule the cumulative columns never decrease, and
   * the last cumulative amortization is the financed amount plus the last
   * cumulative correction, less under one cent.
   */
  lemma CumulativeColumns(cet: real, t: int, price: real, downFraction: real, tr: real)
    requires HouseSimulation(cet, t, price, downFraction, tr).Simulated?
    requires HouseSimulation(cet, t, price, downFraction, tr).records != []
    ensures var sim := HouseSimulation(cet, t, price, downFraction, tr);
            var tab := DerivedColumns(sim.records);
            var n := |sim.records|;
            (forall j, k :: 0 <= j <= k < n ==>
               tab.cumInterest[j] <= tab.cumInterest[k] &&
               tab.cumAmortization[j] <= tab.cumAmortization[k] &&
               tab.cumCorrection[j] <= tab.cumCorrection[k]) &&
            0.0 <= sim.financed + tab.cumCorrection[n - 1] - tab.cumAmortization[n - 1] < Snap
  {
    var sim := HouseSimulation(cet, t, price, downFraction, tr);
    FinancedSchedule(cet, t, price, downFraction, tr);
    var s := sim.records;
    MonthsAreSteps(1, t, sim.financed, cet, tr);
    StepsNonNegative(s, 1, t, cet, tr);
    PrefixSumsMonotone(Column(s, Interest));
    PrefixSumsMonotone(Column(s, Amortization));
    PrefixSumsMonotone(Column(s, Correction));
    PrefixSumsLast(Column(s, Correction));
    PrefixSumsLast(Column(s, Amortization));
    MonthsRepayBalance(1, t, sim.financed, cet, tr);
  }

  /**
   * Totals printed after the table: the sum of the installments, the total
   * paid including the down payment, and that total over the price.
   */
  function HouseTotals(s: seq<MonthRecord>, entry: real, price: real): (totals: Totals)
    ensures totals.installments == Sum(Column(s, Installment))
    ensures totals.paid == totals.installments + entry
    ensures 0.0 < price ==> totals.ratio * price == totals.paid
    ensures price <= 0.0 ==> totals.ratio == 0.0
  {
    var installments := Sum(Column(s, Installment));
    var paid := installments + entry;
    Totals(installments, paid, if price > 0.0 then paid / price else 0.0)
  }

  lemma TotalsOfSchedule(s: seq<MonthRecord>, entry: real, financed: real, price: real)
    requires 0.0 < price && entry + financed == price
    requires 0.0 <= financed + Sum(Column(s, Interest)) + Sum(Column(s, Correction))
                    - Sum(Column(s, Installment)) < Snap
    ensures 0.0 <= price + Sum(Column(s, Interest)) + Sum(Column(s, Correction))
                   - HouseTotals(s, entry, price).paid < Snap
  {
  }

  /**
   * Reconciliation of the totals: the total paid is the price plus all the
   * interest and all the TR correction charged, less under one cent dropped
   * by the snaps to zero; the ratio is that total over the price.
   */
  lemma TotalsReconcile(cet: real, t: int, price: real, downFraction: real, tr: real)
    requires HouseSimulation(cet, t, price, downFraction, tr).Simulated?
    requires HouseSimulation(cet, t, price, downFraction, tr).records != []
    ensures var sim := HouseSimulation(cet, t, price, downFraction, tr);
            var s := sim.records;
            0.0 <= price + Sum(Column(s, Interest)) + Sum(Column(s, Correction))
                   - HouseTotals(s, sim.entry, price).paid < Snap
  {
    var sim := HouseSimulation(cet, t, price, downFraction, tr);
    FinancedSchedule(cet, t, price, downFraction, tr);
    MonthsInstallmentsReconcile(1, t, sim.financed, cet, tr);
    TotalsOfSchedule(sim.records, sim.entry, sim.financed, price);
  }

  /** The total of a column with no negative row is not negative. */
  lemma SumNonNegative(xs: seq<real>)
    requires forall k :: 0 <= k < |xs| ==> 0.0 <= xs[k]
    ensures 0.0 <= Sum(xs)
  {
    SumPrefixGrows(xs, 0, |xs|);
    assert xs[..0] == [] && xs[..|xs|] == xs;
  }

  /** A simulated schedule charges no negative interest or correction in total. */
  lemma ScheduleChargesNonNegative(cet: real, t: int, price: real, downFraction: real, tr: real)
    requires HouseSimulation(cet, t, price, downFraction, tr).Simulated?
    requires HouseSimulation(cet, t, price, downFraction, tr).records != []
    ensures var s := HouseSimulation(cet, t, price, downFraction, tr).records;
            0.0 <= Sum(Column(s, Interest)) && 0.0 <= Sum(Column(s, Correction))
  {
    var sim := HouseSimulation(cet, t, price, downFraction, tr);
    FinancedSchedule(cet, t, price, downFraction, tr);
    var s := sim.records;
    MonthsAreSteps(1, t, sim.financed, cet, tr);
    StepsNonNegative(s, 1, t, cet, tr);
    SumNonNegative(Column(s, Interest));
    SumNonNegative(Column(s, Correction));
  }

  lemma PaidOfSchedule(s: seq<MonthRecord>, entry: real, price: real)
    requires 0.0 < price
    requires 0.0 <= Sum(Column(s, Interest)) && 0.0 <= Sum(Column(s, Correction))
    requires price + Sum(Column(s, Interest)) + Sum(Column(s, Correction))
             - HouseTotals(s, entry, price).paid < Snap
    ensures price - Snap < HouseTotals(s, entry, price).paid
    ensures price - Snap < HouseTotals(s, entry, price).ratio * price
  {
  }

  /**
   * The buyer never pays less than the cash price, bar the under one cent
   * dropped by the snaps to zero: for every simulation that is not refused,
   * the ratio of the total paid to the price is above 1 - 0.01 / price.
   */
  lemma PaidCoversPrice(cet: real, t: int, price: real, downFraction: real, tr: real)
    requires HouseSimulation(cet, t, price, downFraction, tr).Simulated?
    ensures var sim := HouseSimulation(cet, t, price, downFraction, tr);
            var totals := HouseTotals(sim.records, sim.entry, price);
            0.0 < price && price - Snap < totals.paid && price - Snap < totals.ratio * price
  {
    var sim := HouseSimulation(cet, t, price, downFraction, tr);
    var s := sim.records;
    if s == [] {
      assert Column(s, Installment) == [];
    } else {
      TotalsReconcile(cet, t, price, downFraction, tr);
      ScheduleChargesNonNegative(cet, t, price, downFraction, tr);
      PaidOfSchedule(s, sim.entry, price);
    }
  }
}
