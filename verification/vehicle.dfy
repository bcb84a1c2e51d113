/**
 * The closed-form part of the vehicle financing simulator: the down-payment
 * split, the IOF tax overlay that inflates the financed amount, and the totals
 * computed from the installment column of the finished Price table.
 */
module Vehicle {
  import opened Wrappers
  import opened Series

  /** Flat IOF charged on any financing. */
  const IofFixed: real := 0.0038
  /** Daily IOF, charged per day of the term (30 days per month). */
  const IofDaily: real := 0.000082
  /** Ceiling on the combined IOF rate. */
  const IofCap: real := 0.0338

  /** How the price of the vehicle is split and how much is financed. */
  datatype CarLoan = CarLoan(
    entry: real,      // down payment, paid in cash
    principal: real,  // price minus down payment, before tax
    iofRate: real,    // combined IOF rate for the term
    iofValue: real,   // IOF charged on the principal
    financed: real)   // principal plus IOF: the amount the Price table amortizes

  /** Totals printed after the table. */
  datatype CarTotals = CarTotals(
    installments: real,  // sum of the installment column
    paid: real,          // installments plus down payment
    ratio: Option<real>) // paid / price; None where the quotient is not a finite number

  function Min(a: real, b: real): real
  {
    if b < a then b else a
  }

  /**
   * IOF rate for a term of t months: the flat part plus the daily part over
   * 30 * t days, capped.  The cap is reached exactly from the 13th month on.
   */
  function IofRate(t: int): (rate: real)
    ensures rate <= IofCap
    ensures 0 <= t ==> IofFixed <= rate
    ensures rate == IofCap <==> 13 <= t
    ensures t <= 12 ==> rate == IofFixed + IofDaily * (30 * t) as real
  {
    var days := t * 30;
    Min(IofFixed + IofDaily * days as real, IofCap)
  }

  lemma ScaleMonotone(a: real, b: real, c: real)
    requires 0.0 <= a && b <= c
    ensures a * b <= a * c
  {
    var d := c - b;
    assert 0.0 <= a * d;
    assert a * c == a * b + a * d;
  }

  /** A longer term never has a lower IOF rate. */
  lemma IofRateMonotone(t1: int, t2: int)
    requires t1 <= t2
    ensures IofRate(t1) <= IofRate(t2)
  {
  }

  /**
   * Down payment, principal and IOF for a vehicle of the given price, term and
   * down-payment fraction.  The simulator validates none of its inputs.
   */
  function Financing(price: real, t: int, downFraction: real := 0.0): (c: CarLoan)
    ensures c.entry == price * downFraction
    ensures c.entry + c.principal == price
    ensures c.iofRate == IofRate(t)
    ensures c.financed == c.principal * (1.0 + c.iofRate)
    ensures 0 <= t ==> (c.financed == 0.0 <==> c.principal == 0.0)
  {
    var entry := price * downFraction;
    var principal := price - entry;
    var rate := IofRate(t);
    var iofValue := principal * rate;
    assert principal * (1.0 + rate) == principal + principal * rate;
    CarLoan(entry, principal, rate, iofValue, principal + iofValue)
  }

  /**
   * For a term of at least zero months and a non-negative principal, the IOF
   * only inflates the financed amount, and by at most the capped rate.
   */
  lemma FinancedBounds(principal: real, t: int)
    requires 0 <= t && 0.0 <= principal
    ensures principal <= principal * (1.0 + IofRate(t)) <= principal * (1.0 + IofCap)
  {
    var rate := IofRate(t);
    assert 1.0 <= 1.0 + rate <= 1.0 + IofCap;
    ScaleMonotone(principal, 1.0, 1.0 + rate);
    ScaleMonotone(principal, 1.0 + rate, 1.0 + IofCap);
  }

  /** A vehicle of 50000 over 24 months with no down payment pays the capped rate. */
  lemma CappedScenario()
    ensures Financing(50000.0, 24, 0.0).iofRate == 0.0338
    ensures Financing(50000.0, 24, 0.0).financed == 51690.0
  {
  }

  /**
   * Totals over the installment column of the Price table.  The quotient by
   * the price is taken without a guard, so a zero price yields a non-finite
   * ratio rather than a number.
   */
  function Totals(installments: seq<real>, entry: real, price: real): (r: CarTotals)
    ensures r.installments == Sum(installments)
    ensures r.paid - entry == Sum(installments)
    ensures r.ratio.Some? <==> price != 0.0
    ensures r.ratio.Some? ==> r.ratio.value * price == r.paid
  {
    var total := Sum(installments);
    var paid := total + entry;
    CarTotals(total, paid, if price == 0.0 then None else Some(paid / price))
  }

  /**
   * With a positive price, the buyer pays at least the cash price exactly
   * when the installments cover the principal before tax: the IOF and the
   * interest are what push the ratio above 1.
   */
  lemma RatioAtLeastOne(installments: seq<real>, price: real, t: int, downFraction: real)
    requires 0.0 < price
    ensures var c := Financing(price, t, downFraction);
            var r := Totals(installments, c.entry, price);
            r.ratio.Some? && (1.0 <= r.ratio.value <==> c.principal <= Sum(installments))
  {
    var c := Financing(price, t, downFraction);
    var r := Totals(installments, c.entry, price);
    var q := r.ratio.value;
    assert q * price == Sum(installments) + c.entry;
    if 1.0 <= q {
      ScaleMonotone(price, 1.0, q);
    } else {
      assert q * price < price by {
        ScaleMonotone(price, q, 1.0);
        assert q * price != price;
      }
    }
  }
}
