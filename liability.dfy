/**
 * The liability policy of a lease: the initial, healthy and maximum
 * loan-to-collateral percents and the recalculation cadence, with its
 * validating constructor, its invariant check and the solver for the
 * initial borrow amount.
 */
module Liability {
  import opened Wrappers
  import opened Percentable
  import FinanceError

  const SECS_IN_HOUR: nat := 60 * 60

  /** Name under which a broken liability invariant is reported. */
  const LIABILITY_TYPE_NAME: string := "finance::liability::Liability"

  type Hours = h: nat | h <= 0xffff

  datatype Liability = Liability(
    initPercent: Percent,
    healthyPercent: Percent,
    maxPercent: Percent,
    recalcSecs: nat)

  /** A cosmwasm coin: an amount with its denomination. */
  datatype CwCoin = CwCoin(amount: Amount, denom: string)

  /** The assertion of `new` that fails, in the order they are checked. */
  datatype NewPanic =
    | InitNotPositive
    | DeltaMaxNotPositive
    | HealthyOverflow
    | MaxOverflow
    | RecalcHoursNotPositive

  predicate Valid(l: Liability) {
    && l.initPercent > ZERO
    && l.healthyPercent >= l.initPercent
    && l.maxPercent > l.healthyPercent
    && l.recalcSecs >= SECS_IN_HOUR
  }

  /**
   * `Liability::new`: healthy = init + delta to healthy and max = healthy + delta
   * to max, each addition checked against `maxUnits`, the largest value the
   * percent type holds; the cadence is given in hours and stored in seconds.
   */
  function New(initPercent: Percent, deltaToHealthy: Percent, deltaToMax: Percent, recalcHours: Hours,
               maxUnits: nat): (r: Result<Liability, NewPanic>)
    requires initPercent <= maxUnits && deltaToHealthy <= maxUnits && deltaToMax <= maxUnits
    ensures r.Success? <==>
      initPercent > ZERO && deltaToMax > ZERO && initPercent + deltaToHealthy + deltaToMax <= maxUnits
      && recalcHours > 0
    ensures r.Success? ==>
      && r.value.initPercent == initPercent
      && r.value.healthyPercent == initPercent + deltaToHealthy
      && r.value.maxPercent == r.value.healthyPercent + deltaToMax
      && r.value.recalcSecs == recalcHours * SECS_IN_HOUR
    ensures r.Success? ==> InvariantHeld(r.value).Success?
    ensures r.Failure? && initPercent == ZERO ==> r.error == InitNotPositive
  {
    if initPercent == ZERO then Failure(InitNotPositive)
    else if deltaToMax == ZERO then Failure(DeltaMaxNotPositive)
    else if initPercent + deltaToHealthy > maxUnits then Failure(HealthyOverflow)
    else
      var healthyPercent := initPercent + deltaToHealthy;
      if healthyPercent + deltaToMax > maxUnits then Failure(MaxOverflow)
      else if recalcHours == 0 then Failure(RecalcHoursNotPositive)
      else Success(Liability(initPercent, healthyPercent, healthyPercent + deltaToMax, recalcHours * SECS_IN_HOUR))
  }

  /** `invariant_held`: Ok exactly when the policy is well formed, otherwise a broken-invariant error. */
  function InvariantHeld(l: Liability): (r: Result<(), FinanceError.Error>)
    ensures r.Success? <==> Valid(l)
    ensures r.Failure? ==> r.error == FinanceError.BrokenInvariant(LIABILITY_TYPE_NAME)
  {
    if Valid(l) then Success(()) else Failure(FinanceError.BrokenInvariant(LIABILITY_TYPE_NAME))
  }

  /**
   * `init_borrow_amount`: (100% - init).are(init.of(downpayment)), in the
   * downpayment's denomination. Panics when the result does not fit 128 bits.
   */
  function InitBorrowAmount(l: Liability, downpayment: CwCoin): (r: Result<CwCoin, Panic>)
    requires l.initPercent < HUNDRED
    ensures r.Failure? ==> r.error == Overflow
    ensures r.Success? ==> r.value.denom == downpayment.denom
  {
    var share :- Of(l.initPercent, downpayment.amount);
    var borrow :- Are(HUNDRED - l.initPercent, share);
    Success(CwCoin(borrow, downpayment.denom))
  }

  /**
   * The borrow solved exactly, with one division: the largest amount whose
   * init share of downpayment + borrow is the borrow itself.
   */
  function InitBorrowAmountExact(l: Liability, downpayment: CwCoin): (r: Result<CwCoin, Panic>)
    requires l.initPercent < HUNDRED
    ensures r.Failure? ==> r.error == Overflow
    ensures r.Success? ==> r.value.denom == downpayment.denom
  {
    var borrow := downpayment.amount * l.initPercent / (HUNDRED - l.initPercent);
    if borrow <= AMOUNT_MAX then Success(CwCoin(borrow, downpayment.denom)) else Failure(Overflow)
  }

  /**
   * The borrow never exceeds the init share of the total position: at
   * opening, the loan-to-value is at most the initial percent.
   */
  lemma {:induction false} InitBorrowWithinInit(l: Liability, downpayment: CwCoin)
    requires l.initPercent < HUNDRED
    requires InitBorrowAmount(l, downpayment).Success?
    ensures var b := InitBorrowAmount(l, downpayment).value.amount;
      b <= (downpayment.amount + b) * l.initPercent / HUNDRED
  {
    var p, d := l.initPercent, downpayment.amount;
    var share := Of(p, d).value;
    var b := InitBorrowAmount(l, downpayment).value.amount;
    assert b == Are(HUNDRED - p, share).value;
    assert share * HUNDRED <= d * p;
    assert b * (HUNDRED - p) <= share * HUNDRED;
    assert b * HUNDRED <= (d + b) * p;
    DivBounds((d + b) * p, HUNDRED);
  }

  /** The two-step formula never borrows more than the exact one. */
  lemma {:induction false} InitBorrowAtMostExact(l: Liability, downpayment: CwCoin)
    requires l.initPercent < HUNDRED
    requires InitBorrowAmount(l, downpayment).Success?
    ensures InitBorrowAmount(l, downpayment).value.amount
         <= downpayment.amount * l.initPercent / (HUNDRED - l.initPercent)
  {
    var p, d := l.initPercent, downpayment.amount;
    var share := Of(p, d).value;
    assert share * HUNDRED <= d * p;
    DivMonotone(share * HUNDRED, d * p, HUNDRED - p);
  }

  /** The exact borrow completes the round trip init.of(downpayment + borrow) == borrow. */
  lemma {:induction false} InitBorrowExactRoundTrip(l: Liability, downpayment: CwCoin)
    requires l.initPercent < HUNDRED
    requires InitBorrowAmountExact(l, downpayment).Success?
    requires downpayment.amount + InitBorrowAmountExact(l, downpayment).value.amount <= AMOUNT_MAX
    ensures var b := InitBorrowAmountExact(l, downpayment).value.amount;
      Of(l.initPercent, downpayment.amount + b) == Success(b)
  {
    var p, d := l.initPercent, downpayment.amount;
    var b := InitBorrowAmountExact(l, downpayment).value.amount;
    DivBounds(d * p, HUNDRED - p);
    assert b * (HUNDRED - p) <= d * p < b * (HUNDRED - p) + (HUNDRED - p);
    assert (d + b) * p == d * p + b * p;
    assert b * HUNDRED <= (d + b) * p < b * HUNDRED + HUNDRED;
    DivUnique((d + b) * p, HUNDRED, b);
  }

  /** The worked examples of `new`, in whole percents with the 8-bit percent range. */
  lemma NewExamples()
    ensures New(FromPercent(10), FromPercent(0), FromPercent(5), 20, FromPercent(255))
         == Success(Liability(FromPercent(10), FromPercent(10), FromPercent(15), 20 * SECS_IN_HOUR))
    ensures New(FromPercent(1), FromPercent(0), FromPercent(1), 1, FromPercent(255))
         == Success(Liability(FromPercent(1), FromPercent(1), FromPercent(2), SECS_IN_HOUR))
    ensures New(FromPercent(0), FromPercent(0), FromPercent(1), 1, FromPercent(255)) == Failure(InitNotPositive)
    ensures New(FromPercent(45), FromPercent(255 - 45 + 1), FromPercent(1), 1, FromPercent(255)) == Failure(HealthyOverflow)
    ensures New(FromPercent(10), FromPercent(5), FromPercent(0), 1, FromPercent(255)) == Failure(DeltaMaxNotPositive)
    ensures New(FromPercent(10), FromPercent(5), FromPercent(255 - 10 - 5 + 1), 1, FromPercent(255)) == Failure(MaxOverflow)
    ensures New(FromPercent(10), FromPercent(5), FromPercent(10), 0, FromPercent(255)) == Failure(RecalcHoursNotPositive)
  {
  }

  /** A policy read from storage bypasses `new`; the invariant check then reports it. */
  lemma DeserializedInvalidReported()
    ensures InvariantHeld(Liability(40, 30, 20, 36000)) == Failure(FinanceError.BrokenInvariant(LIABILITY_TYPE_NAME))
  {
  }

  /** The worked examples of `init_borrow_amount`, each with its round trip. */
  lemma InitBorrowExamples()
    ensures var l := Liability(FromPercent(10), FromPercent(99), FromPercent(100), 20000);
      InitBorrowAmount(l, CwCoin(1000, "UST")) == Success(CwCoin(111, "UST"))
      && Of(l.initPercent, 1000 + 111) == Success(111)
    ensures var l := Liability(FromPercent(10), FromPercent(99), FromPercent(100), 20000);
      InitBorrowAmount(l, CwCoin(1, "UST")) == Success(CwCoin(0, "UST"))
      && Of(l.initPercent, 1 + 0) == Success(0)
    ensures var l := Liability(FromPercent(99), FromPercent(99), FromPercent(100), 20000);
      InitBorrowAmount(l, CwCoin(1000, "UST")) == Success(CwCoin(990 * 100, "UST"))
      && Of(l.initPercent, 1000 + 990 * 100) == Success(990 * 100)
  {
  }

  /**
   * The two truncations of `init_borrow_amount` can lose the round trip:
   * a downpayment of 19 at 10% borrows 1, yet 10% of 19 + 1 is 2; the exact
   * formula borrows 2, and 10% of 21 is 2.
   */
  lemma InitBorrowRoundTripCounterexample()
    ensures var l := Liability(FromPercent(10), FromPercent(99), FromPercent(100), 20000);
      && InitBorrowAmount(l, CwCoin(19, "UST")) == Success(CwCoin(1, "UST"))
      && Of(l.initPercent, 19 + 1) == Success(2)
      && InitBorrowAmountExact(l, CwCoin(19, "UST")) == Success(CwCoin(2, "UST"))
      && Of(l.initPercent, 19 + 2) == Success(2)
  {
  }
}
