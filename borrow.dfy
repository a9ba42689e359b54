/**
 * The pool's interest-rate model: a base rate plus an add-on that grows with
 * utilization, scaled so that it reaches the add-on rate at the optimal
 * utilization. All rates are permille percents.
 */
module Borrow {
  import opened Wrappers
  import opened Percentable

  datatype InterestRate = InterestRate(
    baseInterestRate: Percent,
    utilizationOptimal: Percent,
    addonOptimalInterestRate: Percent)

  /** The stored form of a rate, before it is checked. */
  datatype UncheckedInterestRate = UncheckedInterestRate(
    baseInterestRate: Percent,
    utilizationOptimal: Percent,
    addonOptimalInterestRate: Percent)

  const OUT_OF_RANGE: string := "Rates should not be greater than a hundred percent!"

  /** `validate`: every part of the rate is at most a hundred percent. */
  predicate Validate(rate: InterestRate): (b: bool)
    ensures b <==> (rate.baseInterestRate <= HUNDRED && rate.utilizationOptimal <= HUNDRED
                    && rate.addonOptimalInterestRate <= HUNDRED)
    ensures b ==> rate.baseInterestRate + rate.addonOptimalInterestRate <= 2 * HUNDRED
  {
    && rate.baseInterestRate <= HUNDRED
    && rate.utilizationOptimal <= HUNDRED
    && rate.addonOptimalInterestRate <= HUNDRED
  }

  /** `private_new` (and the test-only `new`): the rate, if each of its three parts is at most a hundred percent. */
  function PrivateNew(baseInterestRate: Percent, utilizationOptimal: Percent, addonOptimalInterestRate: Percent)
    : (r: Option<InterestRate>)
    ensures r.Some? <==>
      baseInterestRate <= HUNDRED && utilizationOptimal <= HUNDRED && addonOptimalInterestRate <= HUNDRED
    ensures r.Some? ==>
      && r.value.baseInterestRate == baseInterestRate
      && r.value.utilizationOptimal == utilizationOptimal
      && r.value.addonOptimalInterestRate == addonOptimalInterestRate
  {
    var value := InterestRate(baseInterestRate, utilizationOptimal, addonOptimalInterestRate);
    if Validate(value) then Some(value) else None
  }

  /** Deserialization goes through `private_new`, turning a rejection into an error message. */
  function TryFrom(unchecked: UncheckedInterestRate): (r: Result<InterestRate, string>)
    ensures r.Failure? <==>
      unchecked.baseInterestRate > HUNDRED || unchecked.utilizationOptimal > HUNDRED
      || unchecked.addonOptimalInterestRate > HUNDRED
    ensures r.Failure? ==> r.error == OUT_OF_RANGE
    ensures r.Success? ==>
      && r.value.baseInterestRate == unchecked.baseInterestRate
      && r.value.utilizationOptimal == unchecked.utilizationOptimal
      && r.value.addonOptimalInterestRate == unchecked.addonOptimalInterestRate
  {
    match PrivateNew(unchecked.baseInterestRate, unchecked.utilizationOptimal, unchecked.addonOptimalInterestRate)
    case Some(rate) => Success(rate)
    case None => Failure(OUT_OF_RANGE)
  }

  /** Utilization: liability / (liability + balance) in permille, truncated; zero for an empty pool. */
  function Utilization(totalLiability: Amount, balance: Amount): (u: Percent)
    ensures u <= HUNDRED
    ensures totalLiability == 0 ==> u == 0
    ensures totalLiability + balance > 0 ==>
      u * (totalLiability + balance) <= totalLiability * HUNDRED < (u + 1) * (totalLiability + balance)
  {
    if totalLiability + balance == 0 then 0
    else
      var u := totalLiability * HUNDRED / (totalLiability + balance);
      DivBounds(totalLiability * HUNDRED, totalLiability + balance);
      DivMonotone(totalLiability * HUNDRED, (totalLiability + balance) * HUNDRED, totalLiability + balance);
      DivUnique((totalLiability + balance) * HUNDRED, totalLiability + balance, HUNDRED);
      u
  }

  /** The add-on part of the rate: utilization * addon / optimal, truncated. */
  function AddOn(rate: InterestRate, utilization: Percent): Percent
    requires rate.utilizationOptimal != ZERO
  {
    utilization * rate.addonOptimalInterestRate / rate.utilizationOptimal
  }

  /**
   * `calculate`: base + (addon / optimal) * utilization. The add-on ratio
   * divides by the optimal utilization, which panics when that is zero.
   */
  function Calculate(rate: InterestRate, totalLiability: Amount, balance: Amount): (r: Result<Percent, Panic>)
    ensures r.Failure? <==> rate.utilizationOptimal == ZERO
    ensures r.Failure? ==> r.error == DivisionByZero
    ensures r.Success? ==> r.value >= rate.baseInterestRate
  {
    if rate.utilizationOptimal == ZERO then Failure(DivisionByZero)
    else Success(rate.baseInterestRate + AddOn(rate, Utilization(totalLiability, balance)))
  }

  /** With no add-on rate the result is the base rate, whatever the pool figures. */
  lemma NoAddonIsBase(rate: InterestRate, totalLiability: Amount, balance: Amount)
    requires rate.utilizationOptimal != ZERO && rate.addonOptimalInterestRate == ZERO
    ensures Calculate(rate, totalLiability, balance) == Success(rate.baseInterestRate)
  {
  }

  /** With nothing borrowed the result is the base rate, whatever the balance. */
  lemma NoLiabilityIsBase(rate: InterestRate, balance: Amount)
    requires rate.utilizationOptimal != ZERO
    ensures Calculate(rate, 0, balance) == Success(rate.baseInterestRate)
  {
  }

  /** At the optimal utilization the add-on is exactly the add-on rate. */
  lemma {:induction false} AtOptimalIsBasePlusAddon(rate: InterestRate, totalLiability: Amount, balance: Amount)
    requires rate.utilizationOptimal != ZERO
    requires Utilization(totalLiability, balance) == rate.utilizationOptimal
    ensures Calculate(rate, totalLiability, balance) == Success(rate.baseInterestRate + rate.addonOptimalInterestRate)
  {
    var o, a := rate.utilizationOptimal, rate.addonOptimalInterestRate;
    assert o * a == a * o;
    DivUnique(o * a, o, a);
  }

  /** Utilization never exceeds a hundred percent, so the add-on never exceeds addon * 100% / optimal. */
  lemma {:induction false} CalculateAtMost(rate: InterestRate, totalLiability: Amount, balance: Amount)
    requires rate.utilizationOptimal != ZERO
    ensures Calculate(rate, totalLiability, balance).value
         <= rate.baseInterestRate + HUNDRED * rate.addonOptimalInterestRate / rate.utilizationOptimal
  {
    var u := Utilization(totalLiability, balance);
    MulLeft(u, HUNDRED, rate.addonOptimalInterestRate);
    assert u * rate.addonOptimalInterestRate <= HUNDRED * rate.addonOptimalInterestRate;
    DivMonotone(u * rate.addonOptimalInterestRate, HUNDRED * rate.addonOptimalInterestRate, rate.utilizationOptimal);
  }

  /** More liability against the same balance never lowers the utilization. */
  lemma {:induction false} UtilizationMonotone(l1: Amount, l2: Amount, balance: Amount)
    requires l1 <= l2
    ensures Utilization(l1, balance) <= Utilization(l2, balance)
  {
    var u1, u2 := Utilization(l1, balance), Utilization(l2, balance);
    if l1 > 0 {
      assert u1 * (l1 + balance) <= l1 * HUNDRED;
      MulLeft(u1, HUNDRED, l2 - l1);
      assert u1 * (l2 + balance) == u1 * (l1 + balance) + u1 * (l2 - l1);
      assert u1 * (l2 + balance) <= l2 * HUNDRED;
      if u2 < u1 {
        assert false;
      }
    }
  }

  /** More liability against the same balance never lowers the rate. */
  lemma {:induction false} CalculateMonotoneInLiability(rate: InterestRate, l1: Amount, l2: Amount, balance: Amount)
    requires rate.utilizationOptimal != ZERO && l1 <= l2
    ensures Calculate(rate, l1, balance).value <= Calculate(rate, l2, balance).value
  {
    var u1, u2 := Utilization(l1, balance), Utilization(l2, balance);
    UtilizationMonotone(l1, l2, balance);
    MulLeft(u1, u2, rate.addonOptimalInterestRate);
    assert u1 * rate.addonOptimalInterestRate <= u2 * rate.addonOptimalInterestRate;
    DivMonotone(u1 * rate.addonOptimalInterestRate, u2 * rate.addonOptimalInterestRate, rate.utilizationOptimal);
  }

  /** Worked values of the rate (10%, 50%, 25%): liability 10 against balances 1 and 2. */
  lemma WorkedValues()
    ensures PrivateNew(100, 500, 250) == Some(InterestRate(100, 500, 250))
    ensures Calculate(InterestRate(100, 500, 250), 10, 1) == Success(554)
    ensures Calculate(InterestRate(100, 500, 250), 10, 2) == Success(516)
  {
  }

  /** An optimal utilization of zero is accepted by construction but panics in `calculate`. */
  lemma ZeroOptimalPanics(baseRate: Percent, addonRate: Percent, balance: Amount)
    requires baseRate <= HUNDRED && addonRate <= HUNDRED
    ensures PrivateNew(baseRate, 0, addonRate).Some?
    ensures Calculate(PrivateNew(baseRate, 0, addonRate).value, 0, balance) == Failure(DivisionByZero)
  {
  }
}
