/**
 * Percent arithmetic over 128-bit amounts: `p.of(a)` and `p.are(a)`.
 * The product is formed in a double-width integer (Uint256), so only the
 * final narrowing back to 128 bits can overflow; a zero divisor panics.
 */
module Percentable {
  import opened Wrappers

  /** Largest value of the 128-bit unsigned amount type. */
  const AMOUNT_MAX: nat := 0xffff_ffff_ffff_ffff_ffff_ffff_ffff_ffff

  type Amount = a: nat | a <= AMOUNT_MAX

  /** A percent counted in permille units: HUNDRED (1000) is a hundred percent. */
  type Percent = nat

  const ZERO: Percent := 0
  const HUNDRED: Percent := 1000

  /** A percent given in whole percents, as `Percent::from_percent` builds it. */
  function FromPercent(p: nat): (r: Percent)
    ensures r / 10 == p && r % 10 == 0
  {
    p * 10
  }

  /** The two ways the arithmetic panics. */
  datatype Panic = Overflow | DivisionByZero

  /** `p.of(a)`: the share `p` of `a`, truncated toward zero. */
  function Of(p: Percent, a: Amount): (r: Result<Amount, Panic>)
    ensures r.Success? <==> a * p / HUNDRED <= AMOUNT_MAX
    ensures r.Failure? ==> r.error == Overflow
    ensures r.Success? ==> r.value * HUNDRED <= a * p < (r.value + 1) * HUNDRED
  {
    var wide := a * p / HUNDRED;
    if wide <= AMOUNT_MAX then Success(wide) else Failure(Overflow)
  }

  /** `p.are(a)`: the whole of which `a` is the share `p`, truncated toward zero. */
  function Are(p: Percent, a: Amount): (r: Result<Amount, Panic>)
    ensures r == Failure(DivisionByZero) <==> p == ZERO
    ensures p != ZERO ==> (r.Success? <==> a * HUNDRED / p <= AMOUNT_MAX)
    ensures r.Success? ==> r.value * p <= a * HUNDRED < (r.value + 1) * p
  {
    if p == ZERO then Failure(DivisionByZero)
    else
      var wide := a * HUNDRED / p;
      if wide <= AMOUNT_MAX then Success(wide) else Failure(Overflow)
  }

  /** Floor division brackets its dividend. */
  lemma DivBounds(a: nat, d: nat)
    requires d > 0
    ensures (a / d) * d <= a < (a / d) * d + d
  {
  }

  /** A quotient is determined by the bracket it satisfies. */
  lemma {:induction false} DivUnique(n: nat, d: nat, q: nat)
    requires d > 0 && q * d <= n < q * d + d
    ensures n / d == q
  {
    DivBounds(n, d);
    var r := n / d;
    if r < q {
      MulLeft(r + 1, q, d);
      assert false;
    } else if r > q {
      MulLeft(q + 1, r, d);
      assert false;
    }
  }

  /** Floor division by a fixed divisor is monotone. */
  lemma {:induction false} DivMonotone(a: nat, b: nat, d: nat)
    requires a <= b && d > 0
    ensures a / d <= b / d
  {
    var qa, qb := a / d, b / d;
    DivBounds(a, d);
    DivBounds(b, d);
    if qa > qb {
      MulLeft(qb + 1, qa, d);
      assert false;
    }
  }

  lemma {:induction false} MulLeft(x: nat, y: nat, k: nat)
    requires x <= y
    ensures k * x <= k * y
  {
  }

  /** A share of at most a hundred percent never overflows and never exceeds the whole. */
  lemma {:induction false} OfAtMostHundred(p: Percent, a: Amount)
    requires p <= HUNDRED
    ensures Of(p, a).Success? && Of(p, a).value <= a
  {
    MulLeft(p, HUNDRED, a);
    assert a * p <= a * HUNDRED;
    DivBounds(a * p, HUNDRED);
    assert (a * p / HUNDRED) * HUNDRED <= a * HUNDRED;
  }

  /** `are` undoes `of` whenever `of` lost nothing to truncation. */
  lemma {:induction false} AreUndoesExactOf(p: Percent, a: Amount)
    requires p != ZERO && (a * p) % HUNDRED == 0
    requires Of(p, a).Success?
    ensures Are(p, Of(p, a).value) == Success(a)
  {
    var x := Of(p, a).value;
    assert x * HUNDRED == a * p;
    DivUnique(a * p, p, a);
  }

  /** `are` applied to the result of `of` never returns more than the original amount. */
  lemma {:induction false} AreAfterOfAtMost(p: Percent, a: Amount)
    requires p != ZERO && Of(p, a).Success?
    ensures Are(p, Of(p, a).value).Success? && Are(p, Of(p, a).value).value <= a
  {
    var x := Of(p, a).value;
    assert x * HUNDRED <= a * p;
    DivBounds(x * HUNDRED, p);
    var q := x * HUNDRED / p;
    assert q * p <= a * p;
    if q > a {
      MulLeft(a + 1, q, p);
      assert false;
    }
  }

  /** The worked examples of the u128 implementation. */
  lemma OfAreExamples()
    ensures Of(1200, 50) == Success(60) && Are(1200, 60) == Success(50)
    ensures Of(12, 500) == Success(6) && Are(12, 6) == Success(500)
    ensures Of(1000, AMOUNT_MAX) == Success(AMOUNT_MAX) && Are(1000, AMOUNT_MAX) == Success(AMOUNT_MAX)
  {
  }

  /** The panicking cases of the u128 implementation: the narrowing overflows, or the divisor is zero. */
  lemma PanicExamples(a: Amount)
    ensures Of(1001, AMOUNT_MAX) == Failure(Overflow)
    ensures Are(999, AMOUNT_MAX) == Failure(Overflow)
    ensures Are(0, a) == Failure(DivisionByZero)
  {
  }
}
