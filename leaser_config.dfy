/**
 * The leaser's configuration, built from its instantiation message. The
 * three liability percentages must be ordered: the healthy liability below
 * the maximum one, the initial one at most the healthy one. The percentages
 * arrive as whole percents (u64) and are stored as fixed-point decimals.
 */
module LeaserConfig {
  import opened Wrappers

  type Addr = string
  type U64 = x: nat | x <= 0xffff_ffff_ffff_ffff

  /** A fixed-point decimal: `atomics` units of 10^-18. */
  datatype Decimal = Decimal(atomics: nat)

  const DECIMAL_FRACTIONAL: nat := 1_000_000_000_000_000_000

  /** `Decimal::percent(x)`: x hundredths, x * 10^16 atomics. */
  function DecimalPercent(x: U64): (d: Decimal)
    ensures d.atomics * 100 == x * DECIMAL_FRACTIONAL
  {
    Decimal(x * 10_000_000_000_000_000)
  }

  /** A native coin, as carried by the optional minimal down-payment. */
  datatype NativeCoin = NativeCoin(denom: string, amount: nat)

  datatype InstantiateMsg = InstantiateMsg(
    leaseCodeId: U64,
    lppUstAddr: Addr,
    leaseInterestRateMargin: U64,
    leaseMaxLiability: U64,
    leaseHealthyLiability: U64,
    leaseInitialLiability: U64,
    leaseMinimalDownpayment: Option<NativeCoin>,
    repaymentPeriodNanoSec: nat,
    gracePeriodNanoSec: nat)

  datatype Config = Config(
    owner: Addr,
    leaseCodeId: U64,
    lppUstAddr: Addr,
    leaseInterestRateMargin: Decimal,
    leaseMaxLiability: Decimal,
    leaseHealthyLiability: Decimal,
    leaseInitialLiability: Decimal,
    leaseMinimalDownpayment: Option<NativeCoin>,
    repaymentPeriodNanoSec: nat,
    gracePeriodNanoSec: nat)

  datatype ContractError = ValidationError(msg: string)

  const HEALTHY_NOT_BELOW_MAX: string := "LeaseHealthyLiability% must be less than LeaseMaxLiability%"
  const INITIAL_ABOVE_HEALTHY: string := "LeaseInitialLiability% must be less or equal to LeaseHealthyLiability%"

  /** `validate_lease_healthy_liability`: accepted only strictly below the maximum. */
  function ValidateHealthy(healthy: U64, max: U64): (r: Result<Decimal, ContractError>)
    ensures r.Success? <==> healthy < max
    ensures r.Success? ==> r.value == DecimalPercent(healthy)
    ensures r.Failure? ==> r.error == ValidationError(HEALTHY_NOT_BELOW_MAX)
  {
    if healthy < max then Success(DecimalPercent(healthy))
    else Failure(ValidationError(HEALTHY_NOT_BELOW_MAX))
  }

  /** `validate_lease_initial_liability`: accepted up to and including the healthy one. */
  function ValidateInitial(initial: U64, healthy: U64): (r: Result<Decimal, ContractError>)
    ensures r.Success? <==> initial <= healthy
    ensures r.Success? ==> r.value == DecimalPercent(initial)
    ensures r.Failure? ==> r.error == ValidationError(INITIAL_ABOVE_HEALTHY)
  {
    if initial <= healthy then Success(DecimalPercent(initial))
    else Failure(ValidationError(INITIAL_ABOVE_HEALTHY))
  }

  /**
   * `Config::new`: the sender becomes the owner, the percentages become
   * decimals, everything else is copied; the healthy check runs first, so
   * its error wins when both checks fail.
   */
  function New(sender: Addr, msg: InstantiateMsg): (r: Result<Config, ContractError>)
    ensures r.Success? <==>
      msg.leaseHealthyLiability < msg.leaseMaxLiability && msg.leaseInitialLiability <= msg.leaseHealthyLiability
    ensures msg.leaseHealthyLiability >= msg.leaseMaxLiability ==>
      r == Failure(ValidationError(HEALTHY_NOT_BELOW_MAX))
    ensures msg.leaseHealthyLiability < msg.leaseMaxLiability && msg.leaseInitialLiability > msg.leaseHealthyLiability ==>
      r == Failure(ValidationError(INITIAL_ABOVE_HEALTHY))
    ensures r.Success? ==> r.value == Config(
      sender, msg.leaseCodeId, msg.lppUstAddr,
      DecimalPercent(msg.leaseInterestRateMargin), DecimalPercent(msg.leaseMaxLiability),
      DecimalPercent(msg.leaseHealthyLiability), DecimalPercent(msg.leaseInitialLiability),
      msg.leaseMinimalDownpayment, msg.repaymentPeriodNanoSec, msg.gracePeriodNanoSec)
  {
    var healthy :- ValidateHealthy(msg.leaseHealthyLiability, msg.leaseMaxLiability);
    var initial :- ValidateInitial(msg.leaseInitialLiability, msg.leaseHealthyLiability);
    Success(Config(
      sender, msg.leaseCodeId, msg.lppUstAddr,
      DecimalPercent(msg.leaseInterestRateMargin), DecimalPercent(msg.leaseMaxLiability),
      healthy, initial,
      msg.leaseMinimalDownpayment, msg.repaymentPeriodNanoSec, msg.gracePeriodNanoSec))
  }

  /** `Decimal::percent` preserves and reflects the order of the percentages. */
  lemma {:induction false} DecimalPercentOrder(x: U64, y: U64)
    ensures DecimalPercent(x).atomics < DecimalPercent(y).atomics <==> x < y
    ensures DecimalPercent(x).atomics <= DecimalPercent(y).atomics <==> x <= y
  {
    var k: nat := 10_000_000_000_000_000;
    if x < y {
      assert y * k - x * k == (y - x) * k;
    } else {
      assert x * k - y * k == (x - y) * k;
    }
  }

  /** A configuration `New` accepts holds initial <= healthy < max as decimals. */
  lemma AcceptedConfigOrdered(sender: Addr, msg: InstantiateMsg)
    requires New(sender, msg).Success?
    ensures var c := New(sender, msg).value;
      c.leaseInitialLiability.atomics <= c.leaseHealthyLiability.atomics < c.leaseMaxLiability.atomics
  {
    DecimalPercentOrder(msg.leaseInitialLiability, msg.leaseHealthyLiability);
    DecimalPercentOrder(msg.leaseHealthyLiability, msg.leaseMaxLiability);
  }
}
