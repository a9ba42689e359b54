/**
 * The repayment receipt: five write-once buckets recording how one payment
 * was split (previous-period margin and interest, current-period margin and
 * interest, principal) and whether it closed the loan.
 */
module Repay {
  import opened Percentable

  class Receipt {
    var previousMarginPaid: Amount
    var currentMarginPaid: Amount
    var previousInterestPaid: Amount
    var currentInterestPaid: Amount
    var principalPaid: Amount
    var close: bool

    /** `Receipt::default()`: nothing paid, not closed. */
    constructor ()
      ensures previousMarginPaid == 0 && currentMarginPaid == 0
      ensures previousInterestPaid == 0 && currentInterestPaid == 0
      ensures principalPaid == 0 && !close
      ensures Total() == 0
    {
      previousMarginPaid, currentMarginPaid := 0, 0;
      previousInterestPaid, currentInterestPaid := 0, 0;
      principalPaid, close := 0, false;
    }

    /** `total`: everything the payment was split into. */
    function Total(): (t: nat)
      reads this
      ensures t == previousMarginPaid + previousInterestPaid + currentMarginPaid + currentInterestPaid + principalPaid
      ensures principalPaid <= t
      ensures t == 0 <==>
        previousMarginPaid == 0 && previousInterestPaid == 0 && currentMarginPaid == 0
        && currentInterestPaid == 0 && principalPaid == 0
    {
      previousMarginPaid + previousInterestPaid + currentMarginPaid + currentInterestPaid + principalPaid
    }

    /** `pay_previous_margin`: fills its own, still empty, bucket and nothing else. */
    method PayPreviousMargin(payment: Amount)
      requires previousMarginPaid == 0
      modifies this`previousMarginPaid
      ensures previousMarginPaid == payment
      ensures Total() == old(Total()) + payment
    {
      previousMarginPaid := payment;
    }

    /** `pay_previous_interest`: fills its own, still empty, bucket and nothing else. */
    method PayPreviousInterest(payment: Amount)
      requires previousInterestPaid == 0
      modifies this`previousInterestPaid
      ensures previousInterestPaid == payment
      ensures Total() == old(Total()) + payment
    {
      previousInterestPaid := payment;
    }

    /** `pay_current_margin`: fills its own, still empty, bucket and nothing else. */
    method PayCurrentMargin(payment: Amount)
      requires currentMarginPaid == 0
      modifies this`currentMarginPaid
      ensures currentMarginPaid == payment
      ensures Total() == old(Total()) + payment
    {
      currentMarginPaid := payment;
    }

    /** `pay_current_interest`: fills its own, still empty, bucket and nothing else. */
    method PayCurrentInterest(payment: Amount)
      requires currentInterestPaid == 0
      modifies this`currentInterestPaid
      ensures currentInterestPaid == payment
      ensures Total() == old(Total()) + payment
    {
      currentInterestPaid := payment;
    }

    /**
     * `pay_principal`: records the whole payment, even beyond the principal
     * owed, and closes the receipt when the payment covers the principal.
     */
    method PayPrincipal(principal: Amount, payment: Amount)
      requires principalPaid == 0
      modifies this`principalPaid, this`close
      ensures principalPaid == payment
      ensures close <==> principal <= payment
      ensures Total() == old(Total()) + payment
    {
      principalPaid := payment;
      close := principal <= payment;
    }
  }

  /**
   * Paying the principal into a default receipt: exactly the principal, or
   * more, records the full payment and closes; every other bucket stays empty.
   */
  method PayPrincipalOnDefault(principal: Amount, payment: Amount) returns (receipt: Receipt)
    ensures receipt.principalPaid == payment
    ensures receipt.close <==> principal <= payment
    ensures receipt.previousMarginPaid == 0 && receipt.currentMarginPaid == 0
    ensures receipt.previousInterestPaid == 0 && receipt.currentInterestPaid == 0
    ensures receipt.Total() == payment
  {
    receipt := new Receipt();
    receipt.PayPrincipal(principal, payment);
  }

  /**
   * Filling every bucket once, in the ledger's order, makes the total the sum
   * of the five payments; only the principal decides whether it closes.
   */
  method PayAllBuckets(previousMargin: Amount, previousInterest: Amount, currentMargin: Amount,
                       currentInterest: Amount, principal: Amount, payment: Amount)
    returns (total: nat, close: bool)
    ensures total == previousMargin + previousInterest + currentMargin + currentInterest + payment
    ensures close <==> principal <= payment
  {
    var receipt := new Receipt();
    receipt.PayPreviousMargin(previousMargin);
    receipt.PayPreviousInterest(previousInterest);
    receipt.PayCurrentMargin(currentMargin);
    receipt.PayCurrentInterest(currentInterest);
    receipt.PayPrincipal(principal, payment);
    total, close := receipt.Total(), receipt.close;
  }
}
