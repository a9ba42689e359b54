/**
 * The lease contract's errors. The variants that wrap another component's
 * error carry that error's text.
 */
module LeaseError {
  import opened Wrappers
  import Coin

  datatype ContractError =
    | Std(cause: string)
    | Unauthorized
    | FinanceError(cause: string)
    | PlatformError(cause: string)
    | LppError(cause: string)
    | TimeAlarmsError(cause: string)
    | OracleError(cause: string)
    | ProfitError(cause: string)
    | SwapError(cause: string)
    | NoPaymentError
    | InsufficientPayment(payment: Coin.CoinDTO)
    | LoanNotPaid
    | LoanClosed
    | InvalidParameters(reason: string)
    | UnsupportedOperation(operation: string)
    | BrokenInvariant(typeName: string, message: string)

  type ContractResult<T> = Result<T, ContractError>

  /** `unsupported_operation`: the error naming the refused operation, its text unchanged. */
  function UnsupportedOperationError(op: string): (e: ContractError)
    ensures e.UnsupportedOperation? && e.operation == op
  {
    UnsupportedOperation(op)
  }

  /**
   * `broken_invariant_if::<T>`: an error naming the type T (`typeName`) and the
   * message when the check holds, Ok otherwise.
   */
  function BrokenInvariantIf(typeName: string, check: bool, msg: string): (r: ContractResult<()>)
    ensures r.Failure? <==> check
    ensures r.Failure? ==> r.error == BrokenInvariant(typeName, msg)
  {
    if check then Failure(BrokenInvariant(typeName, msg)) else Success(())
  }

  /** The repay and close guards report four distinct errors. */
  lemma GuardErrorsDistinct(payment: Coin.CoinDTO)
    ensures |{NoPaymentError, InsufficientPayment(payment), LoanNotPaid, LoanClosed}| == 4
  {
  }
}
