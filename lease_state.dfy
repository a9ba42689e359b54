/**
 * The lease's lifecycle state and its controller dispatch. A state is one of
 * five stages; each stage may implement `reply`, `execute` and `sudo`, and
 * must implement `query`. An operation a stage leaves at its default fails
 * with UnsupportedOperation naming the operation, and produces no next state.
 *
 * The stages' own payloads and transitions are not part of this model: the
 * payload is the type parameter D, and what a stage implements and does is
 * given by the `implements` and `run` parameters.
 */
module LeaseState {
  import opened Wrappers
  import opened LeaseError

  datatype State<D> =
    | RequestLoan(payload: D)
    | OpenIcaAccount(payload: D)
    | OpeningTransferOut(payload: D)
    | BuyAsset(payload: D)
    | Active(payload: D)

  /** `Response`: the outbound response paired with the one next state. */
  datatype Response<R, D> = Response(cwResponse: R, nextState: State<D>)

  /**
   * The controller operations that have a default. `query` has none: every
   * stage answers it itself, so it never reaches `Dispatch`.
   */
  datatype Operation = Reply | Execute | Sudo

  function OperationName(op: Operation): string {
    match op
    case Reply => "reply"
    case Execute => "execute"
    case Sudo => "sudo"
  }

  /** `err(op)`: the default answer of an operation a stage does not implement. */
  function Err<T>(op: string): (r: ContractResult<T>)
    ensures r.Failure? && r.error == UnsupportedOperationError(op)
  {
    Failure(UnsupportedOperationError(op))
  }

  /** The next state a result carries: one on success, none on error. */
  function NextState<R, D>(r: ContractResult<Response<R, D>>): (s: Option<State<D>>)
    ensures s.Some? <==> r.Success?
    ensures r.Success? ==> s.value == r.value.nextState
  {
    match r
    case Success(resp) => Some(resp.nextState)
    case Failure(_) => None
  }

  /**
   * Dispatch of a defaulted operation to the current stage: the stage's own
   * handler when it implements the operation, the default error otherwise.
   */
  function Dispatch<D, M, R>(state: State<D>, op: Operation, msg: M,
                             implements: (State<D>, Operation) -> bool,
                             run: (State<D>, Operation, M) -> ContractResult<Response<R, D>>)
    : (r: ContractResult<Response<R, D>>)
    ensures implements(state, op) ==> r == run(state, op, msg)
    ensures !implements(state, op) ==> r == Failure(UnsupportedOperation(OperationName(op)))
  {
    if implements(state, op) then run(state, op, msg) else Err(OperationName(op))
  }

  /**
   * A defaulted operation yields no next state, and its error names exactly
   * that operation, so no two defaulted operations fail alike.
   */
  lemma DefaultHasNoNextState<D, M, R>(state: State<D>, op: Operation, msg: M,
                                      implements: (State<D>, Operation) -> bool,
                                      run: (State<D>, Operation, M) -> ContractResult<Response<R, D>>)
    requires !implements(state, op)
    ensures NextState(Dispatch(state, op, msg, implements, run)) == None
    ensures forall other: Operation :: other != op ==>
      Dispatch(state, op, msg, implements, run).error != UnsupportedOperation(OperationName(other))
  {
  }

  /** A successful step yields exactly the next state its handler chose. */
  lemma SuccessfulStepHasOneNextState<D, M, R>(state: State<D>, op: Operation, msg: M,
                                              implements: (State<D>, Operation) -> bool,
                                              run: (State<D>, Operation, M) -> ContractResult<Response<R, D>>)
    requires Dispatch(state, op, msg, implements, run).Success?
    ensures implements(state, op)
    ensures NextState(Dispatch(state, op, msg, implements, run)) == Some(run(state, op, msg).value.nextState)
  {
  }

  /** The default answers of the three defaulted operations. */
  lemma DefaultAnswers<D, M, R>(state: State<D>, msg: M,
                                run: (State<D>, Operation, M) -> ContractResult<Response<R, D>>)
    ensures Dispatch(state, Reply, msg, (s, o) => false, run) == Failure(UnsupportedOperation("reply"))
    ensures Dispatch(state, Execute, msg, (s, o) => false, run) == Failure(UnsupportedOperation("execute"))
    ensures Dispatch(state, Sudo, msg, (s, o) => false, run) == Failure(UnsupportedOperation("sudo"))
  {
  }
}
