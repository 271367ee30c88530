/** Success or failure of a handler, and the error codes the handlers raise. */
module Results {

  datatype Option<+T> = None | Some(value: T)

  /** The program's error codes that this model can raise.  `AccountError` stands for every
      rejection made by the runtime or the account framework before or during a handler
      (a missing account, a wrong derived address, an account borrowed twice), and
      `InsufficientFunds` for a refused token or system transfer. */
  datatype Error =
    | InvalidFeeBps
    | InvalidTimelock
    | InvalidRemainingAccounts
    | InvalidWhitelistOrder
    | StaleOracle
    | InvalidOracle
    | InvalidNav
    | MathOverflow
    | InvalidTokenVault
    | DepositTooSmall
    | InvalidWithdrawal
    | InsufficientShares
    | WithdrawTimelock
    | InsufficientLiquidity
    | Unauthorized
    | AlreadyInitialized
    | FundLocked
    | FundNotLocked
    | MissingSettleInstruction
    | InvalidSettleInstruction
    | InvalidMinOut
    | ZeroShares
    | TokenVaultNotEmpty
    | OrderNotOpen
    | OrderExpired
    | OrderNotTriggered
    | InvalidOrderVault
    | InvalidOrderSide
    | InvalidDcaInterval
    | InvalidDcaSlice
    | DcaNotReady
    | DcaCompleted
    | MaxActiveDca
    | InvalidFundType
    | InvalidStrategy
    | RebalanceNotNeeded
    | WsolNotCleared
    | AccountError
    | InsufficientFunds

  datatype Result<+T> = Ok(value: T) | Err(error: Error) {
    predicate IsFailure() {
      Err?
    }

    function PropagateFailure<U>(): Result<U>
      requires Err?
    {
      Err(error)
    }

    function Extract(): T
      requires Ok?
    {
      value
    }
  }

  /** The outcome of one `require!`. */
  datatype Check = Pass | Fail(error: Error) {
    predicate IsFailure() {
      Fail?
    }

    function PropagateFailure<U>(): Result<U>
      requires Fail?
    {
      Err(error)
    }
  }

  function Need(condition: bool, error: Error): Check {
    if condition then Pass else Fail(error)
  }
}
