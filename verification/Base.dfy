/** Values shared by every part of the model: identifiers, references, outcomes. */
module Base {

  type Id = nat
  type UserId = nat
  type Instrument = nat

  const HOUSE: UserId := 0
  const IRR: Instrument := 0
  const GOLD: Instrument := 1

  datatype Option<+T> = None | Some(value: T)

  /** The exceptions a service can throw. */
  datatype Error =
    | NotFound
    | Forbidden
    | BadRequest
    | BadStatus
    | InsufficientCredit
    | AlreadyReleased
    | NegativeBlocked
    | DuplicatePosting
    | KycRequired
    | LimitExceeded
    | ExceedsRemaining
    | ReservationMissing
    | ReservationInsufficient
    | NotFinalizable
    | StillAttached
    | QuoteRefused
    | SideMismatch
    | Expired

  /** What a transaction body returns: a value, or the exception that rolls it back. */
  datatype Result<+T> = Ok(value: T) | Err(error: Error) {
    predicate IsFailure() {
      Err?
    }

    function PropagateFailure<U>(): Result<U>
      requires Err?
    {
      Err(error)
    }

    function Extract(): T
      requires Ok?
    {
      value
    }
  }

  /** One account row per user and instrument. */
  datatype Acct = Acct(user: UserId, instr: Instrument)

  /** The pair (refType, refId) that reservations and postings carry. */
  datatype Ref =
    | Withdraw(id: Id)
    | WithdrawAllocation(id: Id)
    | Deposit(id: Id)
    | Trade(id: Id)
    | Remittance(id: Id)
    | Custody(id: Id)
    | Adjustment(id: Id)

  datatype HoldStatus = Reserved | Released | Consumed

  /** A reservation row, of funds on an account or of volume on a limit usage. */
  datatype Hold = Hold(amount: int, status: HoldStatus)

  datatype Side = Debit | Credit

  /** A signed decimal: the sign is kept apart from the value because a zero can be negative,
      and the entry side of a posting is read off the sign. */
  datatype Signed = Signed(value: int, negative: bool) {
    function EntrySide(): Side {
      if negative then Debit else Credit
    }
  }

  function Plus(amount: int): Signed {
    Signed(amount, amount < 0)
  }

  function Minus(amount: int): Signed {
    Signed(-amount, amount >= 0)
  }
}
