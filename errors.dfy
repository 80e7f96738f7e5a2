/** The program's error enum, and the failures that the runtime, the account
    loader and the token program raise around it. Every failure aborts the
    whole instruction: nothing it wrote is kept. */
module Errors {

  /** `TokenVestingError`. `NotOwner` and `InvalidTimeRange` are declared but
      no instruction raises them. */
  datatype TokenVestingError =
    | NotOwner
    | InvalidTimeRange
    | VestingNotStarted
    | InsufficientVestedAmount
    | BeneficiaryMismatch
    | NotAuthorized
    | InvalidVestingSchedule
    | InvalidAmount

  /** The code an error is reported with: custom errors are numbered from
      6000 in declaration order. */
  function Code(e: TokenVestingError): (c: nat)
    ensures 6000 <= c < 6008
  {
    match e
    case NotOwner => 6000
    case InvalidTimeRange => 6001
    case VestingNotStarted => 6002
    case InsufficientVestedAmount => 6003
    case BeneficiaryMismatch => 6004
    case NotAuthorized => 6005
    case InvalidVestingSchedule => 6006
    case InvalidAmount => 6007
  }

  /** Distinct errors are reported with distinct codes. */
  lemma CodeInjective(e1: TokenVestingError, e2: TokenVestingError)
    ensures Code(e1) == Code(e2) ==> e1 == e2
  {
  }

  /** Errors of the token program's `transfer`. */
  datatype TokenError = InsufficientFunds | MintMismatch | OwnerMismatch | Overflow

  datatype Failure =
    | Program(code: TokenVestingError)
      // an account handed to the instruction does not hold a record of the expected kind
    | AccountNotInitialized
      // `init` on an address that already holds an account
    | AccountInUse
      // the treasury handed to `claim_token` is not at the address its seeds derive
    | ConstraintSeeds
      // a seed longer than 32 bytes: no program address can be derived from it
    | MaxSeedLengthExceeded
      // an i64 operation overflowed; the program aborts
    | ArithmeticOverflow
    | Token(cause: TokenError)

  /** The result of an instruction. */
  datatype Outcome = Done | Failed(failure: Failure)
}
