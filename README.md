# token_vesting: a verified model of the vesting program

The `token_vesting` program vests an SPL token linearly over time. The model covers its three instructions:

- **`create_vesting_account`** registers a company by name. It creates a vesting account at the address derived from the name. It also creates a treasury token account, owned by the vesting account, at the address derived from `"treasury"` and the name.
- **`create_employee_vesting`** lets the company's owner attach one schedule per beneficiary: start time, end time and total amount.
- **`claim_token`** computes how much has vested at the current time: `elapsed * total / duration`, where `elapsed` is capped at the duration. The product is taken in 128 bits and rounded toward zero. The instruction transfers whatever was vested but not yet withdrawn from the treasury to the beneficiary's associated token account, then advances `total_withdraw` by that amount.

## Modules

| file | module | what it holds |
|---|---|---|
| `primitives.dfy` | `Primitives` | integer widths (`I64`, `U64`, `Byte`), `Option`/`Result`, Rust's truncating division |
| `errors.dfy` | `Errors` | `TokenVestingError` and its codes; the framework, runtime and token-program failures an instruction can end with |
| `addresses.dfy` | `Addresses` | program-derived addresses as the concatenation of their seeds, and the 32-byte seed limit |
| `state.dfy` | `State` | the `VestingAccount` and `EmployeeVesting` records and their allocated sizes |
| `token_program.dfy` | `TokenProgram` | token accounts and the token program's `transfer`, with its checks in its order |
| `claim_token.dfy` | `ClaimToken` | the vesting formula, the claimable amount, sequences of claims, and the transfer's authority |
| `create_employee_vesting.dfy` | `CreateEmployeeVesting` | schedule validation |
| `ledger.dfy` | `TokenVesting` | the `Ledger` class: three maps updated in place by the three instructions; the claim's effect as a function of the maps |
| `scenarios.dfy` | `Scenarios` | the instructions run in sequence on a fresh ledger |

### How the framework is modelled

- **Account processing order.** Anchor processes an instruction's accounts in a fixed order, and the model follows it:
  1. existing accounts are loaded; a missing one gives `AccountNotInitialized`;
  2. `init` accounts are created. In the two create instructions the caller passes each new account's address. An address other than the one derived from the account's seeds gives `ConstraintSeeds`, and an occupied one gives `AccountInUse`;
  3. the `constraint =` and `seeds` checks run in field order;
  4. the handler runs.

  Any failure leaves all state as it was.
- **Integer overflow.** Overflow in the i64 subtractions, and in `vested - total_withdraw`, aborts the instruction (`ArithmeticOverflow`). The model proves that the i128 product and the final cast to i64 never overflow. It also proves that the `+=` on `total_withdraw` never overflows, because the sum is the vested amount, itself an i64.
- **Time.** `Clock::get` is a parameter, `now`.

### Behaviour at the edges

- **Claims at or before the start.** A claim strictly before the start fails with `VestingNotStarted`. One exactly at the start computes 0 and fails with `InsufficientVestedAmount`.
- **Validation errors.** Amounts and times are signed i64. Validation reports `InvalidVestingSchedule` when `start >= end`. It reports `InvalidAmount` when `total <= 0`, which includes negative totals. The time range is checked first.
- **Order of checks in `create_employee_vesting`.** An existing record is reported (`AccountInUse`) before a fee payer who is not the owner (`NotAuthorized`), because `init` runs before constraints.
- **Treasury balance.** The claim handler never checks the treasury's balance. A short treasury surfaces as the token program's `InsufficientFunds`.
- **An unreachable branch.** `claim_token` has a branch that vests everything at once when `end <= start`. It is modelled, and it is proved unreachable for accepted schedules.
- **Employee record seeds.** The seeds are `["employee", vesting account, beneficiary]`, in the program's order. The generated client derives them in the other order; the client is not part of this model.

### Observations

- **A name can take another company's treasury address.** A company named `"treasury"` followed by another name X is stored at the address where X's treasury would go. Registered first, it keeps X from ever registering: `Addresses.VestingAliasesTreasury`, `Scenarios.NameSquatting`.
- **Some accepted schedules can never pay.** Validation compares the start and end, but bounds neither their distance nor the start itself. Two kinds of accepted schedule overflow on every claim:
  - A schedule whose length does not fit in an i64 overflows on every claim from its start on, so nothing is ever paid: `CreateEmployeeVesting.OverlongScheduleNeverPays`, `CreateEmployeeVesting.OverlongScheduleExists`.
  - A schedule whose length fits, but which starts so early that `now - start_time` does not fit, overflows at every such `now`. A hundred-second schedule starting at i64::MIN pays nothing at any clock reading from the epoch on: `CreateEmployeeVesting.EarlyStartNeverPays`, `CreateEmployeeVesting.EarlyStartExists`.

## Model

| member | source | states |
|---|---|---|
| Primitives.DivTrunc | programs/token_vesting/src/instructions/claim_token.rs:105 | Rust's `/` for a positive divisor: the quotient rounded toward zero, bracketed against the dividend for both signs |
| Primitives.ProductFitsI128 | programs/token_vesting/src/instructions/claim_token.rs:105 | the product of two i64 values always fits in an i128, so the widened multiplication never overflows |
| Errors.Code | programs/token_vesting/src/error.rs:8-25 | every program error has a code in 6000..6007 (Anchor numbers custom errors from 6000 in declaration order) |
| Errors.CodeInjective | programs/token_vesting/src/error.rs:8-25 | distinct errors have distinct codes |
| Addresses.VestingAddress | programs/token_vesting/src/instructions/create_vesting_account.rs:27-29 | the vesting account's address is what deriving its seeds `[company_name]` gives, whenever the name is a legal seed |
| Addresses.TreasuryAddress | programs/token_vesting/src/instructions/create_vesting_account.rs:39-42 | the treasury's address is what deriving its seeds `[b"treasury", company_name]` gives, whenever the name is a legal seed |
| Addresses.ProgramAddress | programs/token_vesting/src/instructions/create_vesting_account.rs:27-29 | an address is derived exactly when every seed is at most 32 bytes; otherwise derivation fails with `MaxSeedLengthExceeded` |
| Addresses.CompanyAddressesDerivable | programs/token_vesting/src/instructions/create_vesting_account.rs:27-42 | both of a company's addresses can be derived exactly when its name is at most 32 bytes |
| Addresses.VestingIsNotItsTreasury | programs/token_vesting/src/instructions/create_vesting_account.rs:27-42 | a company's vesting account and treasury never share an address |
| Addresses.DistinctNamesDistinctAddresses | programs/token_vesting/src/instructions/create_vesting_account.rs:27-42 | different names give different vesting addresses and different treasury addresses |
| Addresses.VestingAliasesTreasury | programs/token_vesting/src/instructions/create_vesting_account.rs:27-42 | the vesting address of one name equals the treasury address of another exactly when the first is `"treasury"` followed by the second |
| State.VestingAccountSpace | programs/token_vesting/src/instructions/create_vesting_account.rs:19-25 | a vesting account is allocated 110 bytes plus the length of the name |
| State.EmployeeVestingSpace | programs/token_vesting/src/instructions/create_employee_vesting.rs:28-34 | an employee record is allocated 104 bytes |
| TokenProgram.Transfer | programs/token_vesting/src/instructions/claim_token.rs:135-142 | for unfrozen accounts and an owner (not a delegate) as authority, the token program's transfer succeeds exactly when the balance suffices, the mints match, the authority owns the source and the destination does not overflow; each failure is reported in the token program's order; on success the amount moves and mints and owners are kept |
| TokenProgram.TransferConserves | programs/token_vesting/src/instructions/claim_token.rs:135-142 | a transfer neither creates nor destroys tokens |
| ClaimToken.VestedAt | programs/token_vesting/src/instructions/claim_token.rs:88-106 | before the start: `VestingNotStarted`; otherwise it succeeds exactly when both i64 subtractions fit; a non-positive duration vests everything; otherwise, for a non-negative total, the result is the floor of the capped elapsed share of the total |
| ClaimToken.Share | programs/token_vesting/src/instructions/claim_token.rs:105 | the i128 product fits in an i128, the quotient cast back to i64 never overflows, and for a non-negative total it is the floor of the linear share |
| ClaimToken.ShareWithinTotal | programs/token_vesting/src/instructions/claim_token.rs:105 | the truncated share lies between 0 and the total, with the total's sign, so the `as i64` cast is lossless |
| ClaimToken.VestedIgnoresWithdrawn | programs/token_vesting/src/instructions/claim_token.rs:93-106 | the vested amount does not depend on what was already withdrawn |
| ClaimToken.VestedWithinTotal | programs/token_vesting/src/instructions/claim_token.rs:93-106 | for an accepted schedule the vested amount lies in `[0, total_amount]` |
| ClaimToken.NothingVestedAtStart | programs/token_vesting/src/instructions/claim_token.rs:93-105 | nothing has vested at the start time |
| ClaimToken.FullyVestedFromEnd | programs/token_vesting/src/instructions/claim_token.rs:97-105 | exactly the total has vested at every time from the end on, wherever `now - start_time` fits in an i64 (otherwise the claim aborts) |
| ClaimToken.VestedMonotone | programs/token_vesting/src/instructions/claim_token.rs:93-106 | the vested amount never decreases as time goes on, and an evaluable later time makes every earlier time from the start evaluable |
| ClaimToken.HalfYearExample | tests/vesting.ts:43-45 | 100,000,000 units over 31,536,000 s: 0 at the start, 50,000,000 half-way, 100,000,000 at the end |
| ClaimToken.ClaimableAmount | programs/token_vesting/src/instructions/claim_token.rs:109-114 | the claim succeeds exactly when something vested is not yet withdrawn; the amount is positive and tops `total_withdraw` up to the vested amount; otherwise `InsufficientVestedAmount`, `ArithmeticOverflow` when `vested - total_withdraw` overflows, or the vesting error |
| ClaimToken.NoClaimUntilAfterStart | programs/token_vesting/src/instructions/claim_token.rs:88-90 | before the start a claim fails with `VestingNotStarted`; at the start it fails with `InsufficientVestedAmount` |
| ClaimToken.AfterClaim | programs/token_vesting/src/instructions/claim_token.rs:145 | the `+=`: a successful claim grows `total_withdraw` by the amount transferred and changes nothing else in the record |
| ClaimToken.ClaimKeepsEntitlement | programs/token_vesting/src/instructions/claim_token.rs:109-145 | after a successful claim `0 <= total_withdraw <= total_amount` still holds and `total_withdraw` equals the vested amount |
| ClaimToken.SecondClaimFails | programs/token_vesting/src/instructions/claim_token.rs:109-114 | a second claim at the same time fails with `InsufficientVestedAmount` |
| ClaimToken.TransferAuthorityAsWritten | programs/token_vesting/src/instructions/claim_token.rs:129-133 | as written, the transfer's authority is the treasury token account itself |
| ClaimToken.TransferAuthority | programs/token_vesting/src/instructions/create_vesting_account.rs:44-45 | the transfer's authority is the vesting account, the treasury's owner |
| ClaimToken.AsWrittenTransferAlwaysRefused | programs/token_vesting/src/instructions/claim_token.rs:129-142 | with the treasury named as its own authority, the transfer out of a treasury set up by `create_vesting_account` always fails: `OwnerMismatch` whenever the balance suffices |
| ClaimToken.TransferAuthorityAccepted | programs/token_vesting/src/instructions/create_vesting_account.rs:44-45 | signed by the vesting account, the treasury's owner, the transfer succeeds exactly when the balance suffices and the destination can take it |
| CreateEmployeeVesting.ScheduleError | programs/token_vesting/src/instructions/create_employee_vesting.rs:75-81 | a schedule is accepted exactly when `start < end` and `total > 0`; a bad range reports `InvalidVestingSchedule` before a bad amount reports `InvalidAmount` |
| CreateEmployeeVesting.AcceptedScheduleVestsLinearly | programs/token_vesting/src/instructions/create_employee_vesting.rs:75-89 | an accepted record whose length fits in an i64 starts inside the invariant, cannot be claimed at its start, is fully vested at its end, and never vests outside `[0, total]` |
| CreateEmployeeVesting.OverlongScheduleNeverPays | programs/token_vesting/src/instructions/claim_token.rs:93-94 | for an accepted schedule longer than the i64 range, a claim fails before the start and overflows from the start on |
| CreateEmployeeVesting.OverlongScheduleExists | programs/token_vesting/src/instructions/create_employee_vesting.rs:75-81 | the schedule from i64::MIN to 1 is accepted although its length does not fit in an i64 |
| CreateEmployeeVesting.EarlyStartNeverPays | programs/token_vesting/src/instructions/claim_token.rs:94 | on an accepted schedule, a claim at a `now` from the start on where `now - start_time` does not fit in an i64 fails with `ArithmeticOverflow` |
| CreateEmployeeVesting.EarlyStartExists | programs/token_vesting/src/instructions/create_employee_vesting.rs:75-81 | the hundred-second schedule from i64::MIN is accepted and its length fits in an i64, yet every claim from the epoch on overflows |
| TokenVesting.SettlementKeepsConsistency | programs/token_vesting/src/instructions/claim_token.rs:135-145 | writing a consistent record, a treasury with its mint and owner kept, and a destination of the right wallet and mint keeps the ledger invariant |
| TokenVesting.ClaimAccountsFailure | programs/token_vesting/src/instructions/claim_token.rs:15-54 | the claim's accounts pass exactly when all exist, the signer is the record's beneficiary, the vesting account is the record's, the treasury is at its derived address and the mint is the company's; each failure is reported in field order |
| TokenVesting.Destination | programs/token_vesting/src/instructions/claim_token.rs:43-49 | the beneficiary's associated token account, created empty if missing, always belongs to the beneficiary and holds the mint |
| TokenVesting.ClaimEffect | programs/token_vesting/src/instructions/claim_token.rs:76-150 | the whole claim on the maps: a failing account check is the result; then a claim-amount failure; then a refused transfer, as the token program's error; it succeeds exactly when the checks pass, something is claimable and the transfer goes through |
| TokenVesting.ClaimKeepsConsistency | programs/token_vesting/src/instructions/claim_token.rs:135-145 | a successful claim keeps the ledger invariant |
| TokenVesting.ClaimSettles | programs/token_vesting/src/instructions/claim_token.rs:109-145 | a successful claim pays a positive amount: the treasury loses it, the wallet gains it, and `total_withdraw` grows by it to equal the vested amount; nothing else changes |
| TokenVesting.ClaimRefusals | programs/token_vesting/src/instructions/claim_token.rs:88-90 | an account check's failure is the claim's failure; once checks pass, a claim before the start is `VestingNotStarted`, and one larger than the treasury's balance is the token program's `InsufficientFunds` |
| TokenVesting.ClaimSucceedsExactlyWhen | programs/token_vesting/src/instructions/claim_token.rs:129-142 | on a consistent ledger, once the checks pass and something is claimable, the claim succeeds exactly when the treasury covers the amount and the beneficiary's account can take it; a full destination gives the token program's `Overflow` |
| TokenVesting.ClaimStep | programs/token_vesting/src/instructions/claim_token.rs:109-145 | one successful claim keeps the invariant, adds the claimable amount to the record's `total_withdraw`, takes it from the treasury and changes no other record |
| TokenVesting.ClaimSeries | programs/token_vesting/src/instructions/claim_token.rs:76-150 | claims in turn, each on the state the last one left, a refused one changing nothing: the invariant holds throughout, the record grows by the total paid, the treasury shrinks by it, no other record changes |
| TokenVesting.SeriesNeverExceedsTotal | programs/token_vesting/src/instructions/claim_token.rs:109-145 | whatever the claim times, all claims on a fresh record together pay between 0 and its total |
| TokenVesting.SecondClaimRefused | programs/token_vesting/src/instructions/claim_token.rs:109-114 | right after a successful claim, another at the same instant passes the account checks and fails with `InsufficientVestedAmount` |
| TokenVesting.FailedClaimRepeats | programs/token_vesting/src/instructions/claim_token.rs:76-150 | a refused claim repeated at the same instant is refused every time and changes nothing |
| TokenVesting.SameInstantClaims | programs/token_vesting/src/instructions/claim_token.rs:109-145 | of any number of claims at one instant, only the first can transfer: the whole claimable amount if its transfer goes through, nothing if it fails (a short treasury included) |
| TokenVesting.Ledger.CreateVestingAccount | programs/token_vesting/src/instructions/create_vesting_account.rs:17-47 | a name over 32 bytes fails; then, account by account, a passed address not at its seeds gives `ConstraintSeeds` and an occupied one `AccountInUse`, changing nothing; otherwise the account and an empty treasury owned by it are added and nothing else changes; the ledger invariant is kept |
| TokenVesting.Ledger.CreateEmployeeVesting | programs/token_vesting/src/instructions/create_employee_vesting.rs:16-89 | a missing vesting account, a record address not at its seeds (`ConstraintSeeds`), an existing record, a fee payer who is not the owner and a bad schedule fail in that order and change nothing; otherwise exactly the new record, with nothing withdrawn, is added; the invariant is kept |
| TokenVesting.Ledger.Claim | programs/token_vesting/src/instructions/claim_token.rs:76-150 | the new records and token accounts are those `ClaimEffect` gives; a failure changes nothing; the invariant is kept |
| Scenarios.RegisterCompanies | tests/vesting.ts:104-236 | a company registers once; a second registration of the name fails and leaves the stored account as it was; a different name gets its own account; the treasury starts empty and is owned by the vesting account |
| Scenarios.NameSquatting | programs/token_vesting/src/instructions/create_vesting_account.rs:27-42 | registering `"treasury"` followed by a name first makes that name's registration fail with `AccountInUse` |
| Scenarios.MisplacedAccounts | programs/token_vesting/src/instructions/create_vesting_account.rs:27-43 | a vesting account or treasury passed at the other's address, or a record passed under another vesting account (whose seeds are at programs/token_vesting/src/instructions/create_employee_vesting.rs:36-41), is refused with `ConstraintSeeds` |
| Scenarios.ClaimAtStartRefused | programs/token_vesting/src/instructions/claim_token.rs:109-114 | on the funded one-year schedule a claim at the start fails with `InsufficientVestedAmount` |
| Scenarios.ClaimAtHalfPaysHalf | tests/vesting.ts:43-45 | half-way through, the claim pays exactly 50,000,000 into a new wallet |
| Scenarios.ClaimHalfAgainRefused | programs/token_vesting/src/instructions/claim_token.rs:109-114 | a second claim at the half-way instant fails with `InsufficientVestedAmount` |
| Scenarios.ClaimAtEndPaysRest | programs/token_vesting/src/instructions/claim_token.rs:97-145 | at the end the claim pays the remaining 50,000,000 and empties the treasury |
| Scenarios.UnfundedClaimRefused | programs/token_vesting/src/instructions/create_employee_vesting.rs:70-95 | with an empty treasury the claim fails with the token program's `InsufficientFunds` |
| Scenarios.YearScheduleLedger | programs/token_vesting/src/instructions/create_employee_vesting.rs:84-89 | registering, funding and scheduling on a fresh ledger yields exactly the company, the record with nothing withdrawn, and the funded treasury |
| Scenarios.HalfYearClaims | tests/vesting.ts:43-45 | four claims on the ledger pay 0, 50,000,000, 0 and 50,000,000, leaving the wallet with the total and the treasury empty |
| Scenarios.UnfundedSchedule | programs/token_vesting/src/instructions/create_employee_vesting.rs:70-95 | a schedule is accepted with an empty treasury, and the claim fails for lack of funds |

## Findings

| source | as written | input that shows it | evidently intended | confidence | as-written member | corrected member |
|---|---|---|---|---|---|---|
| programs/token_vesting/src/instructions/claim_token.rs:129-142 | the transfer names the treasury token account as its own `authority` and signs with the treasury's seeds, but `create_vesting_account` made the vesting account the treasury's owner (create_vesting_account.rs:45) | any claim that passes the program's checks, e.g. half-way through a funded schedule: the token program refuses with `OwnerMismatch` (with `InsufficientFunds` if the treasury is short) | the transfer is authorised by the vesting account, signing with its seeds `[company_name, bump]` | high, not executed | ClaimToken.AsWrittenTransferAlwaysRefused | ClaimToken.TransferAuthorityAccepted |

The ledger's `Claim` and `ClaimEffect` use the corrected authority, `ClaimToken.TransferAuthority`. As written, no claim would ever transfer anything.

## Left out

- Rent, lamports and the fee payer's balance: account creation is assumed always affordable.
- `msg!` logging.
- Program-derived address derivation is modelled without the hash and bump search:
  - the address is identified with the concatenation of its seeds;
  - hash collisions are assumed absent;
  - `bump` and `treasury_bump` are parameters of `CreateVestingAccount`.
- Employee records are kept in their own map, keyed by (vesting account, beneficiary). Their 72-byte seeds never coincide with a company's seeds.
- The checks the framework makes on account types are not modelled: that the mint is a real mint, and account discriminators. A wrong account type would surface as `AccountNotInitialized`.
- The CPI signer seeds (claim_token.rs:119-126) are not modelled separately; the transfer's authority stands for them.
- The token program's account states other than plain initialised accounts are not modelled. `TokenProgram.Transfer` has no frozen-account refusal (which the token program checks before the balance) and no delegate authority. A mint with a freeze authority, as the tests create, could freeze the treasury or the beneficiary's account, and the claim would then fail with `AccountFrozen`; the model never does.
- `init_if_needed` for the beneficiary's token account always succeeds in the model; it cannot fail for lack of rent. Its address is derived as the associated token account of the beneficiary and the mint rather than passed, so the associated-token checks that would refuse another account are not modelled.
- Funding the treasury happens outside the program. `TokenVesting.Ledger.Fund` models a token-program mint into an existing account, only so that scenarios can fund a treasury.
- Records are values in maps of the `Ledger` rather than separate objects updated in place.
- Concurrency is not modelled: the runtime serialises transactions that write the same account, and the model runs every instruction sequentially.
- The generated client (app/program_client/rpc.ts, app/program_client/pda.ts) and the test harness are not part of this model; the tests' assertions are used as properties.
- `NotOwner` and `InvalidTimeRange` are declared but never raised, so no operation produces them.
- Overflow is assumed to abort the instruction: the workspace's overflow-check setting is not part of this model. With wrapping arithmetic, the overflow results would differ.
- Company names are their bytes: UTF-8 is not modelled, and any byte string stands for a name.
