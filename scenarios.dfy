/** Runs of the instructions on a fresh ledger, with what each step yields. */
module Scenarios {
  import opened Primitives
  import opened Errors
  import opened Addresses
  import opened State
  import opened TokenProgram
  import opened ClaimToken
  import opened CreateEmployeeVesting
  import opened TokenVesting

  /** `"Codigo"`. */
  const CODIGO: seq<Byte> := [0x43, 0x6f, 0x64, 0x69, 0x67, 0x6f]
  /** `"DifferentCompany"`. */
  const DIFFERENT_COMPANY: seq<Byte> :=
    [0x44, 0x69, 0x66, 0x66, 0x65, 0x72, 0x65, 0x6e, 0x74, 0x43, 0x6f, 0x6d, 0x70, 0x61, 0x6e, 0x79]

  /** A company registers once; registering the same name again fails and
      leaves the stored account as it was, whoever tries and with whatever
      mint; a different name gets its own account and treasury. */
  method RegisterCompanies(payer: Address, mint: Address, intruder: Address, otherMint: Address,
                           bump: Byte, treasuryBump: Byte)
    returns (first: Outcome, again: Outcome, different: Outcome, stored: VestingAccount, treasury: TokenAccount)
    ensures first == Done && again == Failed(AccountInUse) && different == Done
    ensures stored == VestingAccount(payer, mint, CODIGO, TreasuryAddress(CODIGO), treasuryBump, bump)
    ensures treasury == TokenAccount(mint, VestingAddress(CODIGO), 0)
  {
    var ledger := new Ledger();
    first := ledger.CreateVestingAccount(payer, VestingAddress(CODIGO), mint, TreasuryAddress(CODIGO), CODIGO, bump, treasuryBump);
    again := ledger.CreateVestingAccount(intruder, VestingAddress(CODIGO), otherMint, TreasuryAddress(CODIGO), CODIGO, bump, treasuryBump);
    DistinctNamesDistinctAddresses(CODIGO, DIFFERENT_COMPANY);
    VestingAliasesTreasury(DIFFERENT_COMPANY, CODIGO);
    VestingAliasesTreasury(CODIGO, DIFFERENT_COMPANY);
    assert DIFFERENT_COMPANY[0] != (TREASURY_SEED + CODIGO)[0];
    VestingIsNotItsTreasury(DIFFERENT_COMPANY);
    different := ledger.CreateVestingAccount(payer, VestingAddress(DIFFERENT_COMPANY), mint, TreasuryAddress(DIFFERENT_COMPANY), DIFFERENT_COMPANY, bump, treasuryBump);
    stored := ledger.vestings[VestingAddress(CODIGO)];
    treasury := ledger.tokens[TreasuryAddress(CODIGO)];
  }

  /** A company named `"treasury"` followed by another company's name takes
      that company's treasury address: registered first, it keeps the other
      name from ever being registered. */
  method NameSquatting(payer: Address, mint: Address, bump: Byte, treasuryBump: Byte)
    returns (squatter: Outcome, victim: Outcome)
    ensures squatter == Done && victim == Failed(AccountInUse)
  {
    var ledger := new Ledger();
    squatter := ledger.CreateVestingAccount(payer, VestingAddress(TREASURY_SEED + CODIGO), mint, TreasuryAddress(TREASURY_SEED + CODIGO), TREASURY_SEED + CODIGO, bump, treasuryBump);
    VestingAliasesTreasury(TREASURY_SEED + CODIGO, CODIGO);
    victim := ledger.CreateVestingAccount(payer, VestingAddress(CODIGO), mint, TreasuryAddress(CODIGO), CODIGO, bump, treasuryBump);
  }

  /** Accounts passed at addresses other than those derived from their
      seeds are refused before anything is created: a vesting account at
      the treasury's address, then the right vesting account with the
      treasury at the vesting account's own address. */
  method MisplacedAccounts(payer: Address, mint: Address, employee: Address, bump: Byte, treasuryBump: Byte)
    returns (swappedVesting: Outcome, swappedTreasury: Outcome, created: Outcome, misplacedRecord: Outcome)
    ensures swappedVesting == Failed(ConstraintSeeds) && swappedTreasury == Failed(ConstraintSeeds)
    ensures created == Done && misplacedRecord == Failed(ConstraintSeeds)
  {
    var ledger := new Ledger();
    VestingIsNotItsTreasury(CODIGO);
    swappedVesting := ledger.CreateVestingAccount(payer, TreasuryAddress(CODIGO), mint, TreasuryAddress(CODIGO),
                                                  CODIGO, bump, treasuryBump);
    swappedTreasury := ledger.CreateVestingAccount(payer, VestingAddress(CODIGO), mint, VestingAddress(CODIGO),
                                                   CODIGO, bump, treasuryBump);
    created := ledger.CreateVestingAccount(payer, VestingAddress(CODIGO), mint, TreasuryAddress(CODIGO), CODIGO, bump, treasuryBump);
    misplacedRecord := ledger.CreateEmployeeVesting(payer, VestingAddress(CODIGO), (TreasuryAddress(CODIGO), employee),
                                                    employee, 0, 100, 1000);
  }

  /** The one-year schedule of 100,000,000 units from `t`, with `withdrawn`
      already paid out. */
  function YearSchedule(employee: Address, t: I64, withdrawn: I64): EmployeeVesting
    requires IsI64(t + 31_536_000)
  {
    EmployeeVesting(employee, t, t + 31_536_000, 100_000_000, withdrawn, VestingAddress(CODIGO))
  }

  /** Company "Codigo", registered by `owner` for `mint`. */
  function Companies(owner: Address, mint: Address): map<Address, VestingAccount>
  {
    map[VestingAddress(CODIGO) := VestingAccount(owner, mint, CODIGO, TreasuryAddress(CODIGO), 255, 255)]
  }

  /** The employee's one-year record under "Codigo". */
  function Records(employee: Address, t: I64, withdrawn: I64): map<EmployeeKey, EmployeeVesting>
    requires IsI64(t + 31_536_000)
  {
    map[(VestingAddress(CODIGO), employee) := YearSchedule(employee, t, withdrawn)]
  }

  /** The treasury of "Codigo" with the given balance, and the employee's
      wallet with the given balance (no wallet when `wallet` is `None`). */
  function Balances(employee: Address, mint: Address, treasury: U64, wallet: Option<U64>)
    : map<Address, TokenAccount>
  {
    var funded := map[TreasuryAddress(CODIGO) := TokenAccount(mint, VestingAddress(CODIGO), treasury)];
    match wallet
    case None => funded
    case Some(held) => funded[Ata(employee, mint) := TokenAccount(mint, employee, held)]
  }

  /** A claim by `employee` against the "Codigo" record at `now`. */
  function YearClaim(vestings: map<Address, VestingAccount>, employees: map<EmployeeKey, EmployeeVesting>,
                     tokens: map<Address, TokenAccount>, employee: Address, mint: Address, now: I64)
    : Result<(map<EmployeeKey, EmployeeVesting>, map<Address, TokenAccount>), Failure>
    requires TokensConsistent(tokens)
  {
    ClaimEffect(vestings, employees, tokens, employee, (VestingAddress(CODIGO), employee),
                VestingAddress(CODIGO), TreasuryAddress(CODIGO), mint, now)
  }

  /** The claim at the start time finds nothing vested. */
  lemma ClaimAtStartRefused(owner: Address, employee: Address, mint: Address, t: I64)
    requires IsI64(t + 31_536_000)
    ensures TokensConsistent(Balances(employee, mint, 100_000_000, None))
    ensures YearClaim(Companies(owner, mint), Records(employee, t, 0), Balances(employee, mint, 100_000_000, None),
                      employee, mint, t)
            == Err(Program(InsufficientVestedAmount))
  {
    NoClaimUntilAfterStart(YearSchedule(employee, t, 0), t);
  }

  /** The claim half-way through pays out exactly half, into a wallet
      created for the purpose. */
  lemma ClaimAtHalfPaysHalf(owner: Address, employee: Address, mint: Address, t: I64)
    requires IsI64(t + 31_536_000)
    ensures TokensConsistent(Balances(employee, mint, 100_000_000, None))
    ensures YearClaim(Companies(owner, mint), Records(employee, t, 0), Balances(employee, mint, 100_000_000, None),
                      employee, mint, t + 15_768_000)
            == Ok((Records(employee, t, 50_000_000), Balances(employee, mint, 50_000_000, Some(50_000_000))))
  {
    var ev := YearSchedule(employee, t, 0);
    HalfYearExample(ev);
    assert ClaimableAmount(ev, t + 15_768_000) == Ok(50_000_000);
    var tokens := Balances(employee, mint, 100_000_000, None);
    var moved := (TokenAccount(mint, VestingAddress(CODIGO), 50_000_000), TokenAccount(mint, employee, 50_000_000));
    assert Transfer(tokens[TreasuryAddress(CODIGO)], Destination(tokens, employee, mint),
                    VestingAddress(CODIGO), 50_000_000) == Ok(moved);
    assert tokens[TreasuryAddress(CODIGO) := moved.0][Ata(employee, mint) := moved.1]
        == Balances(employee, mint, 50_000_000, Some(50_000_000));
    assert AfterClaim(ev, 50_000_000) == YearSchedule(employee, t, 50_000_000);
    assert Records(employee, t, 0)[(VestingAddress(CODIGO), employee) := YearSchedule(employee, t, 50_000_000)]
        == Records(employee, t, 50_000_000);
  }

  /** A second claim at the same instant finds nothing new. */
  lemma ClaimHalfAgainRefused(owner: Address, employee: Address, mint: Address, t: I64)
    requires IsI64(t + 31_536_000)
    ensures TokensConsistent(Balances(employee, mint, 50_000_000, Some(50_000_000)))
    ensures YearClaim(Companies(owner, mint), Records(employee, t, 50_000_000),
                      Balances(employee, mint, 50_000_000, Some(50_000_000)), employee, mint, t + 15_768_000)
            == Err(Program(InsufficientVestedAmount))
  {
    var ev := YearSchedule(employee, t, 0);
    HalfYearExample(ev);
    assert ClaimableAmount(ev, t + 15_768_000) == Ok(50_000_000);
    SecondClaimFails(ev, t + 15_768_000);
    assert AfterClaim(ev, 50_000_000) == YearSchedule(employee, t, 50_000_000);
  }

  /** The claim at the end time pays out the other half and empties the treasury. */
  lemma ClaimAtEndPaysRest(owner: Address, employee: Address, mint: Address, t: I64)
    requires IsI64(t + 31_536_000)
    ensures TokensConsistent(Balances(employee, mint, 50_000_000, Some(50_000_000)))
    ensures YearClaim(Companies(owner, mint), Records(employee, t, 50_000_000),
                      Balances(employee, mint, 50_000_000, Some(50_000_000)), employee, mint, t + 31_536_000)
            == Ok((Records(employee, t, 100_000_000), Balances(employee, mint, 0, Some(100_000_000))))
  {
    var ev := YearSchedule(employee, t, 0);
    HalfYearExample(ev);
    VestedIgnoresWithdrawn(ev, 50_000_000, t + 31_536_000);
    var half := YearSchedule(employee, t, 50_000_000);
    assert ClaimableAmount(half, t + 31_536_000) == Ok(50_000_000);
    var tokens := Balances(employee, mint, 50_000_000, Some(50_000_000));
    var moved := (TokenAccount(mint, VestingAddress(CODIGO), 0), TokenAccount(mint, employee, 100_000_000));
    assert Transfer(tokens[TreasuryAddress(CODIGO)], Destination(tokens, employee, mint),
                    VestingAddress(CODIGO), 50_000_000) == Ok(moved);
    assert tokens[TreasuryAddress(CODIGO) := moved.0][Ata(employee, mint) := moved.1]
        == Balances(employee, mint, 0, Some(100_000_000));
    assert AfterClaim(half, 50_000_000) == YearSchedule(employee, t, 100_000_000);
    assert Records(employee, t, 50_000_000)[(VestingAddress(CODIGO), employee) := YearSchedule(employee, t, 100_000_000)]
        == Records(employee, t, 100_000_000);
  }

  /** With nothing in the treasury, the claim at the end time is refused by
      the token program for lack of funds. */
  lemma UnfundedClaimRefused(owner: Address, employee: Address, mint: Address, t: I64)
    requires IsI64(t + 31_536_000)
    ensures TokensConsistent(Balances(employee, mint, 0, None))
    ensures YearClaim(Companies(owner, mint), Records(employee, t, 0), Balances(employee, mint, 0, None),
                      employee, mint, t + 31_536_000)
            == Err(Token(InsufficientFunds))
  {
    var ev := YearSchedule(employee, t, 0);
    HalfYearExample(ev);
    assert ClaimableAmount(ev, t + 31_536_000) == Ok(100_000_000);
  }

  /** Company "Codigo" registered, its treasury funded with `funding` units,
      and a one-year schedule for `employee` of 100,000,000 units. */
  method YearScheduleLedger(owner: Address, employee: Address, mint: Address, t: I64, funding: U64)
    returns (ledger: Ledger, created: Outcome, scheduled: Outcome)
    requires IsI64(t + 31_536_000)
    ensures fresh(ledger) && ledger.Valid()
    ensures created == Done && scheduled == Done
    ensures ledger.vestings == Companies(owner, mint)
    ensures ledger.employees == Records(employee, t, 0)
    ensures ledger.tokens == Balances(employee, mint, funding, None)
  {
    ledger := new Ledger();
    created := ledger.CreateVestingAccount(owner, VestingAddress(CODIGO), mint, TreasuryAddress(CODIGO), CODIGO, 255, 255);
    var funded := ledger.Fund(TreasuryAddress(CODIGO), funding);
    scheduled := ledger.CreateEmployeeVesting(owner, VestingAddress(CODIGO), (VestingAddress(CODIGO), employee),
                                              employee, t, t + 31_536_000, 100_000_000);
  }

  /** The one-year schedule of 100,000,000 units, funded in full: nothing at
      the start, exactly half after half a year, nothing more at that same
      instant, and the rest at the end, which empties the treasury. */
  method HalfYearClaims(owner: Address, employee: Address, mint: Address, t: I64)
    returns (atStart: Outcome, atHalf: Outcome, again: Outcome, atEnd: Outcome,
             halfBalance: int, endBalance: int, treasuryLeft: int)
    requires IsI64(t + 31_536_000)
    ensures atStart == Failed(Program(InsufficientVestedAmount))
    ensures atHalf == Done && halfBalance == 50_000_000
    ensures again == Failed(Program(InsufficientVestedAmount))
    ensures atEnd == Done && endBalance == 100_000_000 && treasuryLeft == 0
  {
    var ledger, _, _ := YearScheduleLedger(owner, employee, mint, t, 100_000_000);
    var vestingKey, treasuryKey := VestingAddress(CODIGO), TreasuryAddress(CODIGO);
    var record, wallet := (vestingKey, employee), Ata(employee, mint);
    ClaimAtStartRefused(owner, employee, mint, t);
    atStart := ledger.Claim(employee, record, vestingKey, treasuryKey, mint, t);
    ClaimAtHalfPaysHalf(owner, employee, mint, t);
    atHalf := ledger.Claim(employee, record, vestingKey, treasuryKey, mint, t + 15_768_000);
    halfBalance := ledger.tokens[wallet].amount;
    ClaimHalfAgainRefused(owner, employee, mint, t);
    again := ledger.Claim(employee, record, vestingKey, treasuryKey, mint, t + 15_768_000);
    ClaimAtEndPaysRest(owner, employee, mint, t);
    atEnd := ledger.Claim(employee, record, vestingKey, treasuryKey, mint, t + 31_536_000);
    endBalance := ledger.tokens[wallet].amount;
    treasuryLeft := ledger.tokens[treasuryKey].amount;
  }

  /** Schedules are accepted whatever the treasury holds; a shortfall only
      shows when a claim's transfer is refused. */
  method UnfundedSchedule(owner: Address, employee: Address, mint: Address, t: I64)
    returns (scheduled: Outcome, claimed: Outcome)
    requires IsI64(t + 31_536_000)
    ensures scheduled == Done
    ensures claimed == Failed(Token(InsufficientFunds))
  {
    var ledger, _, s := YearScheduleLedger(owner, employee, mint, t, 0);
    scheduled := s;
    var vestingKey := VestingAddress(CODIGO);
    UnfundedClaimRefused(owner, employee, mint, t);
    claimed := ledger.Claim(employee, (vestingKey, employee), vestingKey, TreasuryAddress(CODIGO), mint, t + 31_536_000);
  }
}
