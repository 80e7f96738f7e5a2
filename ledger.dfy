/** The vesting program's instructions over the accounts they create and
    update. The accounts live in three maps of a `Ledger`: vesting accounts by
    address, employee records by the (vesting account, beneficiary) pair their
    address is derived from, and token accounts (treasuries and the
    beneficiaries' associated token accounts) by address. An instruction that
    fails leaves all three unchanged. */
module TokenVesting {
  import opened Primitives
  import opened Errors
  import opened Addresses
  import opened State
  import opened TokenProgram
  import opened ClaimToken
  import opened CreateEmployeeVesting

  /** An employee record's address, as its seeds `[b"employee", vesting
      account, beneficiary]`. */
  type EmployeeKey = (Address, Address)

  /** A vesting account is stored at the address derived from its name, and
      its treasury exists, holds the account's mint and is owned by it. */
  predicate VestingConsistent(key: Address, va: VestingAccount, tokens: map<Address, TokenAccount>)
  {
    && key == VestingAddress(va.companyName)
    && |va.companyName| <= MAX_SEED_LEN
    && va.treasuryTokenAccount == TreasuryAddress(va.companyName)
    && va.treasuryTokenAccount in tokens
    && tokens[va.treasuryTokenAccount].mint == va.mintToken
    && tokens[va.treasuryTokenAccount].owner == key
  }

  /** An employee record is stored under its own vesting account and
      beneficiary, its vesting account exists, and it keeps the accounting
      invariant. */
  predicate RecordConsistent(key: EmployeeKey, ev: EmployeeVesting, vestings: map<Address, VestingAccount>)
  {
    && key == (ev.vestingAccount, ev.beneficiary)
    && ev.vestingAccount in vestings
    && Scheduled(ev)
    && WithinEntitlement(ev)
  }

  /** An associated token account holds its own mint for its own wallet. */
  predicate TokenConsistent(key: Address, account: TokenAccount)
  {
    key.Ata? ==> account.owner == key.wallet && account.mint == key.mint
  }

  /** Every associated token account holds its own mint for its own wallet. */
  predicate TokensConsistent(tokens: map<Address, TokenAccount>)
  {
    forall k | k in tokens :: TokenConsistent(k, tokens[k])
  }

  /** The ledger invariant: every account consistent, and no address holding
      both a vesting account and a token account. */
  ghost predicate LedgerConsistent(vestings: map<Address, VestingAccount>,
                                   employees: map<EmployeeKey, EmployeeVesting>,
                                   tokens: map<Address, TokenAccount>)
  {
    && (forall k | k in vestings :: VestingConsistent(k, vestings[k], tokens))
    && (forall k | k in vestings :: k !in tokens)
    && (forall key | key in employees :: RecordConsistent(key, employees[key], vestings))
    && TokensConsistent(tokens)
  }

  /** Settling a claim keeps the invariant: the record stays consistent, the
      treasury keeps its mint and owner, and the destination is an associated
      token account of the right wallet and mint. */
  lemma SettlementKeepsConsistency(vestings: map<Address, VestingAccount>,
                                   employees: map<EmployeeKey, EmployeeVesting>,
                                   tokens: map<Address, TokenAccount>,
                                   record: EmployeeKey, ev': EmployeeVesting,
                                   treasuryKey: Address, treasury': TokenAccount,
                                   destinationKey: Address, destination': TokenAccount)
    requires LedgerConsistent(vestings, employees, tokens)
    requires record in employees && RecordConsistent(record, ev', vestings)
    requires treasuryKey in tokens
    requires treasury'.mint == tokens[treasuryKey].mint && treasury'.owner == tokens[treasuryKey].owner
    requires destinationKey.Ata? && TokenConsistent(destinationKey, destination')
    ensures LedgerConsistent(vestings, employees[record := ev'],
                             tokens[treasuryKey := treasury'][destinationKey := destination'])
  {
    VestingsSettled(vestings, tokens, treasuryKey, treasury', destinationKey, destination');
    RecordsSettled(vestings, employees, record, ev', employees[record := ev']);
    TokensSettled(tokens, treasuryKey, treasury', destinationKey, destination');
  }

  /** Settling touches no vesting account and keeps each treasury's mint and owner. */
  lemma VestingsSettled(vestings: map<Address, VestingAccount>, tokens: map<Address, TokenAccount>,
                        treasuryKey: Address, treasury': TokenAccount,
                        destinationKey: Address, destination': TokenAccount)
    requires forall k | k in vestings :: VestingConsistent(k, vestings[k], tokens) && k !in tokens
    requires treasuryKey in tokens
    requires treasury'.mint == tokens[treasuryKey].mint && treasury'.owner == tokens[treasuryKey].owner
    requires destinationKey.Ata?
    ensures var tokens' := tokens[treasuryKey := treasury'][destinationKey := destination'];
            forall k | k in vestings :: VestingConsistent(k, vestings[k], tokens') && k !in tokens'
  {
  }

  /** Replacing one record by a consistent one keeps every record consistent. */
  lemma RecordsSettled(vestings: map<Address, VestingAccount>, employees: map<EmployeeKey, EmployeeVesting>,
                       record: EmployeeKey, ev': EmployeeVesting, employees': map<EmployeeKey, EmployeeVesting>)
    requires forall key | key in employees :: RecordConsistent(key, employees[key], vestings)
    requires record in employees && RecordConsistent(record, ev', vestings)
    requires employees' == employees[record := ev']
    ensures forall key | key in employees' :: RecordConsistent(key, employees'[key], vestings)
  {
  }

  /** The treasury keeps its mint and owner and the destination is a consistent
      associated token account, so every token account stays consistent. */
  lemma TokensSettled(tokens: map<Address, TokenAccount>,
                      treasuryKey: Address, treasury': TokenAccount,
                      destinationKey: Address, destination': TokenAccount)
    requires TokensConsistent(tokens)
    requires treasuryKey in tokens
    requires treasury'.mint == tokens[treasuryKey].mint && treasury'.owner == tokens[treasuryKey].owner
    requires TokenConsistent(destinationKey, destination')
    ensures TokensConsistent(tokens[treasuryKey := treasury'][destinationKey := destination'])
  {
  }

  /** The failure the account checks of `claim_token` raise, if any, in
      the order they run: every account must exist, the signer must be the
      record's beneficiary, the vesting account must be the record's, the
      treasury must be at the vesting account's treasury address, and the
      mint must be its mint. */
  function ClaimAccountsFailure(vestings: map<Address, VestingAccount>,
                                employees: map<EmployeeKey, EmployeeVesting>,
                                tokens: map<Address, TokenAccount>,
                                beneficiary: Address, record: EmployeeKey, vestingKey: Address,
                                treasuryKey: Address, mint: Address): (f: Option<Failure>)
    ensures f.None? <==>
              record in employees && vestingKey in vestings && treasuryKey in tokens &&
              employees[record].beneficiary == beneficiary &&
              employees[record].vestingAccount == vestingKey &&
              treasuryKey == TreasuryAddress(vestings[vestingKey].companyName) &&
              mint == vestings[vestingKey].mintToken
    ensures record !in employees || vestingKey !in vestings || treasuryKey !in tokens ==>
              f == Some(AccountNotInitialized)
    ensures record in employees && vestingKey in vestings && treasuryKey in tokens &&
            employees[record].beneficiary != beneficiary ==>
              f == Some(Program(BeneficiaryMismatch))
    ensures record in employees && vestingKey in vestings && treasuryKey in tokens &&
            employees[record].beneficiary == beneficiary && employees[record].vestingAccount != vestingKey ==>
              f == Some(Program(NotAuthorized))
    ensures record in employees && vestingKey in vestings && treasuryKey in tokens &&
            employees[record].beneficiary == beneficiary && employees[record].vestingAccount == vestingKey &&
            treasuryKey != TreasuryAddress(vestings[vestingKey].companyName) ==>
              f == Some(ConstraintSeeds)
    ensures record in employees && vestingKey in vestings && treasuryKey in tokens &&
            employees[record].beneficiary == beneficiary && employees[record].vestingAccount == vestingKey &&
            treasuryKey == TreasuryAddress(vestings[vestingKey].companyName) &&
            mint != vestings[vestingKey].mintToken ==>
              f == Some(Program(NotAuthorized))
  {
    if record !in employees || vestingKey !in vestings || treasuryKey !in tokens then
      Some(AccountNotInitialized)
    else if employees[record].beneficiary != beneficiary then Some(Program(BeneficiaryMismatch))
    else if vestingKey != employees[record].vestingAccount then Some(Program(NotAuthorized))
    else if treasuryKey != TreasuryAddress(vestings[vestingKey].companyName) then Some(ConstraintSeeds)
    else if mint != vestings[vestingKey].mintToken then Some(Program(NotAuthorized))
    else None
  }

  /** The beneficiary's associated token account for `mint`, created empty
      when it does not exist yet. */
  function Destination(tokens: map<Address, TokenAccount>, beneficiary: Address, mint: Address): (t: TokenAccount)
    requires TokensConsistent(tokens)
    ensures t.owner == beneficiary && t.mint == mint
    ensures Ata(beneficiary, mint) !in tokens ==> t.amount == 0
  {
    if Ata(beneficiary, mint) in tokens then tokens[Ata(beneficiary, mint)]
    else TokenAccount(mint, beneficiary, 0)
  }

  /** What `claim_token` at `now` does to the records and token accounts:
      the failure it stops with, or the records and token accounts it
      leaves. */
  function ClaimEffect(vestings: map<Address, VestingAccount>,
                       employees: map<EmployeeKey, EmployeeVesting>,
                       tokens: map<Address, TokenAccount>,
                       beneficiary: Address, record: EmployeeKey, vestingKey: Address,
                       treasuryKey: Address, mint: Address, now: I64)
    : (r: Result<(map<EmployeeKey, EmployeeVesting>, map<Address, TokenAccount>), Failure>)
    requires TokensConsistent(tokens)
    ensures var checks := ClaimAccountsFailure(vestings, employees, tokens, beneficiary, record,
                                               vestingKey, treasuryKey, mint);
            && (checks.Some? ==> r == Err(checks.value))
            && (checks.None? && ClaimableAmount(employees[record], now).Err? ==>
                  r == Err(ClaimableAmount(employees[record], now).error))
            && (checks.None? && ClaimableAmount(employees[record], now).Ok? ==>
                  var t := Transfer(tokens[treasuryKey], Destination(tokens, beneficiary, mint),
                                    TransferAuthority(vestingKey, treasuryKey),
                                    ClaimableAmount(employees[record], now).value);
                  (t.Err? ==> r == Err(Token(t.error))) && (t.Ok? ==> r.Ok?))
            && (r.Ok? ==> checks.None? && ClaimableAmount(employees[record], now).Ok?)
  {
    match ClaimAccountsFailure(vestings, employees, tokens, beneficiary, record, vestingKey, treasuryKey, mint)
    case Some(f) => Err(f)
    case None =>
      var ev := employees[record];
      match ClaimableAmount(ev, now)
      case Err(f) => Err(f)
      case Ok(amount) =>
        match Transfer(tokens[treasuryKey], Destination(tokens, beneficiary, mint),
                       TransferAuthority(vestingKey, treasuryKey), amount)
        case Err(e) => Err(Token(e))
        case Ok(moved) =>
          Ok((employees[record := AfterClaim(ev, amount)],
              tokens[treasuryKey := moved.0][Ata(beneficiary, mint) := moved.1]))
  }

  /** A claim keeps the ledger invariant. */
  lemma ClaimKeepsConsistency(vestings: map<Address, VestingAccount>,
                              employees: map<EmployeeKey, EmployeeVesting>,
                              tokens: map<Address, TokenAccount>,
                              beneficiary: Address, record: EmployeeKey, vestingKey: Address,
                              treasuryKey: Address, mint: Address, now: I64)
    requires LedgerConsistent(vestings, employees, tokens)
    requires ClaimEffect(vestings, employees, tokens, beneficiary, record, vestingKey, treasuryKey, mint, now).Ok?
    ensures var after := ClaimEffect(vestings, employees, tokens, beneficiary, record, vestingKey,
                                     treasuryKey, mint, now).value;
            LedgerConsistent(vestings, after.0, after.1)
  {
    var ev := employees[record];
    var amount := ClaimableAmount(ev, now).value;
    ClaimKeepsEntitlement(ev, now);
    var moved := Transfer(tokens[treasuryKey], Destination(tokens, beneficiary, mint),
                          TransferAuthority(vestingKey, treasuryKey), amount).value;
    SettlementKeepsConsistency(vestings, employees, tokens, record, AfterClaim(ev, amount),
                               treasuryKey, moved.0, Ata(beneficiary, mint), moved.1);
  }

  /** A successful claim moves exactly the vested but unclaimed amount: the
      treasury loses it, the beneficiary's wallet gains it, the record's
      `total_withdraw` grows by it and so catches up with the vested amount.
      Only the record, the treasury and the wallet change. */
  lemma ClaimSettles(vestings: map<Address, VestingAccount>,
                     employees: map<EmployeeKey, EmployeeVesting>,
                     tokens: map<Address, TokenAccount>,
                     beneficiary: Address, record: EmployeeKey, vestingKey: Address,
                     treasuryKey: Address, mint: Address, now: I64)
    requires TokensConsistent(tokens)
    requires ClaimEffect(vestings, employees, tokens, beneficiary, record, vestingKey, treasuryKey, mint, now).Ok?
    ensures record in employees && treasuryKey in tokens && treasuryKey != Ata(beneficiary, mint)
    ensures var after := ClaimEffect(vestings, employees, tokens, beneficiary, record, vestingKey,
                                     treasuryKey, mint, now).value;
            var amount := after.0[record].totalWithdraw - employees[record].totalWithdraw;
            var wallet := Ata(beneficiary, mint);
            && 0 < amount
            && Ok(after.0[record].totalWithdraw) == VestedAt(employees[record], now)
            && after.0 == employees[record := employees[record].(totalWithdraw := after.0[record].totalWithdraw)]
            && after.1.Keys == tokens.Keys + {wallet}
            && after.1[treasuryKey] == tokens[treasuryKey].(amount := tokens[treasuryKey].amount - amount)
            && after.1[wallet] == TokenAccount(mint, beneficiary, Destination(tokens, beneficiary, mint).amount + amount)
            && (forall k | k in tokens && k != treasuryKey && k != wallet :: after.1[k] == tokens[k])
  {
    var ev := employees[record];
    VestedIgnoresWithdrawn(ev, ev.totalWithdraw, now);
  }

  /** The failures of a claim whose accounts pass their checks: before the
      start time it is refused as not started; once the schedule is under
      way, a treasury holding less than the claimable amount makes the
      transfer fail for lack of funds. */
  lemma ClaimRefusals(vestings: map<Address, VestingAccount>,
                      employees: map<EmployeeKey, EmployeeVesting>,
                      tokens: map<Address, TokenAccount>,
                      beneficiary: Address, record: EmployeeKey, vestingKey: Address,
                      treasuryKey: Address, mint: Address, now: I64)
    requires TokensConsistent(tokens)
    ensures var checks := ClaimAccountsFailure(vestings, employees, tokens, beneficiary, record,
                                               vestingKey, treasuryKey, mint);
            var effect := ClaimEffect(vestings, employees, tokens, beneficiary, record, vestingKey,
                                      treasuryKey, mint, now);
            && (checks.Some? ==> effect == Err(checks.value))
            && (checks.None? && now < employees[record].startTime ==>
                  effect == Err(Program(VestingNotStarted)))
            && (checks.None? && ClaimableAmount(employees[record], now).Ok? &&
                tokens[treasuryKey].amount < ClaimableAmount(employees[record], now).value ==>
                  effect == Err(Token(InsufficientFunds)))
  {
  }

  /** On a consistent ledger the treasury always holds the company's mint
      and is owned by the vesting account, so once the account checks pass
      and something is claimable, only the two balances decide the claim: it
      goes through exactly when the treasury covers the amount and the
      beneficiary's account can take it, and a full destination is refused
      with the token program's `Overflow`. */
  lemma ClaimSucceedsExactlyWhen(vestings: map<Address, VestingAccount>,
                                 employees: map<EmployeeKey, EmployeeVesting>,
                                 tokens: map<Address, TokenAccount>,
                                 beneficiary: Address, record: EmployeeKey, vestingKey: Address,
                                 treasuryKey: Address, mint: Address, now: I64)
    requires LedgerConsistent(vestings, employees, tokens)
    ensures var checks := ClaimAccountsFailure(vestings, employees, tokens, beneficiary, record,
                                               vestingKey, treasuryKey, mint);
            var effect := ClaimEffect(vestings, employees, tokens, beneficiary, record, vestingKey,
                                      treasuryKey, mint, now);
            checks.None? && ClaimableAmount(employees[record], now).Ok? ==>
              var amount := ClaimableAmount(employees[record], now).value;
              var wallet := Destination(tokens, beneficiary, mint);
              && (effect.Ok? <==> amount <= tokens[treasuryKey].amount && wallet.amount + amount <= U64_MAX)
              && (amount <= tokens[treasuryKey].amount && wallet.amount + amount > U64_MAX ==>
                    effect == Err(Token(Overflow)))
  {
    var checks := ClaimAccountsFailure(vestings, employees, tokens, beneficiary, record,
                                       vestingKey, treasuryKey, mint);
    if checks.None? {
      assert VestingConsistent(vestingKey, vestings[vestingKey], tokens);
    }
  }

  /** One successful claim, as a series of claims sees it: the invariant
      holds after it, the claimed amount is added to the record's
      `total_withdraw` and taken from the treasury, and no other record
      changes. */
  lemma ClaimStep(vestings: map<Address, VestingAccount>,
                  employees: map<EmployeeKey, EmployeeVesting>,
                  tokens: map<Address, TokenAccount>,
                  beneficiary: Address, record: EmployeeKey, vestingKey: Address,
                  treasuryKey: Address, mint: Address, now: I64,
                  after: (map<EmployeeKey, EmployeeVesting>, map<Address, TokenAccount>))
    requires LedgerConsistent(vestings, employees, tokens)
    requires ClaimEffect(vestings, employees, tokens, beneficiary, record, vestingKey, treasuryKey, mint, now)
               == Ok(after)
    ensures record in employees && ClaimableAmount(employees[record], now).Ok?
    ensures LedgerConsistent(vestings, after.0, after.1)
    ensures after.0.Keys == employees.Keys
    ensures forall k | k in employees && k != record :: after.0[k] == employees[k]
    ensures after.0[record] == employees[record].(totalWithdraw := employees[record].totalWithdraw +
                                                                   ClaimableAmount(employees[record], now).value)
    ensures treasuryKey in tokens && treasuryKey in after.1
    ensures after.1[treasuryKey].amount == tokens[treasuryKey].amount - ClaimableAmount(employees[record], now).value
  {
    ClaimKeepsConsistency(vestings, employees, tokens, beneficiary, record, vestingKey, treasuryKey, mint, now);
    ClaimSettles(vestings, employees, tokens, beneficiary, record, vestingKey, treasuryKey, mint, now);
  }

  /** Claims on one record at each of `times` in turn, each on the records
      and token accounts the previous one left; a claim that fails, for
      whatever reason, a treasury that cannot pay included, changes nothing.
      The result is the final records and token accounts and the amounts
      transferred, in order: the record's `total_withdraw` grows by their sum,
      the treasury shrinks by it, and no other record changes. */
  function ClaimSeries(vestings: map<Address, VestingAccount>,
                       employees: map<EmployeeKey, EmployeeVesting>,
                       tokens: map<Address, TokenAccount>,
                       beneficiary: Address, record: EmployeeKey, vestingKey: Address,
                       treasuryKey: Address, mint: Address, times: seq<I64>)
    : (r: (map<EmployeeKey, EmployeeVesting>, map<Address, TokenAccount>, seq<I64>))
    requires LedgerConsistent(vestings, employees, tokens)
    ensures LedgerConsistent(vestings, r.0, r.1)
    ensures r.0.Keys == employees.Keys
    ensures forall k | k in employees && k != record :: r.0[k] == employees[k]
    ensures record in employees ==>
              r.0[record] == employees[record].(totalWithdraw := r.0[record].totalWithdraw) &&
              r.0[record].totalWithdraw == employees[record].totalWithdraw + Sum(r.2)
    ensures treasuryKey in tokens ==>
              treasuryKey in r.1 && r.1[treasuryKey].amount + Sum(r.2) == tokens[treasuryKey].amount
    decreases |times|
  {
    if times == [] then (employees, tokens, [])
    else
      match ClaimEffect(vestings, employees, tokens, beneficiary, record, vestingKey, treasuryKey, mint, times[0])
      case Err(_) =>
        ClaimSeries(vestings, employees, tokens, beneficiary, record, vestingKey, treasuryKey, mint, times[1..])
      case Ok(after) =>
        ClaimStep(vestings, employees, tokens, beneficiary, record, vestingKey, treasuryKey, mint, times[0], after);
        var amount := ClaimableAmount(employees[record], times[0]).value;
        var rest := ClaimSeries(vestings, after.0, after.1, beneficiary, record, vestingKey, treasuryKey, mint, times[1..]);
        assert ([amount] + rest.2)[1..] == rest.2;
        (rest.0, rest.1, [amount] + rest.2)
  }

  /** However many claims are made on a fresh record, whenever, they
      transfer in all no more than its entitlement: the treasury is never
      drawn twice for the same vested amount. */
  lemma SeriesNeverExceedsTotal(vestings: map<Address, VestingAccount>,
                                employees: map<EmployeeKey, EmployeeVesting>,
                                tokens: map<Address, TokenAccount>,
                                beneficiary: Address, record: EmployeeKey, vestingKey: Address,
                                treasuryKey: Address, mint: Address, times: seq<I64>)
    requires LedgerConsistent(vestings, employees, tokens)
    requires record in employees && employees[record].totalWithdraw == 0
    ensures var paid := ClaimSeries(vestings, employees, tokens, beneficiary, record, vestingKey,
                                    treasuryKey, mint, times).2;
            0 <= Sum(paid) <= employees[record].totalAmount
  {
    var r := ClaimSeries(vestings, employees, tokens, beneficiary, record, vestingKey, treasuryKey, mint, times);
    assert RecordConsistent(record, r.0[record], vestings);
  }

  /** Right after a successful claim, a second one at the same instant
      passes the account checks and finds nothing left to claim. */
  lemma SecondClaimRefused(vestings: map<Address, VestingAccount>,
                           employees: map<EmployeeKey, EmployeeVesting>,
                           tokens: map<Address, TokenAccount>,
                           beneficiary: Address, record: EmployeeKey, vestingKey: Address,
                           treasuryKey: Address, mint: Address, now: I64)
    requires LedgerConsistent(vestings, employees, tokens)
    requires ClaimEffect(vestings, employees, tokens, beneficiary, record, vestingKey, treasuryKey, mint, now).Ok?
    ensures var after := ClaimEffect(vestings, employees, tokens, beneficiary, record, vestingKey,
                                     treasuryKey, mint, now).value;
            && LedgerConsistent(vestings, after.0, after.1)
            && ClaimEffect(vestings, after.0, after.1, beneficiary, record, vestingKey, treasuryKey, mint, now)
                 == Err(Program(InsufficientVestedAmount))
  {
    var ev := employees[record];
    assert RecordConsistent(record, ev, vestings);
    ClaimKeepsConsistency(vestings, employees, tokens, beneficiary, record, vestingKey, treasuryKey, mint, now);
    SecondClaimFails(ev, now);
  }

  /** A claim that fails fails again, and changes nothing, however often it
      is repeated at the same instant. */
  lemma {:induction false} FailedClaimRepeats(vestings: map<Address, VestingAccount>,
                                              employees: map<EmployeeKey, EmployeeVesting>,
                                              tokens: map<Address, TokenAccount>,
                                              beneficiary: Address, record: EmployeeKey, vestingKey: Address,
                                              treasuryKey: Address, mint: Address, now: I64, n: nat)
    requires LedgerConsistent(vestings, employees, tokens)
    requires ClaimEffect(vestings, employees, tokens, beneficiary, record, vestingKey, treasuryKey, mint, now).Err?
    ensures ClaimSeries(vestings, employees, tokens, beneficiary, record, vestingKey, treasuryKey, mint,
                        Repeat(now, n)) == (employees, tokens, [])
  {
    if n > 0 {
      var times := Repeat(now, n);
      assert times[0] == now && times[1..] == Repeat(now, n - 1);
      FailedClaimRepeats(vestings, employees, tokens, beneficiary, record, vestingKey, treasuryKey, mint, now, n - 1);
    }
  }

  /** Of any number of claims made at one and the same instant, at most the
      first transfers anything: the whole claimable amount if its transfer
      goes through, and nothing at all if it fails, a treasury too short to
      pay included. */
  lemma SameInstantClaims(vestings: map<Address, VestingAccount>,
                          employees: map<EmployeeKey, EmployeeVesting>,
                          tokens: map<Address, TokenAccount>,
                          beneficiary: Address, record: EmployeeKey, vestingKey: Address,
                          treasuryKey: Address, mint: Address, now: I64, n: nat)
    requires LedgerConsistent(vestings, employees, tokens)
    requires 0 < n
    ensures var first := ClaimEffect(vestings, employees, tokens, beneficiary, record, vestingKey,
                                     treasuryKey, mint, now);
            var paid := ClaimSeries(vestings, employees, tokens, beneficiary, record, vestingKey,
                                    treasuryKey, mint, Repeat(now, n)).2;
            && (first.Err? ==> paid == [])
            && (first.Ok? ==> paid == [ClaimableAmount(employees[record], now).value])
  {
    var times := Repeat(now, n);
    assert times[0] == now && times[1..] == Repeat(now, n - 1);
    var first := ClaimEffect(vestings, employees, tokens, beneficiary, record, vestingKey, treasuryKey, mint, now);
    if first.Err? {
      FailedClaimRepeats(vestings, employees, tokens, beneficiary, record, vestingKey, treasuryKey, mint, now, n);
    } else {
      var after := first.value;
      SecondClaimRefused(vestings, employees, tokens, beneficiary, record, vestingKey, treasuryKey, mint, now);
      FailedClaimRepeats(vestings, after.0, after.1, beneficiary, record, vestingKey, treasuryKey, mint, now, n - 1);
    }
  }

  class Ledger {
    var vestings: map<Address, VestingAccount>
    var employees: map<EmployeeKey, EmployeeVesting>
    var tokens: map<Address, TokenAccount>

    ghost predicate Valid()
      reads this
    {
      LedgerConsistent(vestings, employees, tokens)
    }

    constructor ()
      ensures Valid()
      ensures vestings == map[] && employees == map[] && tokens == map[]
    {
      vestings, employees, tokens := map[], map[], map[];
    }

    /** An address already holding an account of this program. */
    predicate InUse(a: Address)
      reads this
    {
      a in vestings || a in tokens
    }

    /** `create_vesting_account`: registers a company under its name, with a
        treasury owned by the new vesting account. The caller passes the two
        new accounts' addresses; each must be the one derived from its seeds
        and still free, checked in account order. Both accounts are created
        or neither is. `bump` and `treasuryBump` are the bumps the runtime
        found for the two addresses. */
    method CreateVestingAccount(feePayer: Address, vestingKey: Address, mint: Address, treasuryKey: Address,
                                companyName: seq<Byte>, bump: Byte, treasuryBump: Byte) returns (r: Outcome)
      requires Valid()
      modifies this
      ensures Valid()
      ensures employees == old(employees)
      ensures |companyName| > MAX_SEED_LEN ==> r == Failed(MaxSeedLengthExceeded)
      ensures |companyName| <= MAX_SEED_LEN && vestingKey != VestingAddress(companyName) ==>
                r == Failed(ConstraintSeeds)
      ensures |companyName| <= MAX_SEED_LEN && vestingKey == VestingAddress(companyName) &&
              old(InUse(vestingKey)) ==>
                r == Failed(AccountInUse)
      ensures |companyName| <= MAX_SEED_LEN && vestingKey == VestingAddress(companyName) &&
              !old(InUse(vestingKey)) && treasuryKey != TreasuryAddress(companyName) ==>
                r == Failed(ConstraintSeeds)
      ensures |companyName| <= MAX_SEED_LEN && vestingKey == VestingAddress(companyName) &&
              !old(InUse(vestingKey)) && treasuryKey == TreasuryAddress(companyName) &&
              old(InUse(treasuryKey)) ==>
                r == Failed(AccountInUse)
      ensures r.Done? <==>
                |companyName| <= MAX_SEED_LEN &&
                vestingKey == VestingAddress(companyName) && treasuryKey == TreasuryAddress(companyName) &&
                !old(InUse(vestingKey)) && !old(InUse(treasuryKey))
      ensures r.Failed? ==> vestings == old(vestings) && tokens == old(tokens)
      ensures r.Done? ==>
                vestings == old(vestings)[vestingKey :=
                  VestingAccount(feePayer, mint, companyName, treasuryKey, treasuryBump, bump)] &&
                tokens == old(tokens)[treasuryKey := TokenAccount(mint, vestingKey, 0)]
    {
      if |companyName| > MAX_SEED_LEN {
        return Failed(MaxSeedLengthExceeded);
      }
      if vestingKey != VestingAddress(companyName) {
        return Failed(ConstraintSeeds);
      }
      if InUse(vestingKey) {
        return Failed(AccountInUse);
      }
      if treasuryKey != TreasuryAddress(companyName) {
        return Failed(ConstraintSeeds);
      }
      if InUse(treasuryKey) {
        return Failed(AccountInUse);
      }
      VestingIsNotItsTreasury(companyName);
      tokens := tokens[treasuryKey := TokenAccount(mint := mint, owner := vestingKey, amount := 0)];
      vestings := vestings[vestingKey := VestingAccount(
        owner := feePayer,
        mintToken := mint,
        companyName := companyName,
        treasuryTokenAccount := treasuryKey,
        treasuryBump := treasuryBump,
        bump := bump)];
      r := Done;
    }

    /** `create_employee_vesting`: attaches a schedule for `beneficiary` to a
        vesting account. The caller passes the new record's address, which
        must be the one derived from the vesting account and the beneficiary.
        Only the vesting account's owner may do so, once per beneficiary.
        Neither the vesting account nor its treasury is touched, and the
        treasury's balance is not consulted. */
    method CreateEmployeeVesting(feePayer: Address, vestingKey: Address, record: EmployeeKey,
                                 beneficiary: Address, startTime: I64, endTime: I64, totalAmount: I64)
      returns (r: Outcome)
      requires Valid()
      modifies this
      ensures Valid()
      ensures vestings == old(vestings) && tokens == old(tokens)
      ensures vestingKey !in vestings ==> r == Failed(AccountNotInitialized)
      ensures vestingKey in vestings && record != (vestingKey, beneficiary) ==> r == Failed(ConstraintSeeds)
      ensures vestingKey in vestings && record == (vestingKey, beneficiary) && record in old(employees) ==>
                r == Failed(AccountInUse)
      ensures vestingKey in vestings && record == (vestingKey, beneficiary) && record !in old(employees) &&
              vestings[vestingKey].owner != feePayer ==>
                r == Failed(Program(NotAuthorized))
      ensures vestingKey in vestings && record == (vestingKey, beneficiary) && record !in old(employees) &&
              vestings[vestingKey].owner == feePayer ==>
                match ScheduleError(startTime, endTime, totalAmount)
                case Some(e) => r == Failed(Program(e))
                case None => r == Done
      ensures r.Failed? ==> employees == old(employees)
      ensures r.Done? ==>
                employees == old(employees)[record :=
                  EmployeeVesting(beneficiary, startTime, endTime, totalAmount, 0, vestingKey)]
    {
      if vestingKey !in vestings {
        return Failed(AccountNotInitialized);
      }
      if record != (vestingKey, beneficiary) {
        return Failed(ConstraintSeeds);
      }
      if record in employees {
        return Failed(AccountInUse);
      }
      if vestings[vestingKey].owner != feePayer {
        return Failed(Program(NotAuthorized));
      }
      var refused := ScheduleError(startTime, endTime, totalAmount);
      if refused.Some? {
        return Failed(Program(refused.value));
      }
      employees := employees[record := EmployeeVesting(
        beneficiary := beneficiary,
        startTime := startTime,
        endTime := endTime,
        totalAmount := totalAmount,
        totalWithdraw := 0,
        vestingAccount := vestingKey)];
      r := Done;
    }

    /** `claim_token` at time `now`: after the account checks, computes the
        vested but unclaimed amount, transfers it from the treasury to the
        beneficiary's associated token account (created if need be) under the
        vesting account's signature, and advances the record's
        `total_withdraw` by it. */
    method Claim(beneficiary: Address, record: EmployeeKey, vestingKey: Address,
                 treasuryKey: Address, mint: Address, now: I64) returns (r: Outcome)
      requires Valid()
      modifies this
      ensures Valid()
      ensures vestings == old(vestings)
      ensures match ClaimEffect(old(vestings), old(employees), old(tokens),
                                beneficiary, record, vestingKey, treasuryKey, mint, now)
              case Err(f) => r == Failed(f) && employees == old(employees) && tokens == old(tokens)
              case Ok(after) => r == Done && employees == after.0 && tokens == after.1
    {
      var rejected := ClaimAccountsFailure(vestings, employees, tokens,
                                           beneficiary, record, vestingKey, treasuryKey, mint);
      if rejected.Some? {
        return Failed(rejected.value);
      }
      var ev := employees[record];
      var claimable := ClaimableAmount(ev, now);
      if claimable.Err? {
        return Failed(claimable.error);
      }
      var available := claimable.value;
      var destinationKey := Ata(beneficiary, mint);
      var transfer := Transfer(tokens[treasuryKey], Destination(tokens, beneficiary, mint),
                               TransferAuthority(vestingKey, treasuryKey), available);
      if transfer.Err? {
        return Failed(Token(transfer.error));
      }
      ClaimKeepsConsistency(vestings, employees, tokens, beneficiary, record, vestingKey, treasuryKey, mint, now);
      var (treasury', destination') := transfer.value;
      tokens := tokens[treasuryKey := treasury'][destinationKey := destination'];
      employees := employees[record := AfterClaim(ev, available)];
      r := Done;
    }

    /** Tokens credited to an existing token account by the token program,
        outside this program: how a company funds its treasury. */
    method Fund(account: Address, amount: U64) returns (r: Outcome)
      requires Valid()
      modifies this
      ensures Valid()
      ensures vestings == old(vestings) && employees == old(employees)
      ensures account !in old(tokens) ==> r == Failed(AccountNotInitialized) && tokens == old(tokens)
      ensures account in old(tokens) ==>
                match MintTo(old(tokens[account]), amount)
                case Err(e) => r == Failed(Token(e)) && tokens == old(tokens)
                case Ok(credited) => r == Done && tokens == old(tokens)[account := credited]
    {
      if account !in tokens {
        return Failed(AccountNotInitialized);
      }
      var minted := MintTo(tokens[account], amount);
      if minted.Err? {
        return Failed(Token(minted.error));
      }
      tokens := tokens[account := minted.value];
      r := Done;
    }
  }
}
