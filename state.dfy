/** The two kinds of account the program owns, and the space allocated for them. */
module State {
  import opened Primitives
  import opened Addresses

  /** One per company, at `VestingAddress(company_name)`. */
  datatype VestingAccount = VestingAccount(
    owner: Address,
    mintToken: Address,
    companyName: seq<Byte>,
    treasuryTokenAccount: Address,
    treasuryBump: Byte,
    bump: Byte)

  /** One per (vesting account, beneficiary). All amounts and times are i64. */
  datatype EmployeeVesting = EmployeeVesting(
    beneficiary: Address,
    startTime: I64,
    endTime: I64,
    totalAmount: I64,
    totalWithdraw: I64,
    vestingAccount: Address)

  /** What `create_employee_vesting` establishes: a non-empty time range and a
      positive entitlement. */
  predicate Scheduled(ev: EmployeeVesting)
  {
    ev.startTime < ev.endTime && 0 < ev.totalAmount
  }

  /** The accounting invariant: nothing negative withdrawn, never more than
      the entitlement. */
  predicate WithinEntitlement(ev: EmployeeVesting)
  {
    0 <= ev.totalWithdraw <= ev.totalAmount
  }

  // Serialized widths: the account discriminator, a public key, an i64,
  // a u8, and the length prefix of a string.
  const DISCRIMINATOR_LEN: nat := 8
  const PUBKEY_LEN: nat := 32
  const I64_LEN: nat := 8
  const U8_LEN: nat := 1
  const STRING_PREFIX_LEN: nat := 4

  /** Bytes allocated for a vesting account with this company name:
      discriminator, owner, mint, the name with its length prefix, treasury,
      and the two bumps. */
  function VestingAccountSpace(name: seq<Byte>): (n: nat)
    ensures n == 110 + |name|
  {
    DISCRIMINATOR_LEN + PUBKEY_LEN + PUBKEY_LEN + (STRING_PREFIX_LEN + |name|) + PUBKEY_LEN + U8_LEN + U8_LEN
  }

  /** Bytes allocated for an employee record: discriminator, beneficiary, four
      i64 fields and the vesting account key. */
  function EmployeeVestingSpace(): (n: nat)
    ensures n == 104
  {
    DISCRIMINATOR_LEN + PUBKEY_LEN + 4 * I64_LEN + PUBKEY_LEN
  }
}
