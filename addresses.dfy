/** Account addresses. A program-derived address is found by hashing the
    concatenation of its seeds (with a bump byte searched for by the runtime);
    the hash is treated as collision-free, so a derived address is identified
    here with the concatenated seed bytes themselves. Two seed lists with the
    same concatenation therefore give the same address, as they do on chain. */
module Addresses {
  import opened Primitives
  import opened Errors

  datatype Address =
    | Wallet(id: nat)                          // a key controlled by a signer
    | Pda(seed: seq<Byte>)                     // derived from this program's seeds
    | Ata(wallet: Address, mint: Address)      // associated token account of a wallet for a mint

  /** The runtime refuses any seed longer than this. */
  const MAX_SEED_LEN: nat := 32

  /** `b"treasury"`. */
  const TREASURY_SEED: seq<Byte> := [0x74, 0x72, 0x65, 0x61, 0x73, 0x75, 0x72, 0x79]

  function Concat(seeds: seq<seq<Byte>>): seq<Byte>
  {
    if seeds == [] then [] else seeds[0] + Concat(seeds[1..])
  }

  lemma ConcatOneTwo(a: seq<Byte>, b: seq<Byte>)
    ensures Concat([a]) == a
    ensures Concat([a, b]) == a + b
  {
    assert [a][1..] == [];
    assert [a, b][1..] == [b];
    assert [b][1..] == [];
  }

  /** Derivation of a program address from a seed list. */
  function ProgramAddress(seeds: seq<seq<Byte>>): (r: Result<Address, Failure>)
    ensures r.Ok? <==> forall i :: 0 <= i < |seeds| ==> |seeds[i]| <= MAX_SEED_LEN
    ensures r.Err? ==> r.error == MaxSeedLengthExceeded
    ensures r.Ok? ==> r.value.Pda?
  {
    if forall i :: 0 <= i < |seeds| ==> |seeds[i]| <= MAX_SEED_LEN then Ok(Pda(Concat(seeds)))
    else Err(MaxSeedLengthExceeded)
  }

  /** Seeds `[company_name]` of a vesting account. */
  function VestingSeeds(name: seq<Byte>): seq<seq<Byte>> { [name] }

  /** Seeds `[b"treasury", company_name]` of a vesting account's treasury. */
  function TreasurySeeds(name: seq<Byte>): seq<seq<Byte>> { [TREASURY_SEED, name] }

  /** The address of the vesting account of company `name`: what deriving
      its seeds gives, whenever the name is a legal seed. */
  function VestingAddress(name: seq<Byte>): (a: Address)
    ensures |name| <= MAX_SEED_LEN ==> ProgramAddress(VestingSeeds(name)) == Ok(a)
  {
    assert VestingSeeds(name)[0] == name;
    Pda(Concat(VestingSeeds(name)))
  }

  /** The address of the treasury of company `name`: what deriving its seeds
      gives, whenever the name is a legal seed. */
  function TreasuryAddress(name: seq<Byte>): (a: Address)
    ensures |name| <= MAX_SEED_LEN ==> ProgramAddress(TreasurySeeds(name)) == Ok(a)
  {
    assert TreasurySeeds(name)[1] == name;
    Pda(Concat(TreasurySeeds(name)))
  }

  /** Both addresses of a company can be derived exactly when its name is a
      legal seed. */
  lemma CompanyAddressesDerivable(name: seq<Byte>)
    ensures ProgramAddress(VestingSeeds(name)).Ok? <==> |name| <= MAX_SEED_LEN
    ensures ProgramAddress(TreasurySeeds(name)).Ok? <==> |name| <= MAX_SEED_LEN
    ensures |name| <= MAX_SEED_LEN ==>
              ProgramAddress(VestingSeeds(name)) == Ok(VestingAddress(name)) &&
              ProgramAddress(TreasurySeeds(name)) == Ok(TreasuryAddress(name))
  {
    assert VestingSeeds(name)[0] == name;
    assert TreasurySeeds(name)[1] == name;
  }

  /** A vesting account never sits at its own treasury's address. */
  lemma VestingIsNotItsTreasury(name: seq<Byte>)
    ensures VestingAddress(name) != TreasuryAddress(name)
  {
    ConcatOneTwo(name, name);
    ConcatOneTwo(TREASURY_SEED, name);
  }

  /** Different company names give different vesting accounts and different
      treasuries. */
  lemma DistinctNamesDistinctAddresses(n1: seq<Byte>, n2: seq<Byte>)
    requires n1 != n2
    ensures VestingAddress(n1) != VestingAddress(n2)
    ensures TreasuryAddress(n1) != TreasuryAddress(n2)
  {
    ConcatOneTwo(n1, n1);
    ConcatOneTwo(n2, n2);
    ConcatOneTwo(TREASURY_SEED, n1);
    ConcatOneTwo(TREASURY_SEED, n2);
    assert (TREASURY_SEED + n1)[|TREASURY_SEED|..] == n1;
    assert (TREASURY_SEED + n2)[|TREASURY_SEED|..] == n2;
  }

  /** The vesting account of one company sits at the treasury address of
      another exactly when the first name is `"treasury"` followed by the
      second: the seeds `[name]` and `["treasury", name']` hash the same bytes. */
  lemma VestingAliasesTreasury(n1: seq<Byte>, n2: seq<Byte>)
    ensures VestingAddress(n1) == TreasuryAddress(n2) <==> n1 == TREASURY_SEED + n2
  {
    ConcatOneTwo(n1, n1);
    ConcatOneTwo(TREASURY_SEED, n2);
  }
}
