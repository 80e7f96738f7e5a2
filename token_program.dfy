/** The external token program, at the interface the vesting program uses:
    token accounts and `transfer`. */
module TokenProgram {
  import opened Primitives
  import opened Errors
  import opened Addresses

  /** A token account: which token it holds, who may move its balance, and
      the balance. */
  datatype TokenAccount = TokenAccount(mint: Address, owner: Address, amount: U64)

  /** `transfer(from, to, authority, amount)`. The checks come in the token
      program's order: the balance, then the mint, then the authority, then
      the destination's capacity. On success it returns the two updated
      accounts. */
  function Transfer(from: TokenAccount, to: TokenAccount, authority: Address, amount: U64)
    : (r: Result<(TokenAccount, TokenAccount), TokenError>)
    ensures r.Ok? <==>
              amount <= from.amount && from.mint == to.mint && authority == from.owner &&
              to.amount + amount <= U64_MAX
    ensures from.amount < amount ==> r == Err(InsufficientFunds)
    ensures amount <= from.amount && from.mint != to.mint ==> r == Err(MintMismatch)
    ensures amount <= from.amount && from.mint == to.mint && authority != from.owner ==> r == Err(OwnerMismatch)
    ensures amount <= from.amount && from.mint == to.mint && authority == from.owner &&
              to.amount + amount > U64_MAX ==>
                r == Err(Overflow)
    ensures r.Ok? ==>
              var (from', to') := r.value;
              from'.mint == from.mint && from'.owner == from.owner &&
              to'.mint == to.mint && to'.owner == to.owner &&
              from'.amount == from.amount - amount && to'.amount == to.amount + amount
  {
    if from.amount < amount then Err(InsufficientFunds)
    else if from.mint != to.mint then Err(MintMismatch)
    else if authority != from.owner then Err(OwnerMismatch)
    else if to.amount + amount > U64_MAX then Err(Overflow)
    else Ok((from.(amount := from.amount - amount), to.(amount := to.amount + amount)))
  }

  /** A transfer moves tokens and creates or destroys none. */
  lemma TransferConserves(from: TokenAccount, to: TokenAccount, authority: Address, amount: U64)
    requires Transfer(from, to, authority, amount).Ok?
    ensures var (from', to') := Transfer(from, to, authority, amount).value;
            from'.amount + to'.amount == from.amount + to.amount
  {
  }

  /** `mint_to`: new tokens credited to an account. The treasury is funded
      this way (or by a transfer from the company) outside this program. */
  function MintTo(account: TokenAccount, amount: U64): (r: Result<TokenAccount, TokenError>)
    ensures r.Ok? <==> account.amount + amount <= U64_MAX
    ensures r.Err? ==> r.error == Overflow
    ensures r.Ok? ==> r.value.amount == account.amount + amount &&
                      r.value.mint == account.mint && r.value.owner == account.owner
  {
    if account.amount + amount > U64_MAX then Err(Overflow)
    else Ok(account.(amount := account.amount + amount))
  }
}
