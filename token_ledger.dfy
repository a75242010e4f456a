/**
 * The token program's balance accounting, as `token::mint_to` and `token::transfer`
 * use it: a map from token account to its `u64` amount. An account absent from the
 * map holds nothing.
 */
module TokenLedger {
  import opened Primitives
  import opened Records

  type Balances = map<Pubkey, u64>

  function BalanceOf(b: Balances, account: Pubkey): u64
  {
    if account in b then b[account] else 0
  }

  /** `token::mint_to`: credits `amount`, failing with `Overflow` when the balance would
      leave the `u64` range. */
  function MintTo(b: Balances, account: Pubkey, amount: u64): (r: Result<Balances, TokenError>)
    ensures r.Ok? <==> BalanceOf(b, account) + amount <= U64_MAX
    ensures r.Err? ==> r.error == Overflow
    ensures r.Ok? ==> BalanceOf(r.value, account) == BalanceOf(b, account) + amount
    ensures r.Ok? ==> forall k :: k != account ==> BalanceOf(r.value, k) == BalanceOf(b, k)
  {
    var credited := BalanceOf(b, account) + amount;
    if credited <= U64_MAX then Ok(b[account := credited]) else Err(Overflow)
  }

  /** `token::transfer`: fails with `InsufficientFunds` when the source holds less than
      `amount`; a transfer to the same account then changes nothing; otherwise it fails
      with `Overflow` when the destination would leave the `u64` range, and else debits
      the source and credits the destination. */
  function Transfer(b: Balances, from: Pubkey, to: Pubkey, amount: u64): (r: Result<Balances, TokenError>)
    ensures r.Ok? <==> amount <= BalanceOf(b, from) && (from == to || BalanceOf(b, to) + amount <= U64_MAX)
    ensures r.Err? ==> r.error == (if amount > BalanceOf(b, from) then InsufficientFunds else Overflow)
    ensures r.Ok? && from != to ==>
      BalanceOf(r.value, from) == BalanceOf(b, from) - amount && BalanceOf(r.value, to) == BalanceOf(b, to) + amount
    ensures r.Ok? && from == to ==> r.value == b
    ensures r.Ok? ==> forall k :: k != from && k != to ==> BalanceOf(r.value, k) == BalanceOf(b, k)
  {
    if BalanceOf(b, from) < amount then Err(InsufficientFunds)
    else if from == to then Ok(b)
    else if BalanceOf(b, to) + amount > U64_MAX then Err(Overflow)
    else Ok(b[from := BalanceOf(b, from) - amount][to := BalanceOf(b, to) + amount])
  }

  /** A successful transfer moves tokens between the two accounts without creating or
      destroying any: the two balances sum to what they summed to before. */
  lemma TransferConserves(b: Balances, from: Pubkey, to: Pubkey, amount: u64)
    requires Transfer(b, from, to, amount).Ok?
    ensures BalanceOf(Transfer(b, from, to, amount).value, from) + BalanceOf(Transfer(b, from, to, amount).value, to)
         == BalanceOf(b, from) + BalanceOf(b, to)
  {
  }
}
