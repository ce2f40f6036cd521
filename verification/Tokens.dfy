/** The token program as the index program uses it, and totals over the accounts outside the fund. */
module Tokens {
  import opened Words
  import opened Accounts

  /** Add `amount` to an account; the token program refuses an account it would overflow. */
  function Credit(wallets: map<Account, uint64>, a: Account, amount: uint64): Result<map<Account, uint64>> {
    if Balance(wallets, a) + amount > U64_MAX then Err(TokenOverflow)
    else Ok(wallets[a := Balance(wallets, a) + amount])
  }

  /** Take `amount` out of an account that holds at least that much. */
  function Debit(wallets: map<Account, uint64>, a: Account, amount: uint64): Result<map<Account, uint64>> {
    if Balance(wallets, a) < amount then Err(TokenInsufficientFunds)
    else Ok(wallets[a := Balance(wallets, a) - amount])
  }

  /** A user pays `amount` of the component in slot `i` into its vault. */
  function TransferFromUser(w: World, user: Key, i: nat, amount: uint64): Result<World>
    requires i < |w.vaults|
  {
    if amount == 0 then Ok(w)
    else
      var wallets :- Debit(w.wallets, ComponentAccount(w, user, i), amount);
      if w.vaults[i] + amount > U64_MAX then Err(TokenOverflow)
      else Ok(w.(wallets := wallets, vaults := w.vaults[i := w.vaults[i] + amount]))
  }

  /** The vault in slot `i` pays `amount` out to the account of `to`. */
  function TransferFromVault(w: World, i: nat, to: Key, amount: uint64): Result<World>
    requires i < |w.vaults|
  {
    if amount == 0 then Ok(w)
    else if w.vaults[i] < amount then Err(TokenInsufficientFunds)
    else
      var wallets :- Credit(w.wallets, ComponentAccount(w, to, i), amount);
      Ok(w.(wallets := wallets, vaults := w.vaults[i := w.vaults[i] - amount]))
  }

  function MintIndexTokens(w: World, to: Key, amount: uint64): Result<World> {
    if amount == 0 then Ok(w)
    else
      var wallets :- Credit(w.wallets, Account(to, IndexMint), amount);
      if w.supply + amount > U64_MAX then Err(TokenOverflow)
      else Ok(w.(wallets := wallets, supply := w.supply + amount))
  }

  function BurnIndexTokens(w: World, from: Key, amount: uint64): Result<World> {
    var wallets :- Debit(w.wallets, Account(from, IndexMint), amount);
    if w.supply < amount then Err(TokenOverflow)
    else Ok(w.(wallets := wallets, supply := w.supply - amount))
  }

  // ---------------------------------------------------------------------------------------------
  // Totals
  // ---------------------------------------------------------------------------------------------

  /** All the tokens of one mint held outside the fund. */
  ghost function Total(wallets: map<Account, uint64>, mint: Mint): nat
    decreases |wallets|
  {
    if wallets == map[] then 0
    else
      var a :| a in wallets;
      Share(wallets, a, mint) + Total(wallets - {a}, mint)
  }

  /** What one account adds to the total of a mint. */
  ghost function Share(wallets: map<Account, uint64>, a: Account, mint: Mint): nat {
    if a.mint == mint then Balance(wallets, a) else 0
  }

  /** Any account may be counted first. */
  lemma {:induction false} TotalSplit(wallets: map<Account, uint64>, a: Account, mint: Mint)
    requires a in wallets
    ensures Total(wallets, mint) == Share(wallets, a, mint) + Total(wallets - {a}, mint)
    decreases |wallets|
  {
    var b :| b in wallets && Total(wallets, mint) == Share(wallets, b, mint) + Total(wallets - {b}, mint);
    if a != b {
      var without := wallets - {a} - {b};
      assert wallets - {b} - {a} == without;
      TotalSplit(wallets - {b}, a, mint);
      TotalSplit(wallets - {a}, b, mint);
      assert Share(wallets - {b}, a, mint) == Share(wallets, a, mint);
      assert Share(wallets - {a}, b, mint) == Share(wallets, b, mint);
    }
  }

  /** Rewriting one account moves the total of its own mint, and of no other, by the difference. */
  lemma TotalUpdate(wallets: map<Account, uint64>, a: Account, v: uint64, mint: Mint)
    ensures Total(wallets[a := v], mint)
         == Total(wallets, mint) + (if a.mint == mint then v - Balance(wallets, a) else 0)
  {
    TotalSplit(wallets[a := v], a, mint);
    assert wallets[a := v] - {a} == wallets - {a};
    if a in wallets {
      TotalSplit(wallets, a, mint);
    } else {
      assert wallets - {a} == wallets;
    }
  }

  lemma {:induction false} BalanceWithinTotal(wallets: map<Account, uint64>, a: Account)
    ensures Balance(wallets, a) <= Total(wallets, a.mint)
  {
    if a in wallets {
      TotalSplit(wallets, a, a.mint);
    }
  }
}
