/**
 * The bank keeper the ledgers debit and credit: per-address, per-denomination
 * balances. `SubtractCoins` fails when the balance is short; `AddCoins`
 * always succeeds.
 */
module Bank {
  import opened Sdk

  type Balances = map<Address, map<Bytes, nat>>

  function BalanceOf(b: Balances, a: Address, denom: Bytes): nat {
    if a in b && denom in b[a] then b[a][denom] else 0
  }

  function SetBalance(b: Balances, a: Address, denom: Bytes, v: nat): (r: Balances)
    ensures BalanceOf(r, a, denom) == v
    ensures forall a', d' :: (a' != a || d' != denom) ==> BalanceOf(r, a', d') == BalanceOf(b, a', d')
  {
    var coins: map<Bytes, nat> := if a in b then b[a] else map[];
    b[a := coins[denom := v]]
  }

  /** `bank.Keeper.SubtractCoins(addr, Coins{c})`. */
  function SubtractCoins(b: Balances, a: Address, c: Coin): (r: Option<Balances>)
    ensures r.Some? <==> c.amount <= BalanceOf(b, a, c.denom)
    ensures r.Some? ==> BalanceOf(r.value, a, c.denom) == BalanceOf(b, a, c.denom) - c.amount
    ensures r.Some? ==> forall a', d' :: (a' != a || d' != c.denom) ==> BalanceOf(r.value, a', d') == BalanceOf(b, a', d')
  {
    var have := BalanceOf(b, a, c.denom);
    if c.amount <= have then Some(SetBalance(b, a, c.denom, have - c.amount)) else None
  }

  /** `bank.Keeper.AddCoins(addr, Coins{c})`. */
  function AddCoins(b: Balances, a: Address, c: Coin): (r: Balances)
    ensures BalanceOf(r, a, c.denom) == BalanceOf(b, a, c.denom) + c.amount
    ensures forall a', d' :: (a' != a || d' != c.denom) ==> BalanceOf(r, a', d') == BalanceOf(b, a', d')
  {
    SetBalance(b, a, c.denom, BalanceOf(b, a, c.denom) + c.amount)
  }

  /** Two balance maps that agree on every account hold the same coins. */
  ghost predicate SameBalances(b1: Balances, b2: Balances) {
    forall a, d :: BalanceOf(b1, a, d) == BalanceOf(b2, a, d)
  }

  /** Crediting back what was debited restores every balance. */
  lemma DebitThenCreditRestores(b: Balances, a: Address, c: Coin)
    requires c.amount <= BalanceOf(b, a, c.denom)
    ensures SubtractCoins(b, a, c).Some?
    ensures SameBalances(AddCoins(SubtractCoins(b, a, c).value, a, c), b)
  {
    var d := SubtractCoins(b, a, c).value;
    var r := AddCoins(d, a, c);
    forall a', d' ensures BalanceOf(r, a', d') == BalanceOf(b, a', d') {
      if a' == a && d' == c.denom {
      } else {
        assert BalanceOf(r, a', d') == BalanceOf(d, a', d');
      }
    }
  }
}
