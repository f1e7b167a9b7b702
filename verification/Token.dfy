/**
  The stake token, as far as the contracts can see it: a ledger of balances and a transfer that either moves
  exactly `amount` or traps. The token's total supply fits in an i128, so a credit cannot overflow.
 */
module Token {
  import opened Wrappers
  import opened MapSums

  type Address = nat
  type Ledger = map<Address, nat>

  function Balance(l: Ledger, a: Address): nat {
    if a in l then l[a] else 0
  }

  /** Moves `amount` or, when it is negative or not covered, traps. */
  function Moved(l: Ledger, from: Address, to: Address, amount: int): Option<Ledger> {
    if amount < 0 || Balance(l, from) < amount then None
    else
      var debited := l[from := Balance(l, from) - amount];
      Some(debited[to := Balance(debited, to) + amount])
  }

  ghost function Supply(l: Ledger): int {
    Sum(l)
  }

  /** A transfer creates and destroys nothing. */
  lemma MoveConserves(l: Ledger, from: Address, to: Address, amount: int)
    requires Moved(l, from, to, amount).Some?
    ensures Supply(Moved(l, from, to, amount).value) == Supply(l)
  {
    var debited := l[from := Balance(l, from) - amount];
    SumUpdate(l, from, Balance(l, from) - amount);
    SumUpdate(debited, to, Balance(debited, to) + amount);
  }

  /** The token contract: one map of balances, updated in place. */
  class TokenContract {
    var balances: Ledger

    constructor (initial: Ledger)
      ensures balances == initial
    {
      balances := initial;
    }

    /** Returns false, and changes nothing, where the real token traps. */
    method Transfer(from: Address, to: Address, amount: int) returns (ok: bool)
      modifies this
      ensures Moved(old(balances), from, to, amount) == (if ok then Some(balances) else None)
      ensures !ok ==> balances == old(balances)
    {
      ok := 0 <= amount && amount <= Balance(balances, from);
      if ok {
        balances := balances[from := Balance(balances, from) - amount];
        balances := balances[to := Balance(balances, to) + amount];
      }
    }
  }
}
