/** The token contract that the Vault moves funds on, seen only through the
    two calls the Vault makes: `balance(address)` and
    `transfer(from, to, amount)`. Its internals are not part of this model;
    the ledger is a map from address to balance with the checks a Stellar
    token performs on a transfer. */
module Token {
  import opened Soroban

  datatype Error =
    | NegativeAmount               // the token refuses a negative amount
    | NotAuthorized(who: Address)  // `from` did not authorize the transfer
    | InsufficientBalance          // `from` holds less than `amount`
    | Overflow                     // `to` would exceed the i128 range

  class Ledger {
    var balances: map<Address, i128>

    /** A ledger holding the given balances. */
    constructor (initial: map<Address, i128>)
      requires forall a :: a in initial ==> initial[a] >= 0
      ensures balances == initial && Valid()
    {
      balances := initial;
    }

    /** `balance(a)`: an address the ledger has never seen holds 0. */
    function BalanceOf(a: Address): i128
      reads this
    {
      if a in balances then balances[a] else 0
    }

    /** No address holds a negative balance. */
    ghost predicate Valid()
      reads this
    {
      forall a :: a in balances ==> balances[a] >= 0
    }

    /** `transfer(from, to, amount)`, which demands the authorization of
        `from`. On success exactly `amount` leaves `from` and reaches `to`
        (nothing moves when they are the same address); every other balance
        is unchanged. */
    method Transfer(from: Address, to: Address, amount: i128, signers: set<Address>) returns (r: Outcome<Error>)
      requires Valid()
      modifies this
      ensures Valid()
      ensures r == if amount < 0 then Abort(NegativeAmount)
                   else if from !in signers then Abort(NotAuthorized(from))
                   else if old(BalanceOf(from)) < amount then Abort(InsufficientBalance)
                   else if from != to && old(BalanceOf(to)) + amount > I128_MAX then Abort(Overflow)
                   else Done
      ensures r.Abort? ==> balances == old(balances)
      ensures r.Done? ==> forall a :: BalanceOf(a) == old(BalanceOf(a))
                                    - (if a == from then amount else 0) + (if a == to then amount else 0)
    {
      if amount < 0 {
        return Abort(NegativeAmount);
      }
      if from !in signers {
        return Abort(NotAuthorized(from));
      }
      var fromBalance := BalanceOf(from);
      if fromBalance < amount {
        return Abort(InsufficientBalance);
      }
      if from != to {
        var toBalance := BalanceOf(to);
        if toBalance + amount > I128_MAX {
          return Abort(Overflow);
        }
        balances := balances[from := fromBalance - amount][to := toBalance + amount];
      }
      r := Done;
    }
  }
}
