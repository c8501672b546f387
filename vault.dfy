/** The Vault contract: an owner-controlled holding of one token. The owner
    withdraws and configures; a designated executor spends on behalf of an
    algorithm, and each such spend is logged to an AlgoHistory contract when
    one is configured.

    Funds live on the token's ledger (`Token.Ledger`), under the vault's own
    contract address. The Owner, Token, Executor and History storage keys
    are fields of the class. When the vault itself calls another contract,
    its own address counts as a signer of that call (invoker authorization). */
module VaultContract {
  import opened Soroban
  import Token
  import AlgoHistoryContract

  datatype Error =
    | AlreadyInitialized               // "already initialized"
    | OwnerNotSet                      // "owner not set"
    | TokenNotSet                      // "token not set"
    | ExecutorNotSet                   // "executor not set"
    | AmountNotPositive                // "amount must be positive"
    | NotAuthorized(who: Address)      // require_auth() of `who` failed
    | TokenFailed(token: Token.Error)  // the token's transfer panicked
    | HistoryFailed(history: AlgoHistoryContract.Error)  // add_record panicked

  class Vault {
    /** `env.current_contract_address()`: the address the vault's funds are held under. */
    const address: Address
    var owner: Option<Address>
    var token: Option<Address>
    var executor: Option<Address>
    var history: Option<Address>

    /** A freshly deployed contract at `address`, with empty instance storage. */
    constructor (address: Address)
      ensures this.address == address
      ensures owner == None && token == None && executor == None && history == None
    {
      this.address := address;
      owner, token, executor, history := None, None, None, None;
    }

    /** `owner()`, read through `read_owner`, which panics when unset. */
    function Owner(): (r: Result<Address, Error>)
      reads this
      ensures r.Ok? <==> owner.Some?
      ensures r.Ok? ==> r.value == owner.value
      ensures r.Err? ==> r.error == OwnerNotSet
    {
      if owner.Some? then Ok(owner.value) else Err(OwnerNotSet)
    }

    /** `token()`, read through `read_token`, which panics when unset. */
    function TokenAddress(): (r: Result<Address, Error>)
      reads this
      ensures r.Ok? <==> token.Some?
      ensures r.Ok? ==> r.value == token.value
      ensures r.Err? ==> r.error == TokenNotSet
    {
      if token.Some? then Ok(token.value) else Err(TokenNotSet)
    }

    /** `executor()`: optional, never panics. */
    function Executor(): (r: Option<Address>)
      reads this
      ensures r.Some? <==> executor.Some?
      ensures r.Some? ==> r.value == executor.value
    {
      executor
    }

    /** `history()`: optional, never panics. */
    function History(): (r: Option<Address>)
      reads this
      ensures r.Some? <==> history.Some?
      ensures r.Some? ==> r.value == history.value
    {
      history
    }

    /** `init`: refuses a second initialization; the owner must authorize,
        and Owner and Token are stored. */
    method Init(ownerAddress: Address, tokenAddress: Address, signers: set<Address>) returns (r: Outcome<Error>)
      modifies this`owner, this`token
      ensures r == if old(owner).Some? then Abort(AlreadyInitialized)
                   else if ownerAddress !in signers then Abort(NotAuthorized(ownerAddress))
                   else Done
      ensures owner == if r.Done? then Some(ownerAddress) else old(owner)
      ensures token == if r.Done? then Some(tokenAddress) else old(token)
    {
      if owner.Some? {
        return Abort(AlreadyInitialized);
      }
      if ownerAddress !in signers {
        return Abort(NotAuthorized(ownerAddress));
      }
      owner := Some(ownerAddress);
      token := Some(tokenAddress);
      r := Done;
    }

    /** The check every owner-only setter starts with: the owner must be set
        and must have authorized. */
    function OwnerCheck(signers: set<Address>): (r: Outcome<Error>)
      reads this
      ensures r.Done? <==> owner.Some? && owner.value in signers
      ensures owner.None? ==> r == Abort(OwnerNotSet)
      ensures owner.Some? && owner.value !in signers ==> r == Abort(NotAuthorized(owner.value))
    {
      if owner.None? then Abort(OwnerNotSet)
      else if owner.value !in signers then Abort(NotAuthorized(owner.value))
      else Done
    }

    /** `set_executor`: only the Executor key changes. */
    method SetExecutor(executorAddress: Address, signers: set<Address>) returns (r: Outcome<Error>)
      modifies this`executor
      ensures r == old(OwnerCheck(signers))
      ensures executor == if r.Done? then Some(executorAddress) else old(executor)
    {
      r := OwnerCheck(signers);
      if r.Done? {
        executor := Some(executorAddress);
      }
    }

    /** `clear_executor`: removes the Executor key and nothing else. */
    method ClearExecutor(signers: set<Address>) returns (r: Outcome<Error>)
      modifies this`executor
      ensures r == old(OwnerCheck(signers))
      ensures executor == if r.Done? then None else old(executor)
    {
      r := OwnerCheck(signers);
      if r.Done? {
        executor := None;
      }
    }

    /** `set_history`: only the History key changes. */
    method SetHistory(historyAddress: Address, signers: set<Address>) returns (r: Outcome<Error>)
      modifies this`history
      ensures r == old(OwnerCheck(signers))
      ensures history == if r.Done? then Some(historyAddress) else old(history)
    {
      r := OwnerCheck(signers);
      if r.Done? {
        history := Some(historyAddress);
      }
    }

    /** `transfer_ownership`: only the Owner key changes. */
    method TransferOwnership(newOwner: Address, signers: set<Address>) returns (r: Outcome<Error>)
      modifies this`owner
      ensures r == old(OwnerCheck(signers))
      ensures owner == if r.Done? then Some(newOwner) else old(owner)
    {
      r := OwnerCheck(signers);
      if r.Done? {
        owner := Some(newOwner);
      }
    }

    /** `balance()`: the token ledger's balance of the vault's own address. */
    function Balance(ledger: Token.Ledger): (r: Result<i128, Error>)
      reads this, ledger
      ensures r.Ok? <==> token.Some?
      ensures r.Ok? ==> r.value == ledger.BalanceOf(address)
      ensures r.Err? ==> r.error == TokenNotSet
    {
      if token.None? then Err(TokenNotSet) else Ok(ledger.BalanceOf(address))
    }

    /** `deposit`: `from` authorizes and moves exactly `amount` of the token
        from its own balance to the vault's. `ledger` is the token contract
        stored under Token. */
    method Deposit(ledger: Token.Ledger, from: Address, amount: i128, signers: set<Address>)
      returns (r: Outcome<Error>)
      requires ledger.Valid()
      modifies ledger
      ensures ledger.Valid()
      ensures amount <= 0 ==> r == Abort(AmountNotPositive)
      ensures amount > 0 && from !in signers ==> r == Abort(NotAuthorized(from))
      ensures amount > 0 && from in signers && token.None? ==> r == Abort(TokenNotSet)
      ensures amount > 0 && from in signers && token.Some? ==>
        r == if old(ledger.BalanceOf(from)) < amount then Abort(TokenFailed(Token.InsufficientBalance))
             else if from != address && old(ledger.BalanceOf(address)) + amount > I128_MAX
             then Abort(TokenFailed(Token.Overflow))
             else Done
      ensures r.Abort? ==> ledger.balances == old(ledger.balances)
      ensures r.Done? ==> forall a :: ledger.BalanceOf(a) == old(ledger.BalanceOf(a))
                                    - (if a == from then amount else 0) + (if a == address then amount else 0)
    {
      if amount <= 0 {
        return Abort(AmountNotPositive);
      }
      if from !in signers {
        return Abort(NotAuthorized(from));
      }
      if token.None? {
        return Abort(TokenNotSet);
      }
      var t := ledger.Transfer(from, address, amount, signers);
      r := if t.Abort? then Abort(TokenFailed(t.error)) else Done;
    }

    /** `withdraw`: the owner authorizes and exactly `amount` moves from the
        vault's balance to `to`. */
    method Withdraw(ledger: Token.Ledger, to: Address, amount: i128, signers: set<Address>)
      returns (r: Outcome<Error>)
      requires ledger.Valid()
      modifies ledger
      ensures ledger.Valid()
      ensures amount <= 0 ==> r == Abort(AmountNotPositive)
      ensures amount > 0 ==> (old(OwnerCheck(signers)).Abort? ==> r == old(OwnerCheck(signers)))
      ensures amount > 0 && old(OwnerCheck(signers)).Done? && token.None? ==> r == Abort(TokenNotSet)
      ensures amount > 0 && old(OwnerCheck(signers)).Done? && token.Some? ==>
        r == if old(ledger.BalanceOf(address)) < amount then Abort(TokenFailed(Token.InsufficientBalance))
             else if to != address && old(ledger.BalanceOf(to)) + amount > I128_MAX
             then Abort(TokenFailed(Token.Overflow))
             else Done
      ensures r.Abort? ==> ledger.balances == old(ledger.balances)
      ensures r.Done? ==> forall a :: ledger.BalanceOf(a) == old(ledger.BalanceOf(a))
                                    - (if a == address then amount else 0) + (if a == to then amount else 0)
    {
      if amount <= 0 {
        return Abort(AmountNotPositive);
      }
      r := OwnerCheck(signers);
      if r.Abort? {
        return;
      }
      if token.None? {
        return Abort(TokenNotSet);
      }
      var t := ledger.Transfer(address, to, amount, signers + {address});
      r := if t.Abort? then Abort(TokenFailed(t.error)) else Done;
    }

    /** `spend_for_algo`: the executor authorizes; exactly `amount` moves from
        the vault to `to`; when a History contract is configured, one record
        for `algoId` is appended to it, written with the vault's own
        authority. `hist` is the AlgoHistory contract stored under History
        and `now` the ledger timestamp. A panic anywhere, including inside
        `add_record`, reverts the transfer too. */
    method SpendForAlgo(ledger: Token.Ledger, hist: AlgoHistoryContract.AlgoHistory,
                        algoId: u32, to: Address, amount: i128, txHash: string, note: string,
                        now: u64, signers: set<Address>) returns (r: Outcome<Error>)
      requires ledger.Valid()
      modifies ledger, hist
      ensures ledger.Valid()
      ensures amount <= 0 ==> r == Abort(AmountNotPositive)
      ensures amount > 0 && executor.None? ==> r == Abort(ExecutorNotSet)
      ensures amount > 0 && executor.Some? && executor.value !in signers ==> r == Abort(NotAuthorized(executor.value))
      ensures amount > 0 && executor.Some? && executor.value in signers && token.None? ==> r == Abort(TokenNotSet)
      ensures amount > 0 && executor.Some? && executor.value in signers && token.Some? ==>
        (r == Done <==>
           old(ledger.BalanceOf(address)) >= amount &&
           (to == address || old(ledger.BalanceOf(to)) + amount <= I128_MAX) &&
           (history.Some? ==> old(hist.Writer()).Ok? && old(hist.Writer()).value in signers + {address} &&
                              old(hist.Count(algoId)) < U32_MAX))
      ensures r.Abort? ==> ledger.balances == old(ledger.balances)
      ensures r.Abort? || history.None? ==> hist.counts == old(hist.counts) && hist.records == old(hist.records)
      ensures r.Done? ==> forall a :: ledger.BalanceOf(a) == old(ledger.BalanceOf(a))
                                    - (if a == address then amount else 0) + (if a == to then amount else 0)
      ensures r.Done? && history.Some? ==>
        hist.records == old(hist.records)[(algoId, old(hist.Count(algoId))) := AlgoHistoryContract.Record(now, algoId, txHash, note)] &&
        hist.Count(algoId) == old(hist.Count(algoId)) + 1 &&
        (forall a :: a != algoId ==> hist.Count(a) == old(hist.Count(a)))
      ensures old(hist.Dense()) ==> hist.Dense()
      ensures hist.admin == old(hist.admin) && hist.writer == old(hist.writer)
    {
      if amount <= 0 {
        return Abort(AmountNotPositive);
      }
      if executor.None? {
        return Abort(ExecutorNotSet);
      }
      if executor.value !in signers {
        return Abort(NotAuthorized(executor.value));
      }
      if token.None? {
        return Abort(TokenNotSet);
      }
      var saved := ledger.balances;
      var t := ledger.Transfer(address, to, amount, signers + {address});
      if t.Abort? {
        return Abort(TokenFailed(t.error));
      }
      if history.Some? {
        var added := hist.AddRecord(algoId, txHash, note, now, signers + {address});
        if added.Err? {
          ledger.balances := saved;  // the panic reverts the transfer
          return Abort(HistoryFailed(added.error));
        }
      }
      r := Done;
    }
  }

  /** The contract's own test, continued: after `init` and `set_executor(e)`
      the executor reads `Some(e)`; after `clear_executor` it reads `None`. */
  method InitAndSetExecutor(vaultAddress: Address, ownerAddress: Address, tokenAddress: Address, e: Address)
    returns (afterSet: Option<Address>, afterClear: Option<Address>, ownerRead: Result<Address, Error>)
    ensures afterSet == Some(e)
    ensures afterClear == None
    ensures ownerRead == Ok(ownerAddress)
  {
    var v := new Vault(vaultAddress);
    var r := v.Init(ownerAddress, tokenAddress, {ownerAddress});
    r := v.SetExecutor(e, {ownerAddress});
    afterSet := v.Executor();
    r := v.ClearExecutor({ownerAddress});
    afterClear := v.Executor();
    ownerRead := v.Owner();
  }
}
