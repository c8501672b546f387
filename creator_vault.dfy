/** The CreatorVault contract: a bookkept token balance owned by one creator,
    which a backend executor (or the creator) may spend for strategy
    execution, and which the creator may pause.

    Each entry of the contract's instance storage is a field of the class;
    `None` stands for a key that has never been written. `require_auth()` on
    an address is modelled by the `signers` argument: the set of addresses
    that authorized the invocation. */
module CreatorVaultContract {
  import opened Soroban

  /** The panics of the contract, one per message. */
  datatype Error =
    | AlreadyInitialized              // "Vault already initialized"
    | AmountNotPositive               // "Amount must be positive"
    | VaultPaused                     // "Vault is paused"
    | CreatorNotSet                   // "Creator not set"
    | TokenContractNotSet             // "Token contract not set"
    | InsufficientBalance             // "Insufficient balance"
    | InsufficientBalanceForExecution // "Insufficient balance for execution"
    | NotAuthorized(who: Address)     // require_auth() of `who` failed
    | Overflow                        // i128 addition overflowed

  /** What `get_vault_info` returns: (creator, token, balance, paused). */
  datatype VaultInfo = VaultInfo(creator: Address, tokenContract: Address, balance: i128, paused: bool)

  class CreatorVault {
    var creator: Option<Address>
    var tokenContract: Option<Address>
    var balance: Option<i128>
    var backendExecutor: Option<Address>
    var paused: Option<bool>

    /** A freshly deployed contract, whose instance storage is empty. */
    constructor ()
      ensures creator == None && tokenContract == None && balance == None
      ensures backendExecutor == None && paused == None
      ensures Valid()
    {
      creator, tokenContract, balance := None, None, None;
      backendExecutor, paused := None, None;
    }

    /** The stored balance; an unset Balance key reads as 0. */
    function Balance(): i128
      reads this
    {
      balance.UnwrapOr(0)
    }

    /** The stored pause flag; an unset Paused key reads as false. */
    predicate IsPaused()
      reads this
    {
      paused.UnwrapOr(false)
    }

    /** The invariant every successful call keeps: the balance is never negative. */
    ghost predicate Valid()
      reads this
    {
      Balance() >= 0
    }

    /** `initialize`: refuses a second initialization; otherwise stores the
        creator and the token, a zero balance and an unpaused flag. */
    method Initialize(creatorAddress: Address, tokenAddress: Address) returns (r: Outcome<Error>)
      requires Valid()
      modifies this`creator, this`tokenContract, this`balance, this`paused
      ensures Valid()
      ensures r == if old(creator).Some? then Abort(AlreadyInitialized) else Done
      ensures r.Abort? ==>
        creator == old(creator) && tokenContract == old(tokenContract) &&
        balance == old(balance) && paused == old(paused)
      ensures r.Done? ==>
        creator == Some(creatorAddress) && tokenContract == Some(tokenAddress) &&
        balance == Some(0) && paused == Some(false)
    {
      if creator.Some? {
        return Abort(AlreadyInitialized);
      }
      creator := Some(creatorAddress);
      tokenContract := Some(tokenAddress);
      balance := Some(0);
      paused := Some(false);
      r := Done;
    }

    /** `deposit`: any caller may credit a positive amount while the vault is
        not paused; only the Balance key changes. */
    method Deposit(from: Address, amount: i128) returns (r: Outcome<Error>)
      requires Valid()
      modifies this`balance
      ensures Valid()
      ensures r == if amount <= 0 then Abort(AmountNotPositive)
                   else if old(IsPaused()) then Abort(VaultPaused)
                   else if old(Balance()) + amount > I128_MAX then Abort(Overflow)
                   else Done
      ensures balance == if r.Done? then Some(old(Balance()) + amount) else old(balance)
    {
      if amount <= 0 {
        return Abort(AmountNotPositive);
      }
      if IsPaused() {
        return Abort(VaultPaused);
      }
      var current := Balance();
      if current + amount > I128_MAX {
        return Abort(Overflow);
      }
      balance := Some(current + amount);
      r := Done;
    }

    /** `withdraw`: the creator takes out at most the balance. The pause flag
        is not consulted. */
    method Withdraw(to: Address, amount: i128, signers: set<Address>) returns (r: Outcome<Error>)
      requires Valid()
      modifies this`balance
      ensures Valid()
      ensures r == if amount <= 0 then Abort(AmountNotPositive)
                   else if old(creator).None? then Abort(CreatorNotSet)
                   else if old(creator).value !in signers then Abort(NotAuthorized(old(creator).value))
                   else if old(Balance()) < amount then Abort(InsufficientBalance)
                   else Done
      ensures balance == if r.Done? then Some(old(Balance()) - amount) else old(balance)
    {
      if amount <= 0 {
        return Abort(AmountNotPositive);
      }
      if creator.None? {
        return Abort(CreatorNotSet);
      }
      if creator.value !in signers {
        return Abort(NotAuthorized(creator.value));
      }
      var current := Balance();
      if current < amount {
        return Abort(InsufficientBalance);
      }
      balance := Some(current - amount);
      r := Done;
    }

    /** The address whose authorization `spend_for_execution` demands: the
        backend executor when one is set, else the creator. */
    function Spender(): (a: Option<Address>)
      reads this
      ensures backendExecutor.Some? ==> a == backendExecutor
      ensures backendExecutor.None? ==> a == creator
    {
      if backendExecutor.Some? then backendExecutor else creator
    }

    /** `spend_for_execution`: the spender debits at most the balance of an
        unpaused vault. The creator must be set even when an executor is. */
    method SpendForExecution(to: Address, amount: i128, purpose: string, txHash: string,
                             signers: set<Address>) returns (r: Outcome<Error>)
      requires Valid()
      modifies this`balance
      ensures Valid()
      ensures r == if amount <= 0 then Abort(AmountNotPositive)
                   else if old(IsPaused()) then Abort(VaultPaused)
                   else if old(creator).None? then Abort(CreatorNotSet)
                   else if old(Spender()).value !in signers then Abort(NotAuthorized(old(Spender()).value))
                   else if old(Balance()) < amount then Abort(InsufficientBalanceForExecution)
                   else Done
      ensures balance == if r.Done? then Some(old(Balance()) - amount) else old(balance)
    {
      if amount <= 0 {
        return Abort(AmountNotPositive);
      }
      if IsPaused() {
        return Abort(VaultPaused);
      }
      var executor := backendExecutor;
      if creator.None? {
        return Abort(CreatorNotSet);
      }
      var signer := if executor.Some? then executor.value else creator.value;
      if signer !in signers {
        return Abort(NotAuthorized(signer));
      }
      var current := Balance();
      if current < amount {
        return Abort(InsufficientBalanceForExecution);
      }
      balance := Some(current - amount);
      r := Done;
    }

    /** `set_backend_executor`: the creator names the executor; only the
        BackendExecutor key changes. */
    method SetBackendExecutor(executor: Address, signers: set<Address>) returns (r: Outcome<Error>)
      modifies this`backendExecutor
      ensures r == if old(creator).None? then Abort(CreatorNotSet)
                   else if old(creator).value !in signers then Abort(NotAuthorized(old(creator).value))
                   else Done
      ensures backendExecutor == if r.Done? then Some(executor) else old(backendExecutor)
    {
      if creator.None? {
        return Abort(CreatorNotSet);
      }
      if creator.value !in signers {
        return Abort(NotAuthorized(creator.value));
      }
      backendExecutor := Some(executor);
      r := Done;
    }

    /** `set_paused`: the creator sets the pause flag; only the Paused key
        changes. */
    method SetPaused(pause: bool, signers: set<Address>) returns (r: Outcome<Error>)
      modifies this`paused
      ensures r == if old(creator).None? then Abort(CreatorNotSet)
                   else if old(creator).value !in signers then Abort(NotAuthorized(old(creator).value))
                   else Done
      ensures paused == if r.Done? then Some(pause) else old(paused)
    {
      if creator.None? {
        return Abort(CreatorNotSet);
      }
      if creator.value !in signers {
        return Abort(NotAuthorized(creator.value));
      }
      paused := Some(pause);
      r := Done;
    }

    /** `get_vault_info`: creator and token must be set; an unset balance
        reads as 0 and an unset pause flag as false. */
    function GetVaultInfo(): (r: Result<VaultInfo, Error>)
      reads this
      ensures creator.None? ==> r == Err(CreatorNotSet)
      ensures creator.Some? && tokenContract.None? ==> r == Err(TokenContractNotSet)
      ensures r.Ok? <==> creator.Some? && tokenContract.Some?
      ensures r.Ok? ==> r.value.creator == creator.value && r.value.tokenContract == tokenContract.value
      ensures r.Ok? ==> r.value.balance == (if balance.Some? then balance.value else 0)
      ensures r.Ok? ==> r.value.paused == (paused == Some(true))
    {
      if creator.None? then Err(CreatorNotSet)
      else if tokenContract.None? then Err(TokenContractNotSet)
      else Ok(VaultInfo(creator.value, tokenContract.value, Balance(), IsPaused()))
    }

    /** `get_backend_executor`: the executor, if one was ever set. */
    function GetBackendExecutor(): (r: Option<Address>)
      reads this
      ensures r.Some? <==> backendExecutor.Some?
      ensures r.Some? ==> r.value == backendExecutor.value
    {
      backendExecutor
    }
  }

  /** A creator may still withdraw from a paused vault, while deposits and
      spending are refused: starting from a fresh vault, initialize, deposit,
      pause, then try a deposit, a spend and a withdrawal. */
  method PausedVaultScenario(creatorAddress: Address, tokenAddress: Address, amount: i128)
    returns (deposited: Outcome<Error>, spent: Outcome<Error>, withdrawn: Outcome<Error>, info: Result<VaultInfo, Error>)
    requires amount > 0
    ensures deposited == Abort(VaultPaused)
    ensures spent == Abort(VaultPaused)
    ensures withdrawn == Done
    ensures info == Ok(VaultInfo(creatorAddress, tokenAddress, 0, true))
  {
    var v := new CreatorVault();
    var r := v.Initialize(creatorAddress, tokenAddress);
    r := v.Deposit(creatorAddress, amount);
    assert r == Done;
    r := v.SetPaused(true, {creatorAddress});
    deposited := v.Deposit(creatorAddress, amount);
    spent := v.SpendForExecution(creatorAddress, amount, "purpose", "tx", {creatorAddress});
    withdrawn := v.Withdraw(creatorAddress, amount, {creatorAddress});
    info := v.GetVaultInfo();
  }

  /** Once a backend executor is set, the creator's signature alone no longer
      authorizes spending, and the executor's does. */
  method ExecutorSpendScenario(creatorAddress: Address, tokenAddress: Address, executor: Address, amount: i128)
    returns (byCreator: Outcome<Error>, byExecutor: Outcome<Error>, info: Result<VaultInfo, Error>)
    requires 0 < amount && executor != creatorAddress
    ensures byCreator == Abort(NotAuthorized(executor))
    ensures byExecutor == Done
    ensures info.Ok? && info.value.balance == 0
  {
    var v := new CreatorVault();
    var r := v.Initialize(creatorAddress, tokenAddress);
    r := v.Deposit(creatorAddress, amount);
    r := v.SetBackendExecutor(executor, {creatorAddress});
    byCreator := v.SpendForExecution(tokenAddress, amount, "purpose", "tx", {creatorAddress});
    byExecutor := v.SpendForExecution(tokenAddress, amount, "purpose", "tx", {executor});
    info := v.GetVaultInfo();
  }
}
