/** The CreatorVaultFactory contract: a one-vault-per-creator registry. It
    does not yet deploy vaults; the address it records and returns for a
    creator's vault is the creator's own address.

    The Admin and TokenContract keys and the `CreatorToVault(creator)`
    entries are fields of the class. */
module CreatorVaultFactoryContract {
  import opened Soroban

  datatype Error =
    | AlreadyInitialized          // "Factory already initialized"
    | CreatorHasVault             // "Creator already has a vault"
    | TokenContractNotSet         // "Token contract not set"
    | AdminNotSet                 // "Admin not set"
    | NotAuthorized(who: Address) // require_auth() of `who` failed

  /** What `get_factory_info` returns: (admin, token contract). */
  datatype FactoryInfo = FactoryInfo(admin: Address, tokenContract: Address)

  class CreatorVaultFactory {
    var admin: Option<Address>
    var tokenContract: Option<Address>
    var creatorToVault: map<Address, Address>

    /** A freshly deployed contract, whose instance storage is empty. */
    constructor ()
      ensures admin == None && tokenContract == None && creatorToVault == map[]
      ensures Valid()
    {
      admin, tokenContract, creatorToVault := None, None, map[];
    }

    /** Every recorded vault address is, for now, its creator's own address. */
    ghost predicate Valid()
      reads this
    {
      forall c :: c in creatorToVault ==> creatorToVault[c] == c
    }

    /** `initialize`: refuses a second initialization; otherwise stores the
        admin and the token. No authorization is demanded. */
    method Initialize(adminAddress: Address, tokenAddress: Address) returns (r: Outcome<Error>)
      modifies this`admin, this`tokenContract
      ensures r == if old(admin).Some? then Abort(AlreadyInitialized) else Done
      ensures admin == if r.Done? then Some(adminAddress) else old(admin)
      ensures tokenContract == if r.Done? then Some(tokenAddress) else old(tokenContract)
    {
      if admin.Some? {
        return Abort(AlreadyInitialized);
      }
      admin := Some(adminAddress);
      tokenContract := Some(tokenAddress);
      r := Done;
    }

    /** `create_creator_vault`: refuses a creator that already has a vault,
        then needs the token to be set; records and returns the vault
        address, which is the creator's own. Anyone may call it. */
    method CreateCreatorVault(creator: Address) returns (r: Result<Address, Error>)
      requires Valid()
      modifies this`creatorToVault
      ensures Valid()
      ensures r == if creator in old(creatorToVault) then Err(CreatorHasVault)
                   else if tokenContract.None? then Err(TokenContractNotSet)
                   else Ok(creator)
      ensures creatorToVault == if r.Ok? then old(creatorToVault)[creator := r.value] else old(creatorToVault)
    {
      if creator in creatorToVault {
        return Err(CreatorHasVault);
      }
      if tokenContract.None? {
        return Err(TokenContractNotSet);
      }
      var vaultAddress := creator;
      creatorToVault := creatorToVault[creator := vaultAddress];
      r := Ok(vaultAddress);
    }

    /** `get_creator_vault` */
    function GetCreatorVault(creator: Address): (r: Option<Address>)
      reads this
      ensures r.Some? <==> creator in creatorToVault
      ensures r.Some? ==> r.value == creatorToVault[creator]
    {
      if creator in creatorToVault then Some(creatorToVault[creator]) else None
    }

    /** `is_creator_registered`: exactly when a vault is recorded. */
    predicate IsCreatorRegistered(creator: Address)
      reads this
      ensures IsCreatorRegistered(creator) <==> GetCreatorVault(creator).Some?
    {
      creator in creatorToVault
    }

    /** `get_registered_creators`: not implemented by the contract; the page
        is empty whatever the offset and limit. */
    function GetRegisteredCreators(offset: u32, limit: u32): (r: seq<Address>)
      ensures |r| == 0
    {
      []
    }

    /** The check both admin setters start with. */
    function AdminCheck(signers: set<Address>): (r: Outcome<Error>)
      reads this
      ensures r.Done? <==> admin.Some? && admin.value in signers
      ensures admin.None? ==> r == Abort(AdminNotSet)
      ensures admin.Some? && admin.value !in signers ==> r == Abort(NotAuthorized(admin.value))
    {
      if admin.None? then Abort(AdminNotSet)
      else if admin.value !in signers then Abort(NotAuthorized(admin.value))
      else Done
    }

    /** `update_admin`: only the Admin key changes. */
    method UpdateAdmin(newAdmin: Address, signers: set<Address>) returns (r: Outcome<Error>)
      modifies this`admin
      ensures r == old(AdminCheck(signers))
      ensures admin == if r.Done? then Some(newAdmin) else old(admin)
    {
      r := AdminCheck(signers);
      if r.Done? {
        admin := Some(newAdmin);
      }
    }

    /** `update_token_contract`: only the TokenContract key changes. */
    method UpdateTokenContract(newToken: Address, signers: set<Address>) returns (r: Outcome<Error>)
      modifies this`tokenContract
      ensures r == old(AdminCheck(signers))
      ensures tokenContract == if r.Done? then Some(newToken) else old(tokenContract)
    {
      r := AdminCheck(signers);
      if r.Done? {
        tokenContract := Some(newToken);
      }
    }

    /** `get_factory_info`: both keys must be set; the admin is read first. */
    function GetFactoryInfo(): (r: Result<FactoryInfo, Error>)
      reads this
      ensures admin.None? ==> r == Err(AdminNotSet)
      ensures admin.Some? && tokenContract.None? ==> r == Err(TokenContractNotSet)
      ensures r.Ok? <==> admin.Some? && tokenContract.Some?
      ensures r.Ok? ==> r.value == FactoryInfo(admin.value, tokenContract.value)
    {
      if admin.None? then Err(AdminNotSet)
      else if tokenContract.None? then Err(TokenContractNotSet)
      else Ok(FactoryInfo(admin.value, tokenContract.value))
    }
  }

  /** One vault per creator: a second creation for the same creator fails,
      a creation for another creator succeeds and leaves the first entry as
      it was. */
  method OneVaultPerCreator(adminAddress: Address, tokenAddress: Address, c1: Address, c2: Address)
    returns (first: Result<Address, Error>, again: Result<Address, Error>, other: Result<Address, Error>,
             lookup: Option<Address>)
    requires c1 != c2
    ensures first == Ok(c1)
    ensures again == Err(CreatorHasVault)
    ensures other == Ok(c2)
    ensures lookup == Some(c1)
  {
    var f := new CreatorVaultFactory();
    var r := f.Initialize(adminAddress, tokenAddress);
    first := f.CreateCreatorVault(c1);
    again := f.CreateCreatorVault(c1);
    other := f.CreateCreatorVault(c2);
    lookup := f.GetCreatorVault(c1);
  }
}
