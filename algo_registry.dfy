/** The AlgoRegistry contract: an append-only table of trading algorithms
    with sequential ids. `create_algo` stores a new entry under the current
    NextId and bumps the counter; an entry's owner may toggle it active or
    replace its metadata; entries are never deleted.

    The Admin and NextId keys and the `Algo(id)` entries are fields of the
    class. */
module AlgoRegistryContract {
  import opened Soroban

  datatype Error =
    | AlreadyInitialized            // "already initialized"
    | AdminNotSet                   // "admin not set"
    | AlgoNotFound                  // "algo not found"
    | NotAuthorized(who: Address)   // require_auth() of `who` failed
    | Overflow                      // the u32 counter `id + 1` overflowed

  datatype Algo = Algo(owner: Address, name: string, metadataUri: string, paramsHash: string, active: bool)

  class AlgoRegistry {
    var admin: Option<Address>
    var nextId: Option<u32>
    var algos: map<u32, Algo>

    /** A freshly deployed contract, whose instance storage is empty. */
    constructor ()
      ensures admin == None && nextId == None && algos == map[]
      ensures Dense()
    {
      admin, nextId, algos := None, None, map[];
    }

    /** `total_algos`: the NextId counter, 0 while unset. */
    function TotalAlgos(): (t: u32)
      reads this
      ensures nextId.None? ==> t == 0
      ensures nextId.Some? ==> t == nextId.value
    {
      nextId.UnwrapOr(0)
    }

    /** `get_algo(id)` */
    function GetAlgo(id: u32): (r: Option<Algo>)
      reads this
      ensures r.Some? <==> id in algos
      ensures r.Some? ==> r.value == algos[id]
    {
      if id in algos then Some(algos[id]) else None
    }

    /** Ids are dense: an entry exists exactly for the ids below the counter. */
    ghost predicate Dense()
      reads this
    {
      forall id: u32 :: GetAlgo(id).Some? <==> id < TotalAlgos()
    }

    /** `admin()` */
    function Admin(): (r: Result<Address, Error>)
      reads this
      ensures r.Ok? <==> admin.Some?
      ensures r.Ok? ==> r.value == admin.value
      ensures r.Err? ==> r.error == AdminNotSet
    {
      if admin.Some? then Ok(admin.value) else Err(AdminNotSet)
    }

    /** `init` as the contract writes it: refuses a second initialization,
        demands the admin's authorization, stores the admin and writes
        NextId = 0, whatever the counter held before. */
    method InitAsWritten(adminAddress: Address, signers: set<Address>) returns (r: Outcome<Error>)
      modifies this`admin, this`nextId
      ensures r == if old(admin).Some? then Abort(AlreadyInitialized)
                   else if adminAddress !in signers then Abort(NotAuthorized(adminAddress))
                   else Done
      ensures admin == if r.Done? then Some(adminAddress) else old(admin)
      ensures nextId == if r.Done? then Some(0) else old(nextId)
    {
      if admin.Some? {
        return Abort(AlreadyInitialized);
      }
      if adminAddress !in signers {
        return Abort(NotAuthorized(adminAddress));
      }
      admin := Some(adminAddress);
      nextId := Some(0);
      r := Done;
    }

    /** `init` as intended: the same checks, but the counter keeps any ids
        already handed out (on a fresh contract it is 0, as written), so
        initialization keeps the ids dense. */
    method Init(adminAddress: Address, signers: set<Address>) returns (r: Outcome<Error>)
      modifies this`admin, this`nextId
      ensures r == if old(admin).Some? then Abort(AlreadyInitialized)
                   else if adminAddress !in signers then Abort(NotAuthorized(adminAddress))
                   else Done
      ensures admin == if r.Done? then Some(adminAddress) else old(admin)
      ensures nextId == if r.Done? then Some(old(TotalAlgos())) else old(nextId)
      ensures r.Done? && old(nextId).None? ==> nextId == Some(0)
      ensures old(Dense()) ==> Dense()
    {
      if admin.Some? {
        return Abort(AlreadyInitialized);
      }
      if adminAddress !in signers {
        return Abort(NotAuthorized(adminAddress));
      }
      admin := Some(adminAddress);
      nextId := Some(TotalAlgos());
      r := Done;
      assert TotalAlgos() == old(TotalAlgos());
      assert forall i: u32 :: GetAlgo(i) == old(GetAlgo(i));
    }

    /** `create_algo`: the owner authorizes; the new entry, active, goes under
        the current counter value, which is returned, and the counter grows
        by exactly one. No other entry changes. */
    method CreateAlgo(owner: Address, name: string, metadataUri: string, paramsHash: string,
                      signers: set<Address>) returns (r: Result<u32, Error>)
      modifies this`nextId, this`algos
      ensures r == if owner !in signers then Err(NotAuthorized(owner))
                   else if old(TotalAlgos()) == U32_MAX then Err(Overflow)
                   else Ok(old(TotalAlgos()))
      ensures r.Err? ==> nextId == old(nextId) && algos == old(algos)
      ensures r.Ok? ==> TotalAlgos() == r.value + 1 &&
                        algos == old(algos)[r.value := Algo(owner, name, metadataUri, paramsHash, true)]
      ensures old(Dense()) ==> Dense()
    {
      if owner !in signers {
        return Err(NotAuthorized(owner));
      }
      var id := TotalAlgos();
      if id == U32_MAX {
        return Err(Overflow);
      }
      algos := algos[id := Algo(owner, name, metadataUri, paramsHash, true)];
      nextId := Some(id + 1);
      r := Ok(id);
      assert forall i: u32 :: GetAlgo(i) == if i == id then Some(algos[id]) else old(GetAlgo(i));
    }

    /** `set_active`: the entry's owner flips its `active` flag; every other
        field and entry stays. */
    method SetActive(id: u32, active: bool, signers: set<Address>) returns (r: Outcome<Error>)
      modifies this`algos
      ensures r == if id !in old(algos) then Abort(AlgoNotFound)
                   else if old(algos)[id].owner !in signers then Abort(NotAuthorized(old(algos)[id].owner))
                   else Done
      ensures algos == if r.Done? then old(algos)[id := old(algos)[id].(active := active)] else old(algos)
      ensures algos.Keys == old(algos.Keys)
    {
      if id !in algos {
        return Abort(AlgoNotFound);
      }
      var algo := algos[id];
      if algo.owner !in signers {
        return Abort(NotAuthorized(algo.owner));
      }
      algos := algos[id := algo.(active := active)];
      r := Done;
    }

    /** `update_metadata`: the entry's owner replaces name, metadata URI and
        parameter hash; owner and active flag stay. */
    method UpdateMetadata(id: u32, name: string, metadataUri: string, paramsHash: string,
                          signers: set<Address>) returns (r: Outcome<Error>)
      modifies this`algos
      ensures r == if id !in old(algos) then Abort(AlgoNotFound)
                   else if old(algos)[id].owner !in signers then Abort(NotAuthorized(old(algos)[id].owner))
                   else Done
      ensures r.Done? ==>
        algos == old(algos)[id := Algo(old(algos)[id].owner, name, metadataUri, paramsHash, old(algos)[id].active)]
      ensures r.Abort? ==> algos == old(algos)
      ensures algos.Keys == old(algos.Keys)
    {
      if id !in algos {
        return Abort(AlgoNotFound);
      }
      var algo := algos[id];
      if algo.owner !in signers {
        return Abort(NotAuthorized(algo.owner));
      }
      algos := algos[id := algo.(name := name, metadataUri := metadataUri, paramsHash := paramsHash)];
      r := Done;
    }

    /** `transfer_admin`: the admin hands over; only the Admin key changes. */
    method TransferAdmin(newAdmin: Address, signers: set<Address>) returns (r: Outcome<Error>)
      modifies this`admin
      ensures r == if old(admin).None? then Abort(AdminNotSet)
                   else if old(admin).value !in signers then Abort(NotAuthorized(old(admin).value))
                   else Done
      ensures admin == if r.Done? then Some(newAdmin) else old(admin)
    {
      if admin.None? {
        return Abort(AdminNotSet);
      }
      if admin.value !in signers {
        return Abort(NotAuthorized(admin.value));
      }
      admin := Some(newAdmin);
      r := Done;
    }
  }

  /** The contract's own test: after `init` and one `create_algo`, the entry
      has the given owner, is active, and the total is 1. */
  method CreateAndReadAlgo(adminAddress: Address, owner: Address)
    returns (id: Result<u32, Error>, algo: Option<Algo>, total: u32)
    ensures id == Ok(0)
    ensures algo.Some? && algo.value.owner == owner && algo.value.active
    ensures total == 1
  {
    var reg := new AlgoRegistry();
    var r := reg.InitAsWritten(adminAddress, {adminAddress});
    id := reg.CreateAlgo(owner, "mean_reversion", "ipfs://cid", "sha256:...", {owner});
    algo := reg.GetAlgo(id.value);
    total := reg.TotalAlgos();
  }

  /** The counterexample to dense, never-overwritten ids under the `init`
      that is written: `create_algo` does not need `init`, so a first owner
      can register id 0 on a fresh contract; `init` then resets the counter
      and the next `create_algo` hands out id 0 again, replacing the first
      owner's entry. */
  method InitAfterCreateAsWritten(adminAddress: Address, first: Address, second: Address)
    returns (firstId: Result<u32, Error>, secondId: Result<u32, Error>, stored: Option<Algo>)
    requires first != second
    ensures firstId == Ok(0) && secondId == Ok(0)
    ensures stored.Some? && stored.value.owner == second
  {
    var reg := new AlgoRegistry();
    firstId := reg.CreateAlgo(first, "a", "ipfs://a", "h", {first});
    var r := reg.InitAsWritten(adminAddress, {adminAddress});
    secondId := reg.CreateAlgo(second, "b", "ipfs://b", "h", {second});
    stored := reg.GetAlgo(0);
  }

  /** The same sequence under the corrected `init`: the second owner gets id
      1 and the first owner's entry survives. */
  method InitAfterCreate(adminAddress: Address, first: Address, second: Address)
    returns (firstId: Result<u32, Error>, secondId: Result<u32, Error>, stored: Option<Algo>)
    requires first != second
    ensures firstId == Ok(0) && secondId == Ok(1)
    ensures stored.Some? && stored.value.owner == first
  {
    var reg := new AlgoRegistry();
    firstId := reg.CreateAlgo(first, "a", "ipfs://a", "h", {first});
    var r := reg.Init(adminAddress, {adminAddress});
    secondId := reg.CreateAlgo(second, "b", "ipfs://b", "h", {second});
    stored := reg.GetAlgo(0);
  }
}
