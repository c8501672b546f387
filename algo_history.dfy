/** The AlgoHistory contract: a per-algorithm append-only log of execution
    records. Each algorithm has a counter `Count(algo)`; `add_record` stores
    the next record under `Record(algo, idx)` with idx the old count, then
    bumps the counter. `list` pages through one algorithm's records.

    Storage keys are fields of the class: `counts` holds the `Count(algo)`
    entries and `records` the `Record(algo, idx)` entries. */
module AlgoHistoryContract {
  import opened Soroban

  datatype Error =
    | AlreadyInitialized            // "already initialized"
    | AdminNotSet                   // "admin not set"
    | NotAuthorized(who: Address)   // require_auth() of `who` failed
    | Overflow                      // the u32 counter `idx + 1` overflowed

  datatype Record = Record(ts: u64, algoId: u32, txHash: string, note: string)

  class AlgoHistory {
    var admin: Option<Address>
    var writer: Option<Address>
    var counts: map<u32, u32>
    var records: map<(u32, u32), Record>

    /** A freshly deployed contract, whose instance storage is empty. */
    constructor ()
      ensures admin == None && writer == None && counts == map[] && records == map[]
      ensures Dense()
    {
      admin, writer := None, None;
      counts, records := map[], map[];
    }

    /** `count(algo)`: an algorithm that was never written to has 0 records. */
    function Count(algoId: u32): (n: u32)
      reads this
      ensures algoId !in counts ==> n == 0
      ensures algoId in counts ==> n == counts[algoId]
    {
      if algoId in counts then counts[algoId] else 0
    }

    /** `get(algo, idx)` */
    function Get(algoId: u32, idx: u32): (r: Option<Record>)
      reads this
      ensures r.Some? <==> (algoId, idx) in records
      ensures r.Some? ==> r.value == records[(algoId, idx)]
    {
      if (algoId, idx) in records then Some(records[(algoId, idx)]) else None
    }

    /** The invariant `add_record` keeps: record idx of an algorithm exists
        exactly when idx is below that algorithm's count, so records are
        numbered densely from 0 and none is ever missing. */
    ghost predicate Dense()
      reads this
    {
      forall a: u32, i: u32 :: Get(a, i).Some? <==> i < Count(a)
    }

    /** `admin()` */
    function Admin(): (r: Result<Address, Error>)
      reads this
      ensures r.Ok? <==> admin.Some?
      ensures r.Ok? ==> r.value == admin.value
      ensures r.Err? ==> r.error == AdminNotSet
    {
      if admin.Some? then Ok(admin.value) else Err(AdminNotSet)
    }

    /** `writer()`: the stored writer, falling back to the admin when the
        Writer key is unset; fails only when neither is set. */
    function Writer(): (r: Result<Address, Error>)
      reads this
      ensures writer.Some? ==> r == Ok(writer.value)
      ensures writer.None? ==> r == Admin()
      ensures r.Err? <==> writer.None? && admin.None?
    {
      if writer.Some? then Ok(writer.value) else Admin()
    }

    /** `init`: refuses a second initialization; otherwise the admin, who
        must authorize, becomes both Admin and Writer. */
    method Init(adminAddress: Address, signers: set<Address>) returns (r: Outcome<Error>)
      modifies this`admin, this`writer
      ensures r == if old(admin).Some? then Abort(AlreadyInitialized)
                   else if adminAddress !in signers then Abort(NotAuthorized(adminAddress))
                   else Done
      ensures admin == if r.Done? then Some(adminAddress) else old(admin)
      ensures writer == if r.Done? then Some(adminAddress) else old(writer)
    {
      if admin.Some? {
        return Abort(AlreadyInitialized);
      }
      if adminAddress !in signers {
        return Abort(NotAuthorized(adminAddress));
      }
      admin := Some(adminAddress);
      writer := Some(adminAddress);
      r := Done;
    }

    /** `set_writer`: the admin names the writer; only the Writer key changes. */
    method SetWriter(writerAddress: Address, signers: set<Address>) returns (r: Outcome<Error>)
      modifies this`writer
      ensures r == if old(admin).None? then Abort(AdminNotSet)
                   else if old(admin).value !in signers then Abort(NotAuthorized(old(admin).value))
                   else Done
      ensures writer == if r.Done? then Some(writerAddress) else old(writer)
    {
      if admin.None? {
        return Abort(AdminNotSet);
      }
      if admin.value !in signers {
        return Abort(NotAuthorized(admin.value));
      }
      writer := Some(writerAddress);
      r := Done;
    }

    /** `transfer_admin`: the admin hands over; only the Admin key changes
        (so an unset Writer now falls back to the new admin). */
    method TransferAdmin(newAdmin: Address, signers: set<Address>) returns (r: Outcome<Error>)
      modifies this`admin
      ensures r == if old(admin).None? then Abort(AdminNotSet)
                   else if old(admin).value !in signers then Abort(NotAuthorized(old(admin).value))
                   else Done
      ensures admin == if r.Done? then Some(newAdmin) else old(admin)
    {
      if admin.None? {
        return Abort(AdminNotSet);
      }
      if admin.value !in signers {
        return Abort(NotAuthorized(admin.value));
      }
      admin := Some(newAdmin);
      r := Done;
    }

    /** `add_record`: the writer appends one record, stamped with the ledger
        time `now`, to the log of `algoId` and gets back its index, which is
        the log's previous length. Only that log grows, by exactly one. */
    method AddRecord(algoId: u32, txHash: string, note: string, now: u64, signers: set<Address>)
      returns (r: Result<u32, Error>)
      modifies this`counts, this`records
      ensures old(Writer()).Err? ==> r == Err(AdminNotSet)
      ensures old(Writer()).Ok? && old(Writer()).value !in signers ==> r == Err(NotAuthorized(old(Writer()).value))
      ensures old(Writer()).Ok? && old(Writer()).value in signers ==>
        r == if old(Count(algoId)) == U32_MAX then Err(Overflow) else Ok(old(Count(algoId)))
      ensures r.Err? ==> counts == old(counts) && records == old(records)
      ensures r.Ok? ==>
        records == old(records)[(algoId, r.value) := Record(now, algoId, txHash, note)] &&
        Count(algoId) == r.value + 1 &&
        (forall a :: a != algoId ==> Count(a) == old(Count(a)))
      ensures old(Dense()) ==> Dense()
    {
      var w := Writer();
      if w.Err? {
        return Err(AdminNotSet);
      }
      if w.value !in signers {
        return Err(NotAuthorized(w.value));
      }
      var idx := Count(algoId);
      if idx == U32_MAX {
        return Err(Overflow);
      }
      records := records[(algoId, idx) := Record(now, algoId, txHash, note)];
      counts := counts[algoId := idx + 1];
      r := Ok(idx);
      assert forall a: u32, i: u32 :: Get(a, i) == (if a == algoId && i == idx then Some(Record(now, algoId, txHash, note)) else old(Get(a, i)));
    }

    /** The records of `algoId` found at indices lo, lo+1, …, hi-1, in index
        order, skipping indices with no record. */
    ghost function Present(algoId: u32, lo: int, hi: int): seq<Record>
      requires 0 <= lo && hi <= U32_MAX + 1
      reads this
      decreases hi - lo
    {
      if hi <= lo then []
      else Present(algoId, lo, hi - 1) + (if Get(algoId, hi - 1).Some? then [Get(algoId, hi - 1).value] else [])
    }

    /** Scanning further can only append to what a shorter scan found. */
    lemma {:induction false} PresentPrefix(algoId: u32, lo: int, mid: int, hi: int)
      requires 0 <= lo <= mid <= hi <= U32_MAX + 1
      ensures Present(algoId, lo, mid) <= Present(algoId, lo, hi)
      decreases hi - mid
    {
      if mid < hi {
        PresentPrefix(algoId, lo, mid, hi - 1);
      }
    }

    /** Over a dense log, a scan within the count finds every record, in order. */
    lemma {:induction false} PresentDense(algoId: u32, lo: int, hi: int)
      requires Dense() && 0 <= lo <= hi <= Count(algoId)
      ensures |Present(algoId, lo, hi)| == hi - lo
      ensures forall k :: 0 <= k < hi - lo ==> Get(algoId, lo + k) == Some(Present(algoId, lo, hi)[k])
      decreases hi - lo
    {
      if lo < hi {
        PresentDense(algoId, lo, hi - 1);
        assert Get(algoId, hi - 1).Some?;
      }
    }

    /** `list(algo, start, limit)`: walks indices start, start+1, … below the
        count, collecting records until `limit` of them are found. */
    method List(algoId: u32, start: u32, limit: u32) returns (out: seq<Record>)
      ensures |out| <= limit
      ensures out <= Present(algoId, start, Count(algoId))
      ensures |out| < limit ==> out == Present(algoId, start, Count(algoId))
      ensures start >= Count(algoId) ==> out == []
      ensures Dense() ==>
        |out| == (if start >= Count(algoId) then 0
                  else if Count(algoId) - start < limit then Count(algoId) - start
                  else limit as int)
      ensures Dense() ==> forall k :: 0 <= k < |out| ==> Get(algoId, start + k) == Some(out[k])
    {
      var total := Count(algoId);
      out := [];
      var i: int := start;
      while i < total && |out| < limit
        invariant start <= i && (start <= total ==> i <= total)
        invariant i == start || i <= total
        invariant |out| <= limit
        invariant out == Present(algoId, start, i)
        decreases total - i
      {
        var rec := Get(algoId, i);
        if rec.Some? {
          out := out + [rec.value];
        }
        i := i + 1;
      }
      if start < total {
        PresentPrefix(algoId, start, i, total);
      }
      if Dense() && start < total {
        PresentDense(algoId, start, i);
        PresentDense(algoId, start, total);
      }
    }
  }

  /** The contract's own test: two records added for one algorithm give a
      count of 2 and a first page, starting at 0 with limit 10, of both
      records, the first being "txhash1". */
  method AddAndListRecords(adminAddress: Address, now: u64)
    returns (count: u32, listed: seq<Record>)
    ensures count == 2
    ensures |listed| == 2
    ensures listed[0].txHash == "txhash1" && listed[1].txHash == "txhash2"
  {
    var h := new AlgoHistory();
    var r := h.Init(adminAddress, {adminAddress});
    var idx := h.AddRecord(7, "txhash1", "first", now, {adminAddress});
    assert idx == Ok(0);
    idx := h.AddRecord(7, "txhash2", "second", now, {adminAddress});
    assert idx == Ok(1);
    count := h.Count(7);
    listed := h.List(7, 0, 10);
  }
}
