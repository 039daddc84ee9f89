/** The block manager as an object: LIFO free list, in-use flags, table and mirror,
    each method proved to be the corresponding operation on the pool value. */
module BlockManager {
  import opened KvConfig
  import opened SlotRows
  import opened BlockPool

  class Manager {
    const numBlocks: nat
    const maxNumSeqs: nat
    const maxBlocksPerSeq: nat
    const inUse: array<bool>
    const host: array<int>
    const device: array<int>
    var freeList: seq<int>
    var revision: nat
    var syncedRevision: nat
    var allocationFailures: nat
    var doubleFreeEvents: nat

    ghost function Repr(): set<object> { {this, inUse, host, device} }

    ghost function State(): Pool
      reads this, inUse, host, device
    {
      Pool(numBlocks, freeList, inUse[..], maxNumSeqs, maxBlocksPerSeq, host[..], device[..], revision, syncedRevision,
           allocationFailures, doubleFreeEvents)
    }

    ghost predicate Valid()
      reads this, inUse, host, device
    {
      host != device && PoolInv(State())
    }

    constructor (numBlocks: nat, maxNumSeqs: nat, maxBlocksPerSeq: nat)
      ensures Valid() && State() == FreshPool(numBlocks, maxNumSeqs, maxBlocksPerSeq)
      ensures fresh(inUse) && fresh(host) && fresh(device)
    {
      this.numBlocks := numBlocks;
      this.maxNumSeqs, this.maxBlocksPerSeq := maxNumSeqs, maxBlocksPerSeq;
      inUse := new bool[numBlocks](i => false);
      host := new int[maxNumSeqs * maxBlocksPerSeq](i => -1);
      device := new int[maxNumSeqs * maxBlocksPerSeq](i => -1);
      revision, syncedRevision, allocationFailures, doubleFreeEvents := 0, 0, 0, 0;
      freeList := [];
      new;
      var i := numBlocks;
      while i > 0
        invariant 0 <= i <= numBlocks
        invariant freeList == Descending(numBlocks)[..numBlocks - i]
        invariant inUse[..] == seq(numBlocks, b => false)
        invariant host[..] == device[..] == seq(maxNumSeqs * maxBlocksPerSeq, b => -1)
        invariant revision == syncedRevision == allocationFailures == doubleFreeEvents == 0
      {
        i := i - 1;
        freeList := freeList + [i];
      }
      assert State() == FreshPool(numBlocks, maxNumSeqs, maxBlocksPerSeq);
      FreshPoolValid(numBlocks, maxNumSeqs, maxBlocksPerSeq);
    }

    /** BlockManager::Create: refused for an empty dimension or table allocation. */
    static method Create(numBlocks: int, maxNumSeqs: int, maxBlocksPerSeq: int, tableOk: bool)
      returns (r: Result<Manager>)
      ensures r.Failure? <==> numBlocks <= 0 || maxNumSeqs <= 0 || maxBlocksPerSeq <= 0 || !tableOk
      ensures r.Failure? ==>
                r.code == if numBlocks <= 0 || maxNumSeqs <= 0 || maxBlocksPerSeq <= 0 then ShapeMismatch
                          else KVCapacityExceeded
      ensures r.Success? ==>
                && fresh(r.value) && r.value.Valid()
                && r.value.State() == FreshPool(numBlocks, maxNumSeqs, maxBlocksPerSeq)
    {
      if numBlocks <= 0 || maxNumSeqs <= 0 || maxBlocksPerSeq <= 0 { return Failure(ShapeMismatch); }
      if !tableOk { return Failure(KVCapacityExceeded); }
      var manager := new Manager(numBlocks, maxNumSeqs, maxBlocksPerSeq);
      r := Success(manager);
    }

    /** Pops `count` blocks, or refuses and leaves everything but the failure counter alone. */
    method Allocate(count: int) returns (r: Result<seq<int>>)
      requires Valid()
      modifies this, inUse
      ensures Valid()
      ensures (State(), r) == BlockPool.Allocate(old(State()), count)
      ensures r.Success? <==> 0 < count <= |old(freeList)|
      ensures r.Success? ==>
                && |r.value| == count && freeList == old(freeList)[..|old(freeList)| - count]
                && forall i :: 0 <= i < count ==> r.value[i] == old(freeList)[|old(freeList)| - 1 - i]
    {
      ghost var p := State();
      if count <= 0 { return Failure(ShapeMismatch); }
      if count > |freeList| {
        allocationFailures := allocationFailures + 1;
        return Failure(KVCapacityExceeded);
      }
      TakenInv(p, count);
      var blocks := PopBlocks(count);
      r := Success(blocks);
    }

    method PopBlocks(count: nat) returns (blocks: seq<int>)
      requires |inUse[..]| == numBlocks && count <= |freeList|
      requires forall i :: 0 <= i < |freeList| ==> 0 <= freeList[i] < numBlocks
      modifies this`freeList, inUse
      ensures State() == Taken(old(State()), count) && blocks == TakenBlocks(old(State()), count)
    {
      ghost var p := State();
      var n := |freeList|;
      blocks := [];
      for i := 0 to count
        invariant freeList == p.free[..n - i]
        invariant blocks == TakenBlocks(p, count)[..i]
        invariant forall b :: 0 <= b < numBlocks ==> inUse[b] == (p.inUse[b] || b in p.free[n - i..])
      {
        var block := freeList[|freeList| - 1];
        assert p.free[n - (i + 1)..] == [block] + p.free[n - i..];
        freeList := freeList[..|freeList| - 1];
        inUse[block] := true;
        blocks := blocks + [block];
      }
      assert inUse[..] == Taken(p, count).inUse;
    }

    method Free(ids: seq<int>)
      requires Valid()
      modifies this`freeList, this`doubleFreeEvents, inUse
      ensures Valid() && State() == FreeIds(old(State()), ids)
    {
      ghost var p := State();
      assert |p.inUse| == p.numBlocks;
      hide PoolInv;
      assert ids[..0] == [];
      for i := 0 to |ids|
        invariant Valid() && State() == FreeIds(p, ids[..i])
      {
        assert ids[..i + 1][..i] == ids[..i];
        FreeOneInv(State(), ids[i]);
        ReleaseOne(ids[i]);
      }
      assert ids[..|ids|] == ids;
    }

    method ReleaseOne(block: int)
      requires inUse.Length == numBlocks
      modifies this`freeList, this`doubleFreeEvents, inUse
      ensures State() == FreeOne(old(State()), block)
    {
      if block < 0 || block >= numBlocks {
        doubleFreeEvents := doubleFreeEvents + 1;
        return;
      }
      if !inUse[block] {
        doubleFreeEvents := doubleFreeEvents + 1;
        return;
      }
      inUse[block] := false;
      freeList := freeList + [block];
    }

    method AppendToTable(seqId: int, ids: seq<int>) returns (st: Status)
      requires Valid()
      modifies this`revision, host
      ensures Valid()
      ensures (State(), st) == BlockPool.AppendToTable(old(State()), seqId, ids)
      ensures st.Ok? <==>
                && 0 <= seqId < maxNumSeqs && |ids| > 0
                && LeadingUsed(TableRow(old(State()), seqId)) + |ids| <= maxBlocksPerSeq
    {
      ghost var p := State();
      AppendInv(p, seqId, ids);
      assert TableShaped(p);
      hide PoolInv, TableShaped, SetTableRow, TableRow, LeadingUsed;
      if seqId < 0 || seqId >= maxNumSeqs { return Err(ShapeMismatch); }
      if |ids| <= 0 { return Err(ShapeMismatch); }
      var used := ScanRow(seqId);
      if used + |ids| > maxBlocksPerSeq { return Err(KVCapacityExceeded); }
      WriteRow(seqId, used, ids);
      revision := revision + 1;
      st := Ok;
    }

    method ScanRow(seqId: nat) returns (used: nat)
      requires TableShaped(State()) && seqId < maxNumSeqs
      ensures used == LeadingUsed(TableRow(State(), seqId))
    {
      used := UsedEntries(host, maxBlocksPerSeq, maxNumSeqs, seqId);
    }

    method WriteRow(seqId: nat, offset: nat, xs: seq<int>)
      requires TableShaped(State()) && seqId < maxNumSeqs && offset + |xs| <= maxBlocksPerSeq && host != device
      modifies host
      ensures var row := TableRow(old(State()), seqId);
              State() == SetTableRow(old(State()), seqId, row[..offset] + xs + row[offset + |xs|..])
    {
      hide SetRow, RowAt;
      WriteEntries(host, maxBlocksPerSeq, maxNumSeqs, seqId, offset, xs);
    }

    method ResetSeq(seqId: int) returns (st: Status)
      requires Valid()
      modifies this, inUse, host
      ensures Valid()
      ensures (State(), st) == BlockPool.ResetSeq(old(State()), seqId)
      ensures st.Ok? <==> 0 <= seqId < maxNumSeqs
    {
      ghost var p := State();
      ResetInv(p, seqId);
      assert TableShaped(p) && |p.inUse| == p.numBlocks;
      hide PoolInv, TableShaped, SetTableRow;
      if seqId < 0 || seqId >= maxNumSeqs { return Err(ShapeMismatch); }
      var ids := MappedPrefix(seqId);
      hide TableRow, CountMapped;
      if |ids| > 0 {
        Free(ids);
      }
      assert State() == FreeIds(p, ids);
      var empty := EmptyRow(maxBlocksPerSeq);
      ghost var row := TableRow(State(), seqId);
      WriteRow(seqId, 0, empty);
      assert row[..0] + empty + row[|empty|..] == empty;
      revision := revision + 1;
      st := Ok;
    }

    /** As many leading entries of the row as there are mapped ones in it. */
    method MappedPrefix(seqId: nat) returns (ids: seq<int>)
      requires TableShaped(State()) && seqId < maxNumSeqs
      ensures var row := TableRow(State(), seqId); ids == row[..CountMapped(row)]
    {
      var count := MappedEntries(host, maxBlocksPerSeq, maxNumSeqs, seqId);
      RowInside(host[..], maxBlocksPerSeq, maxNumSeqs, seqId);
      var start := seqId * maxBlocksPerSeq;
      ids := host[start..start + count];
    }

    /** Upload the table unless the revision has not moved since the last upload. */
    method SyncTableToDevice()
      requires Valid()
      modifies this`syncedRevision, device
      ensures Valid() && State() == BlockPool.SyncTableToDevice(old(State()))
      ensures syncedRevision == revision && device[..] == host[..] == old(host[..])
    {
      SyncInv(State());
      if syncedRevision == revision { return; }
      CopyTable(host, device);
      syncedRevision := revision;
    }
  }
}
