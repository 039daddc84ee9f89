/** The block allocator and its table as a value: the free list, the in-use flags,
    the flat table, and what each operation makes of them. */
module BlockPool {
  import opened KvConfig
  import opened SlotRows

  datatype Pool = Pool(
    numBlocks: nat, free: seq<int>, inUse: seq<bool>,
    rows: nat, width: nat, table: seq<int>, device: seq<int>, revision: nat, synced: nat,
    allocationFailures: nat, doubleFreeEvents: nat)

  /** Shapes, and the free list holds exactly the blocks not in use, once each. */
  ghost predicate PoolInv(p: Pool) {
    && |p.inUse| == p.numBlocks
    && |p.table| == |p.device| == p.rows * p.width
    && Distinct(p.free)
    && (forall i :: 0 <= i < |p.free| ==> 0 <= p.free[i] < p.numBlocks && !p.inUse[p.free[i]])
    && (forall b :: 0 <= b < p.numBlocks && !p.inUse[b] ==> b in p.free)
    && p.synced <= p.revision
    && (p.synced == p.revision ==> p.device == p.table)
  }

  function Descending(n: nat): (s: seq<int>)
    ensures |s| == n
    ensures forall i :: 0 <= i < n ==> s[i] == n - 1 - i
  {
    seq(n, i requires 0 <= i < n => n - 1 - i)
  }

  function FreshPool(numBlocks: nat, rows: nat, width: nat): Pool {
    Pool(numBlocks, Descending(numBlocks), seq(numBlocks, i => false), rows, width,
         seq(rows * width, i => -1), seq(rows * width, i => -1), 0, 0, 0, 0)
  }

  lemma FreshPoolValid(numBlocks: nat, rows: nat, width: nat)
    ensures PoolInv(FreshPool(numBlocks, rows, width))
  {
    forall b | 0 <= b < numBlocks ensures b in FreshPool(numBlocks, rows, width).free {
      assert Descending(numBlocks)[numBlocks - 1 - b] == b;
    }
  }

  // ---------------------------------------------------------------------------
  // Allocate
  // ---------------------------------------------------------------------------

  /** The pool after popping `count` blocks. */
  function Taken(p: Pool, count: nat): Pool
    requires count <= |p.free|
  {
    p.(free := p.free[..|p.free| - count],
       inUse := seq(|p.inUse|, b requires 0 <= b < |p.inUse| => p.inUse[b] || b in p.free[|p.free| - count..]))
  }

  /** The blocks handed out, last of the list first. */
  function TakenBlocks(p: Pool, count: nat): (ids: seq<int>)
    requires count <= |p.free|
    ensures |ids| == count
    ensures forall i :: 0 <= i < count ==> ids[i] == p.free[|p.free| - 1 - i]
  {
    seq(count, i requires 0 <= i < count => p.free[|p.free| - 1 - i])
  }

  function Allocate(p: Pool, count: int): (r: (Pool, Result<seq<int>>)) {
    if count <= 0 then (p, Failure(ShapeMismatch))
    else if count > |p.free| then (p.(allocationFailures := p.allocationFailures + 1), Failure(KVCapacityExceeded))
    else (Taken(p, count), Success(TakenBlocks(p, count)))
  }

  /** The blocks handed out are the back of the free list. */
  lemma TakenMembers(p: Pool, count: nat, b: int)
    requires count <= |p.free|
    ensures b in p.free[|p.free| - count..] <==> b in TakenBlocks(p, count)
  {
    var ids, back := TakenBlocks(p, count), p.free[|p.free| - count..];
    if i :| 0 <= i < count && ids[i] == b {
      assert back[count - 1 - i] == b;
    }
    if i :| 0 <= i < count && back[i] == b {
      assert ids[count - 1 - i] == b;
    }
  }

  lemma TakenBlocksAre(p: Pool, count: nat)
    requires PoolInv(p) && count <= |p.free|
    ensures var p', ids := Taken(p, count), TakenBlocks(p, count);
            && Distinct(ids)
            && (forall i :: 0 <= i < count ==> 0 <= ids[i] < p.numBlocks && !p.inUse[ids[i]])
            && (forall b :: 0 <= b < p.numBlocks ==> p'.inUse[b] == (p.inUse[b] || b in ids))
  {
    forall b | 0 <= b < p.numBlocks ensures b in p.free[|p.free| - count..] <==> b in TakenBlocks(p, count) {
      TakenMembers(p, count, b);
    }
  }

  lemma StillFree(p: Pool, count: nat, b: nat)
    requires PoolInv(p) && count <= |p.free| && b < p.numBlocks && !Taken(p, count).inUse[b]
    ensures b in Taken(p, count).free
  {
    var n := |p.free|;
    var i :| 0 <= i < n && p.free[i] == b;
    assert p.free[i] in p.free[n - count..] || i < n - count;
    assert i < n - count ==> Taken(p, count).free[i] == b;
  }

  lemma TakenInv(p: Pool, count: nat)
    requires PoolInv(p) && count <= |p.free|
    ensures PoolInv(Taken(p, count))
  {
    forall b | 0 <= b < p.numBlocks && !Taken(p, count).inUse[b] ensures b in Taken(p, count).free {
      StillFree(p, count, b);
    }
  }

  /** A fresh pool hands out 0, 1, 2, ... in order. */
  lemma FreshPoolAscends(numBlocks: nat, rows: nat, width: nat, count: nat)
    requires 0 < count <= numBlocks
    ensures Allocate(FreshPool(numBlocks, rows, width), count).1 == Success(seq(count, i => i))
  {
    var p := FreshPool(numBlocks, rows, width);
    assert TakenBlocks(p, count) == seq(count, i => i);
  }

  // ---------------------------------------------------------------------------
  // Free
  // ---------------------------------------------------------------------------

  /** Release one id: anything that is not an allocated block only counts an event. */
  function FreeOne(p: Pool, id: int): Pool
    requires |p.inUse| == p.numBlocks
  {
    if id < 0 || id >= p.numBlocks || !p.inUse[id]
    then p.(doubleFreeEvents := p.doubleFreeEvents + 1)
    else p.(inUse := p.inUse[id := false], free := p.free + [id])
  }

  function FreeIds(p: Pool, ids: seq<int>): (r: Pool)
    requires |p.inUse| == p.numBlocks
    ensures |r.inUse| == r.numBlocks == p.numBlocks
    ensures r == p.(free := r.free, inUse := r.inUse, doubleFreeEvents := r.doubleFreeEvents)
  {
    if ids == [] then p else FreeOne(FreeIds(p, ids[..|ids| - 1]), ids[|ids| - 1])
  }

  lemma FreeOneInv(p: Pool, id: int)
    requires PoolInv(p)
    ensures PoolInv(FreeOne(p, id))
  {
    var r := FreeOne(p, id);
    forall b | 0 <= b < p.numBlocks && !r.inUse[b] ensures b in r.free {
      if b != id {
        assert b in p.free;
      } else if r.free != p.free {
        assert r.free[|p.free|] == b;
      }
    }
  }

  /** Free on any list of ids: every listed allocated block is returned, all other
      blocks stay as they are, the pool stays consistent, and each listed id either
      grew the free list by one or raised the event counter by one. */
  lemma {:induction false} FreeIdsEffect(p: Pool, ids: seq<int>)
    requires PoolInv(p)
    ensures var r := FreeIds(p, ids);
            && PoolInv(r)
            && (forall b :: 0 <= b < p.numBlocks ==> r.inUse[b] == (p.inUse[b] && b !in ids))
            && p.free <= r.free
            && (|r.free| - |p.free|) + (r.doubleFreeEvents - p.doubleFreeEvents) == |ids|
            && (forall i :: |p.free| <= i < |r.free| ==> r.free[i] in ids && p.inUse[r.free[i]])
  {
    if ids != [] {
      var init, last := ids[..|ids| - 1], ids[|ids| - 1];
      FreeIdsEffect(p, init);
      FreeOneInv(FreeIds(p, init), last);
    }
  }

  lemma FreeKeepsOthers(p: Pool, ids: seq<int>, b: nat)
    requires PoolInv(p) && b < p.numBlocks && b !in ids
    ensures FreeIds(p, ids).inUse[b] == p.inUse[b]
  {
    FreeIdsEffect(p, ids);
  }

  /** Distinct allocated blocks are all released, in the order given, without events. */
  lemma {:induction false} FreeDistinct(p: Pool, ids: seq<int>)
    requires PoolInv(p) && Distinct(ids)
    requires forall i :: 0 <= i < |ids| ==> 0 <= ids[i] < p.numBlocks && p.inUse[ids[i]]
    ensures FreeIds(p, ids).free == p.free + ids
    ensures FreeIds(p, ids).doubleFreeEvents == p.doubleFreeEvents
  {
    if ids != [] {
      var init := ids[..|ids| - 1];
      FreeDistinct(p, init);
      FreeKeepsOthers(p, init, ids[|ids| - 1]);
      assert p.free + ids == (p.free + init) + [ids[|ids| - 1]];
    } else {
      assert p.free + ids == p.free;
    }
  }

  /** Freeing what Allocate returned restores the flags and the set of free blocks;
      the list itself comes back exactly when a single block was taken. */
  lemma FreeUndoesAllocate(p: Pool, count: nat)
    requires PoolInv(p) && 0 < count <= |p.free|
    ensures var r := FreeIds(Taken(p, count), TakenBlocks(p, count));
            && r.inUse == p.inUse
            && (forall b :: b in r.free <==> b in p.free)
            && |r.free| == |p.free|
            && r.doubleFreeEvents == p.doubleFreeEvents
            && (r == p <==> count == 1)
  {
    var q, ids, n := Taken(p, count), TakenBlocks(p, count), |p.free|;
    TakenInv(p, count);
    TakenBlocksAre(p, count);
    FreeDistinct(q, ids);
    FreeIdsEffect(q, ids);
    hide FreeIds, CountUsed;
    var r := FreeIds(q, ids);
    assert r.inUse == p.inUse;
    forall b ensures b in r.free <==> b in p.free {
      if b in p.free { assert 0 <= b < p.numBlocks && !p.inUse[b]; }
      if b in r.free { assert 0 <= b < p.numBlocks && !r.inUse[b]; }
    }
    assert r.free[n - count] == p.free[n - 1];
    if count == 1 {
      assert r.free == p.free;
    }
  }

  // ---------------------------------------------------------------------------
  // Counting
  // ---------------------------------------------------------------------------

  function CountUsed(flags: seq<bool>): nat {
    if flags == [] then 0 else CountUsed(flags[..|flags| - 1]) + if flags[|flags| - 1] then 1 else 0
  }

  lemma {:induction false} UnusedCardinality(flags: seq<bool>)
    ensures |set b: int | 0 <= b < |flags| && !flags[b]| + CountUsed(flags) == |flags|
  {
    var s := set b: int | 0 <= b < |flags| && !flags[b];
    if flags != [] {
      var n := |flags| - 1;
      UnusedCardinality(flags[..n]);
      var s' := set b: int | 0 <= b < |flags[..n]| && !flags[..n][b];
      assert s == if flags[n] then s' else s' + {n};
    } else {
      assert s == {};
    }
  }

  lemma {:induction false} DistinctCardinality(xs: seq<int>)
    requires Distinct(xs)
    ensures |set x | x in xs| == |xs|
  {
    if xs == [] {
      assert (set x | x in xs) == {};
    } else {
      var init, last := xs[..|xs| - 1], xs[|xs| - 1];
      DistinctCardinality(init);
      assert (set x | x in xs) == (set x | x in init) + {last};
    }
  }

  /** Free on any list returns as many blocks as it names distinct allocated ids, and
      counts all its other entries, repeats included, as double frees. */
  lemma FreeCountsExactly(p: Pool, ids: seq<int>)
    requires PoolInv(p)
    ensures var r, returned := FreeIds(p, ids), set b | b in ids && 0 <= b < p.numBlocks && p.inUse[b];
            && |r.free| == |p.free| + |returned|
            && r.doubleFreeEvents == p.doubleFreeEvents + |ids| - |returned|
            && (forall b :: b in r.free <==> b in p.free || b in returned)
  {
    var r, returned := FreeIds(p, ids), set b | b in ids && 0 <= b < p.numBlocks && p.inUse[b];
    var gained := GainedBlocks(p, ids);
    DistinctCardinality(gained);
    assert returned == set x | x in gained;
  }

  /** What Free appended to the free list: the allocated blocks among the ids, once each. */
  lemma GainedBlocks(p: Pool, ids: seq<int>) returns (gained: seq<int>)
    requires PoolInv(p)
    ensures var r := FreeIds(p, ids);
            && r.free == p.free + gained && Distinct(gained)
            && r.doubleFreeEvents == p.doubleFreeEvents + |ids| - |gained|
            && (forall b :: b in gained <==> b in ids && 0 <= b < p.numBlocks && p.inUse[b])
  {
    FreeIdsEffect(p, ids);
    hide FreeIds;
    var r := FreeIds(p, ids);
    gained := r.free[|p.free|..];
    assert r.free == p.free + gained;
    forall b | b in ids && 0 <= b < p.numBlocks && p.inUse[b] ensures b in gained {
      assert b in r.free && b !in p.free;
    }
    forall b | b in gained ensures b in ids && 0 <= b < p.numBlocks && p.inUse[b] {
      var i :| 0 <= i < |gained| && gained[i] == b;
      assert r.free[|p.free| + i] == b;
    }
  }

  /** Free blocks plus blocks in use is the size of the pool, always. */
  lemma PoolConservation(p: Pool)
    requires PoolInv(p)
    ensures |p.free| + CountUsed(p.inUse) == p.numBlocks
  {
    DistinctCardinality(p.free);
    UnusedCardinality(p.inUse);
    assert (set x | x in p.free) == (set b: int | 0 <= b < |p.inUse| && !p.inUse[b]);
  }

  /** The block ids below n. */
  function Range(n: nat): (s: set<int>)
    ensures |s| == n
    ensures forall x :: x in s <==> 0 <= x < n
  {
    if n == 0 then {} else Range(n - 1) + {n - 1}
  }

  /** Distinct block ids are at most as many as there are blocks. */
  lemma DistinctFit(xs: seq<int>, n: nat)
    requires Distinct(xs) && forall i :: 0 <= i < |xs| ==> 0 <= xs[i] < n
    ensures |xs| <= n
  {
    DistinctCardinality(xs);
    SubsetCardinality((set x | x in xs), Range(n));
  }

  lemma SubsetCardinality(s: set<int>, t: set<int>)
    requires s <= t
    ensures |s| <= |t|
  {
    assert s + (t - s) == t;
    assert s * (t - s) == {};
  }

  // ---------------------------------------------------------------------------
  // The table
  // ---------------------------------------------------------------------------

  /** A row that lists `ids` and is empty after them. */
  function PaddedRow(ids: seq<int>, width: nat): (r: seq<int>)
    requires |ids| <= width
    ensures |r| == width
    ensures forall i :: 0 <= i < width ==> r[i] == if i < |ids| then ids[i] else -1
  {
    ids + seq(width - |ids|, i => -1)
  }

  lemma PaddedLeading(ids: seq<int>, width: nat)
    requires |ids| <= width && forall i :: 0 <= i < |ids| ==> ids[i] >= 0
    ensures LeadingUsed(PaddedRow(ids, width)) == |ids|
  {
    var r := PaddedRow(ids, width);
    assert forall i :: 0 <= i < |ids| ==> r[i] >= 0;
    assert |ids| < width ==> r[|ids|] == -1;
  }

  lemma {:induction false} CountAllMapped(row: seq<int>)
    requires forall i :: 0 <= i < |row| ==> row[i] >= 0
    ensures CountMapped(row) == |row|
  {
    if row != [] {
      CountAllMapped(row[..|row| - 1]);
    }
  }

  lemma {:induction false} CountPadded(ids: seq<int>, width: nat)
    requires |ids| <= width && forall i :: 0 <= i < |ids| ==> ids[i] >= 0
    ensures CountMapped(PaddedRow(ids, width)) == |ids|
    decreases width
  {
    if |ids| == width {
      assert PaddedRow(ids, width) == ids;
      CountAllMapped(ids);
    } else {
      CountPadded(ids, width - 1);
      assert PaddedRow(ids, width)[..width - 1] == PaddedRow(ids, width - 1);
    }
  }

  /** The flat table has one row of `width` entries per sequence. */
  ghost predicate TableShaped(p: Pool) { |p.table| == p.rows * p.width }

  function TableRow(p: Pool, s: nat): (row: seq<int>)
    requires TableShaped(p) && s < p.rows
    ensures |row| == p.width
  {
    RowInside(p.table, p.width, p.rows, s);
    RowAt(p.table, p.width, s)
  }

  function SetTableRow(p: Pool, s: nat, row: seq<int>): (r: Pool)
    requires TableShaped(p) && s < p.rows && |row| == p.width
    ensures TableShaped(r) && r == p.(table := r.table)
  {
    RowInside(p.table, p.width, p.rows, s);
    p.(table := SetRow(p.table, p.width, s, row))
  }

  function AppendToTable(p: Pool, s: int, ids: seq<int>): (r: (Pool, Status))
    requires TableShaped(p)
  {
    if s < 0 || s >= p.rows then (p, Err(ShapeMismatch))
    else if ids == [] then (p, Err(ShapeMismatch))
    else
      var row := TableRow(p, s);
      var used := LeadingUsed(row);
      if used + |ids| > p.width then (p, Err(KVCapacityExceeded))
      else (SetTableRow(p, s, row[..used] + ids + row[used + |ids|..]).(revision := p.revision + 1), Ok)
  }

  function EmptyRow(width: nat): (r: seq<int>)
    ensures |r| == width
  {
    seq(width, i => -1)
  }

  function ResetSeq(p: Pool, s: int): (r: (Pool, Status))
    requires TableShaped(p) && |p.inUse| == p.numBlocks
  {
    if s < 0 || s >= p.rows then (p, Err(ShapeMismatch))
    else
      var row := TableRow(p, s);
      var freed := FreeIds(p, row[..CountMapped(row)]);
      (SetTableRow(freed, s, EmptyRow(p.width)).(revision := p.revision + 1), Ok)
  }

  function SyncTableToDevice(p: Pool): Pool {
    if p.synced == p.revision then p else p.(device := p.table, synced := p.revision)
  }

  lemma AppendInv(p: Pool, s: int, ids: seq<int>)
    requires PoolInv(p)
    ensures PoolInv(AppendToTable(p, s, ids).0)
  {
  }

  lemma ResetInv(p: Pool, s: int)
    requires PoolInv(p)
    ensures PoolInv(ResetSeq(p, s).0)
  {
    hide SetTableRow, TableRow;
    if 0 <= s < p.rows {
      var row := TableRow(p, s);
      FreeIdsEffect(p, row[..CountMapped(row)]);
    }
  }

  /** The manager's own mirror is never stale while the revisions agree, and a sync
      always leaves it equal to the table. */
  lemma SyncInv(p: Pool)
    requires PoolInv(p)
    ensures PoolInv(SyncTableToDevice(p)) && SyncTableToDevice(p).device == p.table
  {
  }
}
