/** What every operation of the paged KV cache keeps: who owns which block, that the
    three block lists agree, that lengths fit the blocks, and what the device mirror
    may lag behind. */
module CacheInvariant {
  import opened Arith
  import opened KvConfig
  import opened SlotRows
  import opened KvCache
  import opened BlockPool
  import opened CacheModel

  // ---------------------------------------------------------------------------
  // The invariant
  // ---------------------------------------------------------------------------

  ghost predicate HasOwner(owned: seq<seq<int>>, b: int) { exists s :: 0 <= s < |owned| && b in owned[s] }

  /** No block is listed twice, neither in one sequence nor in two. */
  ghost predicate OwnedOnce(owned: seq<seq<int>>) {
    forall s, i, s', i' | 0 <= s < |owned| && 0 <= i < |owned[s]| && 0 <= s' < |owned| && 0 <= i' < |owned[s']|
                          && owned[s][i] == owned[s'][i'] :: s == s' && i == i'
  }

  /** The blocks in use are the disjoint union of the sequences' lists. */
  ghost predicate Ownership(owned: seq<seq<int>>, inUse: seq<bool>) {
    && (forall s, i :: 0 <= s < |owned| && 0 <= i < |owned[s]| ==> 0 <= owned[s][i] < |inUse| && inUse[owned[s][i]])
    && OwnedOnce(owned)
    && (forall b :: 0 <= b < |inUse| && inUse[b] ==> HasOwner(owned, b))
  }

  /** Own list, manager's table row and host page-table row of s agree entry by entry. */
  ghost predicate RowAgrees(c: Cache, s: nat)
    requires Sized(c) && s < c.cfg.maxNumSeqs
  {
    && |c.owned[s]| <= c.cfg.numBlocks
    && TableRow(c.pool, s) == PaddedRow(c.owned[s], c.cfg.numBlocks)
    && PageRow(c, c.host, s) == PaddedRow(c.owned[s], c.cfg.numBlocks)
  }

  /** Row s of the device mirror lists the first n blocks of s, enough for all its
      live tokens. */
  ghost predicate MirrorAt(c: Cache, s: nat, n: nat)
    requires Sized(c) && s < c.cfg.maxNumSeqs
  {
    && n <= |c.owned[s]| <= c.cfg.numBlocks
    && c.lens[s] <= n * c.cfg.blockSize
    && PageRow(c, c.device, s) == PaddedRow(c.owned[s][..n], c.cfg.numBlocks)
  }

  ghost predicate MirrorRow(c: Cache, s: nat)
    requires Sized(c) && s < c.cfg.maxNumSeqs
  {
    exists n :: 0 <= n && MirrorAt(c, s, n)
  }

  ghost predicate Inv(c: Cache) {
    && Sized(c)
    && Ownership(c.owned, c.pool.inUse)
    && (forall s :: 0 <= s < c.cfg.maxNumSeqs ==> RowAgrees(c, s))
    && (forall s :: 0 <= s < c.cfg.maxNumSeqs ==> c.lens[s] <= |c.owned[s]| * c.cfg.blockSize)
    && c.synced <= c.revision
    && (c.synced == c.revision ==> forall s :: 0 <= s < c.cfg.maxNumSeqs ==> MirrorRow(c, s))
  }

  // ---------------------------------------------------------------------------
  // Attaching blocks
  // ---------------------------------------------------------------------------

  lemma OwnedDistinct(owned: seq<seq<int>>, inUse: seq<bool>, s: nat)
    requires Ownership(owned, inUse) && s < |owned|
    ensures Distinct(owned[s])
  {
  }

  /** Adding blocks that were free to one sequence. */
  lemma OwnershipGrows(owned: seq<seq<int>>, inUse: seq<bool>, s: nat, ids: seq<int>, inUse': seq<bool>)
    requires Ownership(owned, inUse) && s < |owned| && |inUse'| == |inUse|
    requires Distinct(ids) && forall i :: 0 <= i < |ids| ==> 0 <= ids[i] < |inUse| && !inUse[ids[i]]
    requires forall b :: 0 <= b < |inUse| ==> inUse'[b] == (inUse[b] || b in ids)
    ensures Ownership(owned[s := owned[s] + ids], inUse')
  {
    var owned' := owned[s := owned[s] + ids];
    forall b | 0 <= b < |inUse'| && inUse'[b] ensures HasOwner(owned', b) {
      if inUse[b] {
        var t :| 0 <= t < |owned| && b in owned[t];
        assert b in owned'[t];
      } else {
        assert b in owned'[s];
      }
    }
  }

  /** Dropping all blocks of one sequence. */
  lemma OwnershipDrops(owned: seq<seq<int>>, inUse: seq<bool>, s: nat, inUse': seq<bool>)
    requires Ownership(owned, inUse) && s < |owned| && |inUse'| == |inUse|
    requires forall b :: 0 <= b < |inUse| ==> inUse'[b] == (inUse[b] && b !in owned[s])
    ensures Ownership(owned[s := []], inUse')
  {
    var owned' := owned[s := []];
    forall b | 0 <= b < |inUse'| && inUse'[b] ensures HasOwner(owned', b) {
      var t :| 0 <= t < |owned| && b in owned[t];
      assert b in owned'[t];
    }
  }

  /** Pigeonhole: what a sequence owns and what it is about to receive are distinct
      blocks of the pool, so together they fit a table row. */
  lemma RowHasRoom(c: Cache, s: nat, count: nat)
    requires Inv(c) && s < c.cfg.maxNumSeqs && count <= |c.pool.free|
    ensures Distinct(c.owned[s] + TakenBlocks(c.pool, count))
    ensures |c.owned[s]| + count <= c.cfg.numBlocks
  {
    var ids := TakenBlocks(c.pool, count);
    TakenBlocksAre(c.pool, count);
    OwnedDistinct(c.owned, c.pool.inUse, s);
    var all := c.owned[s] + ids;
    forall t, u | 0 <= t < u < |all| ensures all[t] != all[u] {
      if t < |c.owned[s]| <= u {
        assert c.pool.inUse[all[t]] && !c.pool.inUse[ids[u - |c.owned[s]|]];
      }
    }
    DistinctFit(all, c.cfg.numBlocks);
  }

  lemma PaddedGrows(owned: seq<int>, ids: seq<int>, width: nat)
    requires |owned| + |ids| <= width
    ensures var row := PaddedRow(owned, width);
            row[..|owned|] + ids + row[|owned| + |ids|..] == PaddedRow(owned + ids, width)
  {
  }

  /** What attaching amounts to once Allocate succeeds: the table append cannot fail,
      so the branch that frees the new blocks again is never taken. */
  lemma AttachSucceeds(c: Cache, s: nat, len: nat)
    requires Inv(c) && s < c.cfg.maxNumSeqs
    ensures var want := BlocksNeeded(len, c.cfg.blockSize) - |c.owned[s]|;
            var (c1, st) := Attach(c, s, len);
            && (want <= 0 ==> (c1, st) == (c, Ok))
            && (want > |c.pool.free| ==>
                 (c1, st)
                   == (c.(pool := c.pool.(allocationFailures := c.pool.allocationFailures + 1)),
                       Err(KVCapacityExceeded)))
            && (0 < want <= |c.pool.free| ==>
                  && st == Ok
                  && |c.owned[s]| + want <= c.cfg.numBlocks
                  && Attached(c, c1, s, TakenBlocks(c.pool, want)))
  {
    hide PoolInv, TableRow, SetTableRow;
    var want := BlocksNeeded(len, c.cfg.blockSize) - |c.owned[s]|;
    if 0 < want <= |c.pool.free| {
      RowHasRoom(c, s, want);
      AllocateShaped(c.pool, want);
      assert RowAgrees(c, s);
      OwnedMapped(c, s);
      var pool := Taken(c.pool, want);
      assert TableRow(pool, s) == TableRow(c.pool, s) by { SameTableRow(c.pool, pool, s); }
      PaddedLeading(c.owned[s], c.cfg.numBlocks);
      PaddedGrows(c.owned[s], TakenBlocks(c.pool, want), c.cfg.numBlocks);
    }
  }

  lemma SameTableRow(p: Pool, p': Pool, s: nat)
    requires TableShaped(p) && s < p.rows && p'.table == p.table && p'.rows == p.rows && p'.width == p.width
    ensures TableShaped(p') && TableRow(p', s) == TableRow(p, s)
  {
  }

  lemma OwnedMapped(c: Cache, s: nat)
    requires Inv(c) && s < c.cfg.maxNumSeqs
    ensures forall i :: 0 <= i < |c.owned[s]| ==> c.owned[s][i] >= 0
  {
  }

  /** c1 is c with the blocks `ids` taken from the pool and attached to s; the host page
      table is not refreshed yet. */
  ghost predicate Attached(c: Cache, c1: Cache, s: nat, ids: seq<int>)
    requires Sized(c) && s < c.cfg.maxNumSeqs
  {
    && |ids| <= |c.pool.free| && ids == TakenBlocks(c.pool, |ids|)
    && |c.owned[s]| + |ids| <= c.cfg.numBlocks
    && TableShaped(Taken(c.pool, |ids|))
    && c1 == c.(owned := c.owned[s := c.owned[s] + ids],
                pool := SetTableRow(Taken(c.pool, |ids|), s,
                                    PaddedRow(c.owned[s] + ids, c.cfg.numBlocks)).(revision := c.pool.revision + 1))
  }

  /** The pool side of an attachment. */
  lemma AttachedPool(c: Cache, c1: Cache, s: nat, ids: seq<int>)
    requires Inv(c) && s < c.cfg.maxNumSeqs && Attached(c, c1, s, ids)
    ensures PoolInv(c1.pool) && Ownership(c1.owned, c1.pool.inUse)
    ensures forall t :: 0 <= t < c.cfg.maxNumSeqs ==>
              TableRow(c1.pool, t) == if t == s then PaddedRow(c1.owned[s], c.cfg.numBlocks) else TableRow(c.pool, t)
  {
    TakenInv(c.pool, |ids|);
    TakenBlocksAre(c.pool, |ids|);
    OwnershipGrows(c.owned, c.pool.inUse, s, ids, c1.pool.inUse);
    forall t | 0 <= t < c.cfg.maxNumSeqs
      ensures TableRow(c1.pool, t) == if t == s then PaddedRow(c1.owned[s], c.cfg.numBlocks) else TableRow(c.pool, t)
    {
      SetRowRows(c.pool.table, c.pool.width, c.pool.rows, s, PaddedRow(c.owned[s] + ids, c.cfg.numBlocks), t);
    }
  }

  lemma AttachedSized(c: Cache, c1: Cache, s: nat, ids: seq<int>)
    requires Inv(c) && s < c.cfg.maxNumSeqs && Attached(c, c1, s, ids)
    ensures Sized(c1) && |c1.owned[s]| <= c1.cfg.numBlocks
  {
    AttachedPool(c, c1, s, ids);
    forall l | 0 <= l < |c.k| ensures LayerSized(c1, c1.k[l]) && LayerSized(c1, c1.v[l]) {
      assert LayerSized(c, c.k[l]) && LayerSized(c, c.v[l]);
    }
  }

  /** Refreshing the row after an attachment brings the three lists back together. */
  lemma RefreshedRows(c: Cache, c1: Cache, s: nat, ids: seq<int>, t: nat)
    requires Inv(c) && s < c.cfg.maxNumSeqs && Attached(c, c1, s, ids) && Sized(c1) && t < c.cfg.maxNumSeqs
    requires |c1.owned[s]| <= c1.cfg.numBlocks
    ensures Sized(RefreshRow(c1, s)) && RowAgrees(RefreshRow(c1, s), t)
  {
    hide PoolInv, TableRow;
    AttachedPool(c, c1, s, ids);
    RefreshSized(c1, s);
    assert RowAgrees(c, t);
    SetRowRows(c.host, c.cfg.numBlocks, c.cfg.maxNumSeqs, s, PaddedRow(c1.owned[s], c.cfg.numBlocks), t);
  }

  lemma RefreshSized(c: Cache, s: nat)
    requires Sized(c) && s < c.cfg.maxNumSeqs && |c.owned[s]| <= c.cfg.numBlocks
    ensures Sized(RefreshRow(c, s))
  {
    forall l | 0 <= l < |c.k| ensures LayerSized(RefreshRow(c, s), c.k[l]) && LayerSized(RefreshRow(c, s), c.v[l]) {
      assert LayerSized(c, c.k[l]) && LayerSized(c, c.v[l]);
    }
  }

  /** More blocks and an unchanged length leave a mirror row as good as it was. */
  lemma MirrorStays(c: Cache, c': Cache, s: nat)
    requires Sized(c) && Sized(c') && c'.cfg == c.cfg && s < c.cfg.maxNumSeqs && MirrorRow(c, s)
    requires c.owned[s] <= c'.owned[s] && |c'.owned[s]| <= c.cfg.numBlocks
    requires c'.lens[s] == c.lens[s] && c'.device == c.device
    ensures MirrorRow(c', s)
  {
    var n :| 0 <= n && MirrorAt(c, s, n);
    assert c'.owned[s][..n] == c.owned[s][..n];
    assert MirrorAt(c', s, n);
  }

  /** After attaching and refreshing, the whole invariant holds again although neither
      the length nor the revision has moved. */
  lemma PreparedInv(c: Cache, c1: Cache, s: nat, ids: seq<int>)
    requires Inv(c) && s < c.cfg.maxNumSeqs && Attached(c, c1, s, ids)
    ensures Sized(c1) && |c1.owned[s]| <= c1.cfg.numBlocks && Inv(RefreshRow(c1, s))
  {
    hide PoolInv, TableRow, PageRow, SetPageRow, RowAgrees;
    AttachedSized(c, c1, s, ids);
    AttachedPool(c, c1, s, ids);
    var c2 := RefreshRow(c1, s);
    RefreshSized(c1, s);
    forall t | 0 <= t < c.cfg.maxNumSeqs ensures RowAgrees(c2, t) {
      RefreshedRows(c, c1, s, ids, t);
    }
    forall t | 0 <= t < c.cfg.maxNumSeqs ensures c2.lens[t] <= |c2.owned[t]| * c.cfg.blockSize {
      MulMono(|c.owned[t]|, |c2.owned[t]|, c.cfg.blockSize);
    }
    if c2.synced == c2.revision {
      forall t | 0 <= t < c.cfg.maxNumSeqs ensures MirrorRow(c2, t) {
        RowLength(c2, t);
        MirrorStays(c, c2, t);
      }
    }
  }

  lemma RowLength(c: Cache, t: nat)
    requires Sized(c) && t < c.cfg.maxNumSeqs && RowAgrees(c, t)
    ensures |c.owned[t]| <= c.cfg.numBlocks
  {
  }

  /** A row that already agrees is rewritten to itself. */
  lemma RefreshIsIdentity(c: Cache, s: nat)
    requires Inv(c) && s < c.cfg.maxNumSeqs
    ensures |c.owned[s]| <= c.cfg.numBlocks && RefreshRow(c, s) == c
  {
    hide PoolInv, Ownership, TableRow, SetRow, RowAt;
    assert RowAgrees(c, s);
    SetSameRow(c.host, c.cfg.numBlocks, c.cfg.maxNumSeqs, s);
  }

  /** The state between a successful Attach and the writing of the tokens. */
  lemma AttachInv(c: Cache, s: nat, len: nat)
    requires Inv(c) && s < c.cfg.maxNumSeqs && Attach(c, s, len).1.Ok?
    ensures var c1 := Attach(c, s, len).0;
            && Sized(c1) && |c1.owned[s]| <= c1.cfg.numBlocks && c1.cfg == c.cfg
            && Inv(RefreshRow(c1, s))
            && len <= |c1.owned[s]| * c.cfg.blockSize
            && c.owned[s] <= c1.owned[s] && c1.owned == c.owned[s := c1.owned[s]]
            && RefreshRow(c1, s) == c.(pool := c1.pool, owned := c1.owned, host := RefreshRow(c1, s).host)
  {
    hide PoolInv, TableRow, SetTableRow, Ownership, RowAgrees;
    var c1, want := Attach(c, s, len).0, BlocksNeeded(len, c.cfg.blockSize) - |c.owned[s]|;
    AttachSucceeds(c, s, len);
    CeilDivIs(len, c.cfg.blockSize);
    if want <= 0 {
      RefreshIsIdentity(c, s);
      MulMono(BlocksNeeded(len, c.cfg.blockSize), |c.owned[s]|, c.cfg.blockSize);
    } else {
      PreparedInv(c, c1, s, TakenBlocks(c.pool, want));
    }
  }

  // ---------------------------------------------------------------------------
  // Slots
  // ---------------------------------------------------------------------------

  /** Slot of position i of sequence s. */
  function SlotOf(owned: seq<seq<int>>, blockSize: nat, s: nat, i: nat): int
    requires blockSize > 0 && s < |owned| && i / blockSize < |owned[s]|
  {
    owned[s][i / blockSize] * blockSize + i % blockSize
  }

  /** A position that fits the sequence's blocks. */
  ghost predicate Backed(c: Cache, s: nat, i: nat)
    requires Sized(c) && s < c.cfg.maxNumSeqs
  {
    i / c.cfg.blockSize < |c.owned[s]|
  }

  lemma BackedBelow(c: Cache, s: nat, i: nat)
    requires Sized(c) && s < c.cfg.maxNumSeqs && i < |c.owned[s]| * c.cfg.blockSize
    ensures Backed(c, s, i)
  {
    DivBelow(i, |c.owned[s]|, c.cfg.blockSize);
  }

  lemma SlotInRange(c: Cache, s: nat, i: nat)
    requires Inv(c) && s < c.cfg.maxNumSeqs && Backed(c, s, i)
    ensures 0 <= SlotOf(c.owned, c.cfg.blockSize, s, i) < SlotCount(c.cfg)
    ensures SlotOf(c.owned, c.cfg.blockSize, s, i) / c.cfg.blockSize == c.owned[s][i / c.cfg.blockSize]
    ensures SlotOf(c.owned, c.cfg.blockSize, s, i) % c.cfg.blockSize == i % c.cfg.blockSize
  {
    var b := c.owned[s][i / c.cfg.blockSize];
    RowFits(b, c.cfg.numBlocks, c.cfg.blockSize);
    DivModIs(SlotOf(c.owned, c.cfg.blockSize, s, i), c.cfg.blockSize, b, i % c.cfg.blockSize);
  }

  /** (sequence, position) -> slot is injective over all backed positions. */
  lemma SlotInjective(c: Cache, s: nat, i: nat, s': nat, i': nat)
    requires Inv(c) && s < c.cfg.maxNumSeqs && s' < c.cfg.maxNumSeqs && Backed(c, s, i) && Backed(c, s', i')
    requires SlotOf(c.owned, c.cfg.blockSize, s, i) == SlotOf(c.owned, c.cfg.blockSize, s', i')
    ensures s == s' && i == i'
  {
    SlotInRange(c, s, i);
    SlotInRange(c, s', i');
    DivModOf(i, c.cfg.blockSize);
    DivModOf(i', c.cfg.blockSize);
  }

  /** The slots of positions start .. start + n of sequence s. */
  ghost predicate SlotsOf(c: Cache, s: nat, start: nat, n: nat, slots: seq<int>)
    requires Sized(c) && s < c.cfg.maxNumSeqs
  {
    && |slots| == n
    && forall t :: 0 <= t < n ==> TokenSlotIs(c, s, start, t, slots[t])
  }

  /** `slot` is the slot of the t-th position from `start`. */
  ghost predicate TokenSlotIs(c: Cache, s: nat, start: nat, t: nat, slot: int)
    requires Sized(c) && s < c.cfg.maxNumSeqs
  {
    Backed(c, s, start + t) && slot == SlotOf(c.owned, c.cfg.blockSize, s, start + t)
  }

  lemma OneSlot(c: Cache, s: nat, start: nat, t: nat)
    requires Inv(c) && s < c.cfg.maxNumSeqs && start + t < |c.owned[s]| * c.cfg.blockSize
    ensures Backed(c, s, start + t)
    ensures TokenSlot(PageRow(c, c.host, s), start, t, c.cfg.blockSize, c.cfg.numBlocks)
         == Success(SlotOf(c.owned, c.cfg.blockSize, s, start + t))
  {
    assert RowAgrees(c, s);
    BackedBelow(c, s, start + t);
    SlotInRange(c, s, start + t);
    OwnedMapped(c, s);
  }

  lemma SlotsValue(c: Cache, s: nat, start: nat, n: nat)
    requires Inv(c) && s < c.cfg.maxNumSeqs && start + n <= |c.owned[s]| * c.cfg.blockSize
    ensures var r := SlotsFrom(PageRow(c, c.host, s), start, n, c.cfg.blockSize, c.cfg.numBlocks);
            r.Success? && SlotsOf(c, s, start, n, r.value)
  {
    hide SlotOf, SlotAt, TokenSlot, PoolInv, Ownership, RowAgrees, MirrorRow, PageRow;
    var row := PageRow(c, c.host, s);
    forall t | 0 <= t < n
      ensures TokenSlot(row, start, t, c.cfg.blockSize, c.cfg.numBlocks).Success?
      ensures TokenSlotIs(c, s, start, t, TokenSlot(row, start, t, c.cfg.blockSize, c.cfg.numBlocks).value)
    {
      OneSlot(c, s, start, t);
    }
    SlotsSucceed(row, start, n, c.cfg.blockSize, c.cfg.numBlocks);
  }

  lemma SlotsDistinct(c: Cache, s: nat, start: nat, n: nat, slots: seq<int>)
    requires Inv(c) && s < c.cfg.maxNumSeqs && SlotsOf(c, s, start, n, slots)
    ensures Distinct(slots) && forall t :: 0 <= t < n ==> 0 <= slots[t] < SlotCount(c.cfg)
  {
    hide SlotOf, PoolInv, Ownership, RowAgrees, MirrorRow;
    forall t | 0 <= t < n ensures 0 <= slots[t] < SlotCount(c.cfg) {
      assert TokenSlotIs(c, s, start, t, slots[t]);
      SlotInRange(c, s, start + t);
    }
    forall t, u | 0 <= t < u < n ensures slots[t] != slots[u] {
      assert TokenSlotIs(c, s, start, t, slots[t]) && TokenSlotIs(c, s, start, u, slots[u]);
      if slots[t] == slots[u] {
        SlotInjective(c, s, start + t, s, start + u);
      }
    }
  }

  /** The slot mapping of positions inside the owned blocks never fails, and yields
      distinct slots of the pool. */
  lemma SlotsDefined(c: Cache, s: nat, start: nat, n: nat)
    requires Inv(c) && s < c.cfg.maxNumSeqs && n > 0 && start + n <= |c.owned[s]| * c.cfg.blockSize
    ensures var r := ComputeSlots(PageRow(c, c.host, s), start, n, c.cfg.blockSize);
            r.Success? && SlotsOf(c, s, start, n, r.value) && Distinct(r.value)
            && forall t :: 0 <= t < n ==> 0 <= r.value[t] < SlotCount(c.cfg)
  {
    hide SlotsFrom, SlotsOf, PageRow, PoolInv, Ownership, RowAgrees, MirrorRow;
    SlotsValue(c, s, start, n);
    SlotsDistinct(c, s, start, n, SlotsFrom(PageRow(c, c.host, s), start, n, c.cfg.blockSize, c.cfg.numBlocks).value);
  }
}
