/** Consequences for callers: when an append is refused, what a failed append leaves
    behind, how far recovery goes, and how stale the device page table can be. */
module CacheFacts {
  import opened Arith
  import opened KvConfig
  import opened KvKernels
  import opened ThreadGrid
  import opened SlotRows
  import opened KvCache
  import opened BlockPool
  import opened CacheModel
  import opened CacheInvariant
  import opened CacheRefinement
  import opened CacheRuns

  // ---------------------------------------------------------------------------
  // Blocks and slots in every reachable state
  // ---------------------------------------------------------------------------

  /** All owned blocks, one sequence after the other. */
  function AllOwned(owned: seq<seq<int>>): seq<int> {
    if owned == [] then [] else AllOwned(owned[..|owned| - 1]) + owned[|owned| - 1]
  }

  function OwnedTotal(owned: seq<seq<int>>): nat {
    if owned == [] then 0 else OwnedTotal(owned[..|owned| - 1]) + |owned[|owned| - 1]|
  }

  lemma {:induction false} AllOwnedIs(owned: seq<seq<int>>)
    requires OwnedOnce(owned)
    ensures Distinct(AllOwned(owned)) && |AllOwned(owned)| == OwnedTotal(owned)
    ensures forall b :: b in AllOwned(owned) <==> HasOwner(owned, b)
  {
    if owned != [] {
      var init, last := owned[..|owned| - 1], owned[|owned| - 1];
      AllOwnedIs(init);
      forall b ensures b in AllOwned(owned) <==> HasOwner(owned, b) {
        if b in last { assert b in owned[|owned| - 1]; }
        if HasOwner(init, b) {
          var s :| 0 <= s < |init| && b in init[s];
          assert b in owned[s];
        }
        if HasOwner(owned, b) && b !in last {
          var s :| 0 <= s < |owned| && b in owned[s];
          assert b in init[s];
        }
      }
      forall t, u | 0 <= t < u < |AllOwned(owned)| ensures AllOwned(owned)[t] != AllOwned(owned)[u] {
        if t < |AllOwned(init)| <= u {
          assert AllOwned(init)[t] in AllOwned(init);
          assert HasOwner(init, AllOwned(init)[t]);
        }
      }
    }
  }

  /** Conservation: free blocks plus owned blocks, counted over all sequences, is the
      pool, and the blocks in use are as many as the sequences own. */
  lemma BlocksConserved(c: Cache)
    requires Inv(c)
    ensures |c.pool.free| + OwnedTotal(c.owned) == c.cfg.numBlocks
    ensures CountUsed(c.pool.inUse) == OwnedTotal(c.owned)
  {
    AllOwnedIs(c.owned);
    PoolConservation(c.pool);
    var xs, flags := AllOwned(c.owned), c.pool.inUse;
    DistinctCardinality(xs);
    UsedCardinality(flags);
    assert (set x | x in xs) == (set b: int | 0 <= b < |flags| && flags[b]);
  }

  lemma {:induction false} UsedCardinality(flags: seq<bool>)
    ensures |set b: int | 0 <= b < |flags| && flags[b]| == CountUsed(flags)
  {
    var s := set b: int | 0 <= b < |flags| && flags[b];
    if flags != [] {
      var n := |flags| - 1;
      UsedCardinality(flags[..n]);
      var s' := set b: int | 0 <= b < |flags[..n]| && flags[..n][b];
      assert s == if flags[n] then s' + {n} else s';
    } else {
      assert s == {};
    }
  }

  /** At most one position of one sequence lies in the slot, layer l stores there exactly
      what the specification says of that position, and zeros when there is none. */
  ghost predicate SlotExplained(c: Cache, a: Tokens, l: nat, slot: nat)
    requires Sized(c) && |a| == c.cfg.maxNumSeqs && l < c.cfg.numLayers && slot < SlotCount(c.cfg)
  {
    && (forall s: nat, i: nat, s': nat, i': nat :: LiveAt(c, slot, s, i) && LiveAt(c, slot, s', i') ==>
         s == s' && i == i')
    && (forall s: nat, i: nat :: LiveAt(c, slot, s, i) ==> s < |a| && i < |a[s]| && Shows(c, a, l, s, i))
    && (Live(c, slot) || Blank(c, l, slot))
  }

  lemma SlotIsExplained(c: Cache, a: Tokens, l: nat, slot: nat)
    requires Refines(c, a) && l < c.cfg.numLayers && slot < SlotCount(c.cfg)
    ensures SlotExplained(c, a, l, slot)
  {
    hide PoolInv, Ownership, RowAgrees, MirrorRow, SlotOf, Shows, Blank;
    forall s: nat, i: nat, s': nat, i': nat | LiveAt(c, slot, s, i) && LiveAt(c, slot, s', i')
      ensures s == s' && i == i'
    {
      SlotInjective(c, s, i, s', i');
    }
  }

  /** No stale data: in every reachable state every slot of every layer, in free blocks
      and in the tails of partly filled blocks too, is explained by the specification. */
  lemma NoStaleData(cfg: KVCacheConfig, ops: seq<Op>, l: nat, slot: nat)
    requires ValidConfig(cfg) && SlotsFitInt32(cfg) && LegalRun(cfg, ops) && l < cfg.numLayers && slot < SlotCount(cfg)
    ensures var (c, a) := Run(cfg, ops); Inv(c) && |a| == cfg.maxNumSeqs && c.cfg == cfg && SlotExplained(c, a, l, slot)
  {
    hide Inv, Run, SlotExplained;
    var (c, a) := Run(cfg, ops);
    SlotIsExplained(c, a, l, slot);
  }

  // ---------------------------------------------------------------------------
  // Schedules of the append kernel
  // ---------------------------------------------------------------------------

  /** The slots of an admitted append are distinct slots of the pool. */
  lemma NewSlotsDistinct(c: Cache, s: nat, n: nat)
    requires Inv(c) && s < c.cfg.maxNumSeqs && n > 0 && Attach(c, s, c.lens[s] + n).1.Ok?
    ensures DistinctSlots(ShapeOf(c.cfg), NewSlots(c, s, n))
  {
    hide PoolInv, Ownership, RowAgrees, MirrorRow, Attach, NewSlots, SlotsOf;
    var p := Prepared(c, s, n);
    SlotsDistinct(p, s, c.lens[s], n, NewSlots(c, s, n));
  }

  /** Whenever the invariant holds, so in every reachable state, an admitted append of n
      tokens writes the K and the V buffer without races: any two interleavings of the
      kernel's threads leave the same bytes.  `src` is the K or the V bytes of the new
      tokens, `buf` the layer's buffer, `stores` the kernel's stores. */
  lemma AppendSchedulesAgree(c: Cache, s: nat, n: nat, src: seq<byte>, buf: seq<byte>, stores: nat -> Store<byte>,
                             order: seq<nat>, order': seq<nat>)
    requires Inv(c) && s < c.cfg.maxNumSeqs && n > 0 && Attach(c, s, c.lens[s] + n).1.Ok?
    requires |src| == n * TokenSize(c.cfg) && Schedule(order, |src|) && Schedule(order', |src|)
    requires stores == AppendStores(ShapeOf(c.cfg), DtypeSize(c.cfg.dtype), src, NewSlots(c, s, n))
    ensures RaceFree(stores, |src|) && Replay(buf, stores, order) == Replay(buf, stores, order')
  {
    assert ValidConfig(c.cfg) && Launchable(ShapeOf(c.cfg), DtypeSize(c.cfg.dtype));
    hide *;
    NewSlotsDistinct(c, s, n);
    AppendIsRaceFree(ShapeOf(c.cfg), DtypeSize(c.cfg.dtype), src, NewSlots(c, s, n));
    ScheduleIndependent(buf, stores, |src|, order, order');
  }

  // ---------------------------------------------------------------------------
  // The device page table
  // ---------------------------------------------------------------------------

  /** While the revisions agree, the device table maps every live position of every
      sequence to the block that really holds it. */
  lemma MirrorSafety(c: Cache, s: nat, i: nat)
    requires Inv(c) && c.synced == c.revision && s < c.cfg.maxNumSeqs && i < c.lens[s]
    ensures Backed(c, s, i)
    ensures var b := i / c.cfg.blockSize;
            && b < c.cfg.numBlocks
            && PageRow(c, c.device, s)[b] == PageRow(c, c.host, s)[b] == c.owned[s][b]
            && 0 <= c.owned[s][b] < c.cfg.numBlocks
  {
    assert RowAgrees(c, s) && MirrorRow(c, s);
    var n :| 0 <= n && MirrorAt(c, s, n);
    DivBelow(i, n, c.cfg.blockSize);
  }

  /** The device table equals the host table whenever the revisions agree. */
  ghost predicate WholeMirror(c: Cache) { c.synced == c.revision ==> c.device == c.host }

  /** An append that attached blocks and failed afterwards. */
  ghost predicate FailsAfterAttach(c: Cache, op: Op)
    requires Inv(c) && LegalOp(c.cfg, op)
  {
    && op.AppendOp?
    && ArgumentCheck(c.cfg, op.s, op.layer, op.kNew, op.vNew).Ok?
    && BlocksNeeded(c.lens[op.s] + NumNew(op.kNew), c.cfg.blockSize) > |c.owned[op.s]|
    && Admitted(c, op.s, op.layer, op.kNew, op.vNew)
    && !WriteAccepted(c, op.layer, op.kNew, op.vNew, op.env)
  }

  lemma TablesDiffer(c: Cache, s: nat, row: seq<int>)
    requires Inv(c) && s < c.cfg.maxNumSeqs && |row| == c.cfg.numBlocks
    ensures |c.owned[s]| <= c.cfg.numBlocks
    ensures SetPageRow(c, s, row).host == c.host <==> row == PaddedRow(c.owned[s], c.cfg.numBlocks)
  {
    hide PoolInv, Ownership, MirrorRow;
    assert RowAgrees(c, s);
    SetRowRows(c.host, c.cfg.numBlocks, c.cfg.maxNumSeqs, s, row, s);
    SetSameRow(c.host, c.cfg.numBlocks, c.cfg.maxNumSeqs, s);
  }

  lemma AttachedHost(c: Cache, c1: Cache, s: nat, ids: seq<int>)
    requires Inv(c) && s < c.cfg.maxNumSeqs && Attached(c, c1, s, ids) && ids != []
    ensures Sized(c1) && |c1.owned[s]| <= c1.cfg.numBlocks && RefreshRow(c1, s).host != c.host
  {
    AttachedSized(c, c1, s, ids);
    TakenBlocksAre(c.pool, |ids|);
    hide PoolInv, Ownership, MirrorRow, RowAgrees, SetPageRow;
    var row := PaddedRow(c.owned[s] + ids, c.cfg.numBlocks);
    TablesDiffer(c, s, row);
    SameHostRow(c, c1, s, row);
    LongerRow(c.owned[s], ids, c.cfg.numBlocks);
  }

  /** The host table after preparing an append changes exactly when blocks were missing. */
  lemma PreparedHost(c: Cache, s: nat, n: nat)
    requires Inv(c) && s < c.cfg.maxNumSeqs && Attach(c, s, c.lens[s] + n).1.Ok?
    ensures Prepared(c, s, n).host == c.host <==> BlocksNeeded(c.lens[s] + n, c.cfg.blockSize) <= |c.owned[s]|
  {
    hide PoolInv, Ownership, MirrorRow, RowAgrees, SetPageRow, Attach, Attached, RefreshRow;
    var want := BlocksNeeded(c.lens[s] + n, c.cfg.blockSize) - |c.owned[s]|;
    AttachSucceeds(c, s, c.lens[s] + n);
    if want <= 0 {
      RefreshIsIdentity(c, s);
    } else {
      AttachedHost(c, Attach(c, s, c.lens[s] + n).0, s, TakenBlocks(c.pool, want));
    }
  }

  lemma SameHostRow(c: Cache, c1: Cache, s: nat, row: seq<int>)
    requires Sized(c) && Sized(c1) && c1.cfg == c.cfg && c1.host == c.host && s < c.cfg.maxNumSeqs
    requires |row| == c.cfg.numBlocks
    ensures SetPageRow(c1, s, row).host == SetPageRow(c, s, row).host
  {
  }

  lemma LongerRow(owned: seq<int>, ids: seq<int>, width: nat)
    requires |owned| + |ids| <= width && ids != [] && (ids[0] >= 0)
    ensures PaddedRow(owned + ids, width) != PaddedRow(owned, width)
  {
    assert PaddedRow(owned + ids, width)[|owned|] == ids[0];
  }

  /** Whole-table agreement survives a step exactly when the step is not an append that
      attached blocks to an in-sync cache and then failed: such an append rewrites the
      host row without moving the revision, so a following SyncPageTable does nothing. */
  lemma WholeMirrorStep(c: Cache, a: Tokens, op: Op)
    requires Refines(c, a) && LegalOp(c.cfg, op) && WholeMirror(c)
    ensures WholeMirror(Step(c, op).0) <==> !(c.synced == c.revision && FailsAfterAttach(c, op))
  {
    hide PoolInv, Ownership, RowAgrees, MirrorRow, Admitted, WriteAccepted, ResetSeq, SetRow, ZeroLayers;
    if op.AppendOp? {
      if ArgumentCheck(c.cfg, op.s, op.layer, op.kNew, op.vNew).Ok? && Admitted(c, op.s, op.layer, op.kNew, op.vNew) {
        AdmittedMirror(c, a, op);
      } else {
        RefusedMirror(c, a, op);
      }
    }
  }

  lemma RefusedMirror(c: Cache, a: Tokens, op: Op)
    requires Refines(c, a) && op.AppendOp? && LegalOp(c.cfg, op)
    requires ArgumentCheck(c.cfg, op.s, op.layer, op.kNew, op.vNew).Err?
          || !Admitted(c, op.s, op.layer, op.kNew, op.vNew)
    ensures var c' := Step(c, op).0;
            c'.host == c.host && c'.device == c.device && c'.revision == c.revision && c'.synced == c.synced
  {
    hide PoolInv, Ownership, RowAgrees, MirrorRow, Attach, WriteTokens;
    if ArgumentCheck(c.cfg, op.s, op.layer, op.kNew, op.vNew).Ok? {
      AttachSucceeds(c, op.s, c.lens[op.s] + NumNew(op.kNew));
    }
  }

  lemma AdmittedMirror(c: Cache, a: Tokens, op: Op)
    requires Refines(c, a) && op.AppendOp? && LegalOp(c.cfg, op) && WholeMirror(c)
    requires ArgumentCheck(c.cfg, op.s, op.layer, op.kNew, op.vNew).Ok?
    requires Admitted(c, op.s, op.layer, op.kNew, op.vNew)
    ensures WholeMirror(Step(c, op).0) <==> !(c.synced == c.revision && FailsAfterAttach(c, op))
  {
    hide PoolInv, Ownership, RowAgrees, MirrorRow, Attach, AppendTokens, WriteAccepted, Prepared;
    AdmittedEffect(c, a, op.s, op.layer, op.kNew, op.vNew, op.env);
    if Step(c, op).1.Err? {
      hide AppendEffect;
      FailedState(c, a, op);
      PreparedHost(c, op.s, NumNew(op.kNew));
    } else {
      CommitBumps(c, a, op);
    }
  }

  /** What a failed admitted append leaves. */
  lemma FailedState(c: Cache, a: Tokens, op: Op)
    requires Refines(c, a) && op.AppendOp? && LegalOp(c.cfg, op)
    requires ArgumentCheck(c.cfg, op.s, op.layer, op.kNew, op.vNew).Ok?
    requires Admitted(c, op.s, op.layer, op.kNew, op.vNew) && Step(c, op).1.Err?
    ensures var (c', p) := (Step(c, op).0, Prepared(c, op.s, NumNew(op.kNew)));
            && c' == p.(slotCapacity := c'.slotCapacity, slotBuffer := c'.slotBuffer)
            && !WriteAccepted(c, op.layer, op.kNew, op.vNew, op.env)
  {
    hide PoolInv, Ownership, RowAgrees, MirrorRow, Attach, AppendTokens, WriteAccepted, Prepared;
    AdmittedEffect(c, a, op.s, op.layer, op.kNew, op.vNew, op.env);
  }

  lemma CommitBumps(c: Cache, a: Tokens, op: Op)
    requires Refines(c, a) && op.AppendOp? && LegalOp(c.cfg, op)
    requires ArgumentCheck(c.cfg, op.s, op.layer, op.kNew, op.vNew).Ok?
    requires Admitted(c, op.s, op.layer, op.kNew, op.vNew) && Step(c, op).1.Ok?
    ensures var c' := Step(c, op).0; c'.revision == c.revision + 1 && c'.synced == c.synced && c.synced <= c.revision
    ensures WriteAccepted(c, op.layer, op.kNew, op.vNew, op.env)
  {
    hide PoolInv, Ownership, RowAgrees, MirrorRow, Attach, AppendTokens, NewSlots, PutRows, Prepared, WriteAccepted;
    AdmittedEffect(c, a, op.s, op.layer, op.kNew, op.vNew, op.env);
    AppendIs(c, op.s, op.layer, op.kNew, op.vNew, op.env);
  }

  /** No step of the run attached blocks and then failed. */
  ghost predicate CleanRun(cfg: KVCacheConfig, ops: seq<Op>)
    requires ValidConfig(cfg) && SlotsFitInt32(cfg) && LegalRun(cfg, ops)
  {
    ops != [] ==>
      && CleanRun(cfg, ops[..|ops| - 1])
      && !FailsAfterAttach(Run(cfg, ops[..|ops| - 1]).0, ops[|ops| - 1])
  }

  /** On clean runs the whole device table is current whenever the revisions agree. */
  lemma {:induction false} CleanRunMirror(cfg: KVCacheConfig, ops: seq<Op>)
    requires ValidConfig(cfg) && SlotsFitInt32(cfg) && LegalRun(cfg, ops) && CleanRun(cfg, ops)
    ensures WholeMirror(Run(cfg, ops).0)
  {
    hide Refines, Step, SpecStep, FailsAfterAttach;
    if ops != [] {
      var (c, a) := Run(cfg, ops[..|ops| - 1]);
      CleanRunMirror(cfg, ops[..|ops| - 1]);
      WholeMirrorStep(c, a, ops[|ops| - 1]);
    }
  }

  // ---------------------------------------------------------------------------
  // When an append succeeds
  // ---------------------------------------------------------------------------

  /** Everything an append needs of its arguments, the pool and the environment. */
  ghost predicate CanAppend(c: Cache, s: int, layer: int, kNew: Tensor, vNew: Tensor, env: Env)
    requires Sized(c)
  {
    && 0 <= s < c.cfg.maxNumSeqs && 0 <= layer < c.cfg.numLayers
    && |kNew.dims| == |vNew.dims| == 3 && kNew.dims[0] == vNew.dims[0] > 0
    && kNew.dims[1] == c.cfg.numKvHeads && kNew.dims[2] == c.cfg.headDim
    && kNew.dtype == vNew.dtype == c.cfg.dtype
    && c.lens[s] + kNew.dims[0] <= (|c.owned[s]| + |c.pool.free|) * c.cfg.blockSize
    && (if kNew.dims[0] > c.slotCapacity then env.bufferOk else c.slotBuffer)
    && env.launchOk
  }

  /** What an append returns: the code of the first thing that is missing. */
  ghost function AppendAnswer(c: Cache, s: int, layer: int, kNew: Tensor, vNew: Tensor, env: Env): Status
    requires Sized(c)
  {
    if !(0 <= s < c.cfg.maxNumSeqs) || !(0 <= layer < c.cfg.numLayers) then Err(ShapeMismatch)
    else if |kNew.dims| != 3 || |vNew.dims| != 3 || kNew.dims[0] != vNew.dims[0] || kNew.dims[0] == 0
      then Err(ShapeMismatch)
    else if c.lens[s] + kNew.dims[0] > (|c.owned[s]| + |c.pool.free|) * c.cfg.blockSize then Err(KVCapacityExceeded)
    else if kNew.dims[0] > c.slotCapacity && !env.bufferOk then Err(KVCapacityExceeded)
    else if kNew.dtype != c.cfg.dtype || vNew.dtype != c.cfg.dtype then Err(UnsupportedDtype)
    else if kNew.dims[1] != c.cfg.numKvHeads || kNew.dims[2] != c.cfg.headDim then Err(ShapeMismatch)
    else if kNew.dims[0] <= c.slotCapacity && !c.slotBuffer then Err(ShapeMismatch)
    else if !env.launchOk then Err(LaunchFailed)
    else Ok
  }

  /** The missing blocks can be attached exactly when the owned and the free blocks together
      hold the new length. */
  lemma RoomExactly(c: Cache, s: nat, len: nat)
    requires Inv(c) && s < c.cfg.maxNumSeqs
    ensures Attach(c, s, len).1 == if len <= (|c.owned[s]| + |c.pool.free|) * c.cfg.blockSize then Ok
                                   else Err(KVCapacityExceeded)
  {
    hide PoolInv, Ownership, RowAgrees, MirrorRow, Attach;
    AttachSucceeds(c, s, len);
    var n, bs := |c.owned[s]| + |c.pool.free|, c.cfg.blockSize;
    if len <= n * bs {
      EnoughBlocks(len, n, bs);
    } else if BlocksNeeded(len, bs) <= n {
      CeilDivIs(len, bs);
      MulMono(BlocksNeeded(len, bs), n, bs);
    }
  }

  /** An append in any state with the invariant succeeds exactly when nothing is missing, and
      otherwise returns the code of the first thing that is; only a success counts, and the
      slot buffer grows to the number of new tokens, but to no less than 1024. */
  lemma AppendSucceedsExactly(c: Cache, s: int, layer: int, kNew: Tensor, vNew: Tensor, env: Env)
    requires Inv(c) && AppendInputs(c.cfg, kNew, vNew)
    ensures AppendTokens(c, s, layer, kNew, vNew, env).1.Ok? <==> CanAppend(c, s, layer, kNew, vNew, env)
    ensures AppendTokens(c, s, layer, kNew, vNew, env).1 == AppendAnswer(c, s, layer, kNew, vNew, env)
    ensures var (c', st) := AppendTokens(c, s, layer, kNew, vNew, env);
            && c'.numAppends == c.numAppends + (if st.Ok? then 1 else 0) && c'.numResets == c.numResets
            && (st.Ok? ==> c'.slotCapacity
                           == if kNew.dims[0] <= c.slotCapacity then c.slotCapacity
                              else if kNew.dims[0] < 1024 then 1024 else kNew.dims[0])
  {
    hide PoolInv, Ownership, RowAgrees, MirrorRow, Attach, WriteTokens;
    if ArgumentCheck(c.cfg, s, layer, kNew, vNew).Ok? {
      RoomExactly(c, s, c.lens[s] + NumNew(kNew));
      if Attach(c, s, c.lens[s] + NumNew(kNew)).1.Ok? {
        AdmittedAnswer(c, s, layer, kNew, vNew, env);
      } else {
        AttachSucceeds(c, s, c.lens[s] + NumNew(kNew));
      }
    }
  }

  lemma AdmittedAnswer(c: Cache, s: nat, layer: nat, kNew: Tensor, vNew: Tensor, env: Env)
    requires Inv(c) && Admitted(c, s, layer, kNew, vNew)
    ensures c.lens[s] + NumNew(kNew) <= (|c.owned[s]| + |c.pool.free|) * c.cfg.blockSize
    ensures AppendTokens(c, s, layer, kNew, vNew, env).1 == AppendAnswer(c, s, layer, kNew, vNew, env)
    ensures var (c', st) := AppendTokens(c, s, layer, kNew, vNew, env);
            && c'.numAppends == c.numAppends + (if st.Ok? then 1 else 0) && c'.numResets == c.numResets
            && (st.Ok? ==> c'.slotCapacity
                           == if kNew.dims[0] <= c.slotCapacity then c.slotCapacity
                              else if kNew.dims[0] < 1024 then 1024 else kNew.dims[0])
  {
    hide PoolInv, Ownership, RowAgrees, MirrorRow, Attach, AppendTokens, NewSlots, PutRows, Rows, Prepared, SlotsOf;
    RoomExactly(c, s, c.lens[s] + NumNew(kNew));
    AppendIs(c, s, layer, kNew, vNew, env);
  }

  // ---------------------------------------------------------------------------
  // Refusal, failure, retry, recovery
  // ---------------------------------------------------------------------------

  /** With valid arguments, the pool refuses exactly when fewer blocks are free than the
      sequence still misses; a refusal only counts itself. */
  lemma RefusedExactly(c: Cache, a: Tokens, op: Op)
    requires Refines(c, a) && op.AppendOp? && LegalOp(c.cfg, op)
    requires ArgumentCheck(c.cfg, op.s, op.layer, op.kNew, op.vNew).Ok?
    ensures !Admitted(c, op.s, op.layer, op.kNew, op.vNew)
       <==> BlocksNeeded(c.lens[op.s] + NumNew(op.kNew), c.cfg.blockSize) - |c.owned[op.s]| > |c.pool.free|
    ensures !Admitted(c, op.s, op.layer, op.kNew, op.vNew) ==>
              Step(c, op)
                == (c.(pool := c.pool.(allocationFailures := c.pool.allocationFailures + 1)), Err(KVCapacityExceeded))
  {
    hide PoolInv, Ownership, RowAgrees, MirrorRow, Attach, WriteTokens;
    AttachSucceeds(c, op.s, c.lens[op.s] + NumNew(op.kNew));
  }

  /** A failed append keeps every length and every token; the blocks it attached stay
      with the sequence, and repeating it asks the pool for nothing. */
  lemma RetryAttachesNothing(c: Cache, a: Tokens, op: Op)
    requires Refines(c, a) && op.AppendOp? && LegalOp(c.cfg, op)
    requires ArgumentCheck(c.cfg, op.s, op.layer, op.kNew, op.vNew).Ok?
    requires Admitted(c, op.s, op.layer, op.kNew, op.vNew) && Step(c, op).1.Err?
    ensures var (c', len) := (Step(c, op).0, c.lens[op.s] + NumNew(op.kNew));
            && Refines(c', a) && c'.lens == c.lens && c'.k == c.k && c'.v == c.v && c.owned[op.s] <= c'.owned[op.s]
            && Attach(c', op.s, len) == (c', Ok)
  {
    hide PoolInv, Ownership, RowAgrees, MirrorRow, AppendTokens, WriteAccepted, Prepared, AppendEffect, SlotOf, Attach;
    FailedState(c, a, op);
    var c' := Step(c, op).0;
    assert Refines(c', a) by {
      AdmittedEffect(c, a, op.s, op.layer, op.kNew, op.vNew, op.env);
      EffectKeepsView(c, a, op, Step(c, op));
    }
    var len := c.lens[op.s] + NumNew(op.kNew);
    AttachSucceeds(c', op.s, len);
    EnoughBlocks(len, |c'.owned[op.s]|, c.cfg.blockSize);
  }

  lemma EffectKeepsView(c: Cache, a: Tokens, op: Op, r: (Cache, Status))
    requires Inv(c) && |a| == c.cfg.maxNumSeqs && op.AppendOp? && 0 <= op.s && 0 <= op.layer
    requires Admitted(c, op.s, op.layer, op.kNew, op.vNew)
    requires AppendEffect(c, a, op.s, op.layer, op.kNew, op.vNew, op.env, r) && r.1.Err?
    ensures Refines(r.0, a)
  {
    hide Inv, Refines, Prepared, Attach, WriteAccepted;
  }

  lemma EnoughBlocks(len: nat, n: nat, blockSize: nat)
    requires blockSize > 0 && len <= n * blockSize
    ensures BlocksNeeded(len, blockSize) <= n
  {
    CeilDivIs(len, blockSize);
    assert (n + 1) * blockSize == n * blockSize + blockSize;
    if BlocksNeeded(len, blockSize) > n {
      MulMono(n + 1, BlocksNeeded(len, blockSize), blockSize);
    }
  }

  /** A successful reset returns every block of the sequence to the pool, including
      blocks attached by appends that failed. */
  lemma ResetReturnsBlocks(c: Cache, a: Tokens, s: nat, okLayers: nat)
    requires Refines(c, a) && s < c.cfg.maxNumSeqs && ResetSequence(c, s, okLayers).1.Ok?
    ensures var c' := ResetSequence(c, s, okLayers).0;
            && c'.owned == c.owned[s := []]
            && c'.pool.free == c.pool.free + c.owned[s]
            && c'.pool.doubleFreeEvents == c.pool.doubleFreeEvents
  {
    hide PoolInv, Ownership, RowAgrees, MirrorRow, ZeroLayers, ResetSeq, SetRow;
    ReleasedPool(c, s);
  }

  // ---------------------------------------------------------------------------
  // The slot buffer
  // ---------------------------------------------------------------------------

  /** The buffer is null although a capacity is still recorded for it. */
  ghost predicate Stuck(c: Cache) { !c.slotBuffer && c.slotCapacity > 0 }

  /** The append grows the slot buffer successfully. */
  ghost predicate Regrows(c: Cache, op: Op)
    requires Inv(c) && LegalOp(c.cfg, op)
  {
    && op.AppendOp?
    && ArgumentCheck(c.cfg, op.s, op.layer, op.kNew, op.vNew).Ok?
    && Admitted(c, op.s, op.layer, op.kNew, op.vNew)
    && NumNew(op.kNew) > c.slotCapacity && op.env.bufferOk
  }

  /** A well-formed append of at most as many tokens as the recorded capacity. */
  ghost predicate FitsCapacity(c: Cache, op: Op) {
    op.AppendOp? && ArgumentCheck(c.cfg, op.s, op.layer, op.kNew, op.vNew).Ok? && NumNew(op.kNew) <= c.slotCapacity
  }

  /** The slot buffer after a step is the one growing leaves, or untouched. */
  lemma BufferAfter(c: Cache, a: Tokens, op: Op)
    requires Refines(c, a) && op.AppendOp? && LegalOp(c.cfg, op)
    requires ArgumentCheck(c.cfg, op.s, op.layer, op.kNew, op.vNew).Ok?
    requires Admitted(c, op.s, op.layer, op.kNew, op.vNew)
    ensures var (c', g) := (Step(c, op).0, GrowSlotBuffer(c, NumNew(op.kNew), op.env.bufferOk).0);
            c'.slotBuffer == g.slotBuffer && c'.slotCapacity == g.slotCapacity
  {
    hide PoolInv, Ownership, RowAgrees, MirrorRow, Attach, AppendTokens, NewSlots, PutRows, Prepared;
    AppendIs(c, op.s, op.layer, op.kNew, op.vNew, op.env);
  }

  /** A failed growth keeps the old capacity next to a null buffer: on a cache that has
      appended before, this leaves the buffer stuck. */
  lemma FailedGrowthSticks(c: Cache, a: Tokens, op: Op)
    requires Refines(c, a) && op.AppendOp? && LegalOp(c.cfg, op)
    requires ArgumentCheck(c.cfg, op.s, op.layer, op.kNew, op.vNew).Ok?
    requires Admitted(c, op.s, op.layer, op.kNew, op.vNew)
    requires NumNew(op.kNew) > c.slotCapacity > 0 && !op.env.bufferOk
    ensures Step(c, op).1.Err? && Stuck(Step(c, op).0) && Step(c, op).0.slotCapacity == c.slotCapacity
  {
    hide PoolInv, Ownership, RowAgrees, MirrorRow, Attach, AppendTokens, Prepared;
    BufferAfter(c, a, op);
    AdmittedEffect(c, a, op.s, op.layer, op.kNew, op.vNew, op.env);
  }

  /** The append reaches the copy of its slots to the device, and the buffer is null. */
  ghost predicate CopiesToNull(c: Cache, op: Op)
    requires Inv(c) && LegalOp(c.cfg, op)
  {
    && op.AppendOp?
    && ArgumentCheck(c.cfg, op.s, op.layer, op.kNew, op.vNew).Ok?
    && Admitted(c, op.s, op.layer, op.kNew, op.vNew)
    && var (c', st) := GrowSlotBuffer(c, NumNew(op.kNew), op.env.bufferOk); st.Ok? && !c'.slotBuffer
  }

  /** The code copies the slots before the storage append can refuse the null buffer.  That
      copy goes to a null pointer exactly for an admitted append that fits the capacity of
      a stuck buffer; the model leaves the copy out and has the append fail. */
  lemma CopiesToNullExactly(c: Cache, op: Op)
    requires Inv(c) && LegalOp(c.cfg, op)
    ensures CopiesToNull(c, op)
       <==> Stuck(c) && FitsCapacity(c, op) && Admitted(c, op.s, op.layer, op.kNew, op.vNew)
  {
    hide Inv, Admitted;
  }

  /** Stuck is left only by an append larger than the recorded capacity whose growth
      succeeds; resets and syncs do not help, and until then every append of at most
      that many tokens fails whatever the environment answers. */
  lemma StuckStep(c: Cache, a: Tokens, op: Op)
    requires Refines(c, a) && LegalOp(c.cfg, op) && Stuck(c)
    ensures Stuck(Step(c, op).0) <==> !Regrows(c, op)
    ensures FitsCapacity(c, op) ==> Step(c, op).1.Err?
  {
    hide PoolInv, Ownership, RowAgrees, MirrorRow, Attach, AppendTokens, Prepared, ResetSeq, SetRow, ZeroLayers,
         Admitted, AppendEffect;
    if op.AppendOp? {
      if ArgumentCheck(c.cfg, op.s, op.layer, op.kNew, op.vNew).Ok? && Admitted(c, op.s, op.layer, op.kNew, op.vNew) {
        BufferAfter(c, a, op);
        if Step(c, op).1.Ok? {
          CommitBumps(c, a, op);
        }
      } else {
        RefusedBuffer(c, a, op);
      }
    }
  }

  lemma RefusedBuffer(c: Cache, a: Tokens, op: Op)
    requires Refines(c, a) && op.AppendOp? && LegalOp(c.cfg, op)
    requires ArgumentCheck(c.cfg, op.s, op.layer, op.kNew, op.vNew).Err?
          || !Admitted(c, op.s, op.layer, op.kNew, op.vNew)
    ensures var (c', st) := Step(c, op); st.Err? && c'.slotBuffer == c.slotBuffer && c'.slotCapacity == c.slotCapacity
  {
    hide PoolInv, Ownership, RowAgrees, MirrorRow, Attach, WriteTokens;
    if ArgumentCheck(c.cfg, op.s, op.layer, op.kNew, op.vNew).Ok? {
      AttachSucceeds(c, op.s, c.lens[op.s] + NumNew(op.kNew));
    }
  }
}
