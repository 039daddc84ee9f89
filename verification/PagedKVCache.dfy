/** The paged KV cache as an object.  Every method is proved to be the corresponding
    operation on the cache value, and the object carries the token lists it refines. */
module PagedKVCache {
  import opened KvKernels
  import opened KvConfig
  import opened SlotRows
  import opened KvCache
  import opened BlockManager
  import opened CacheModel
  import opened CacheInvariant
  import opened CacheRefinement
  import opened CacheRuns
  import opened CacheFacts

  /** What the environment answers while a cache is created. */
  datatype CreateEnv = CreateEnv(budgetOk: bool, layersOk: bool, tableOk: bool, pageTableOk: bool)

  class PagedCache {
    const cfg: KVCacheConfig
    const storage: Storage
    const blocks: Manager
    const pageTableHost: array<int>
    const pageTableDevice: array<int>
    var seqBlocks: seq<seq<int>>
    var seqLengths: seq<nat>
    var revision: nat
    var syncedRevision: nat
    var slotCapacity: nat
    var slotBuffer: bool
    var numAppends: nat
    var numResets: nat
    ghost var tokens: Tokens

    ghost function BlockObjects(): set<object> { {blocks, blocks.inUse, blocks.host, blocks.device} }

    ghost function Repr(): set<object> {
      {this, pageTableHost, pageTableDevice} + BlockObjects() + storage.Buffers()
    }

    /** The parts do not share memory. */
    ghost predicate Separate() {
      && storage.Valid() && storage.cfg == cfg
      && pageTableHost != pageTableDevice
      && {pageTableHost, pageTableDevice} !! BlockObjects()
      && storage.Buffers() !! BlockObjects()
      && storage.Buffers() !! {pageTableHost, pageTableDevice}
      && this !in BlockObjects() + storage.Buffers()
    }

    ghost function State(): Cache
      requires Separate()
      reads this`seqBlocks, this`seqLengths, this`revision, this`syncedRevision, this`slotCapacity, this`slotBuffer,
            this`numAppends, this`numResets, pageTableHost, pageTableDevice, BlockObjects(), storage.Buffers()
    {
      Cache(cfg, blocks.State(), seqBlocks, seqLengths, pageTableHost[..], pageTableDevice[..], revision,
            syncedRevision,
            storage.K(), storage.V(), slotCapacity, slotBuffer, numAppends, numResets)
    }

    ghost predicate Shaped()
      reads this`seqBlocks, this`seqLengths, this`revision, this`syncedRevision, this`slotCapacity, this`slotBuffer,
            this`numAppends, this`numResets, pageTableHost, pageTableDevice, BlockObjects(), storage.Buffers()
    {
      Separate() && blocks.Valid() && Sized(State())
    }

    ghost predicate Valid()
      reads Repr()
    {
      Shaped() && Refines(State(), tokens)
    }

    constructor (cfg: KVCacheConfig)
      requires ValidConfig(cfg)
      ensures Separate() && State() == Fresh(cfg) && tokens == NoTokens(cfg)
      ensures SlotsFitInt32(cfg) ==> Valid()
      ensures fresh(Repr())
    {
      hide Refines, Sized, FreshLayers, Fresh, BlockPool.FreshPool, NoTokens, Manager.State, Manager.Valid,
           Storage.Valid, Storage.K, Storage.V, State;
      this.cfg := cfg;
      storage := new Storage(cfg);
      blocks := new Manager(cfg.numBlocks, cfg.maxNumSeqs, cfg.numBlocks);
      pageTableHost := new int[cfg.maxNumSeqs * cfg.numBlocks](i => -1);
      pageTableDevice := new int[cfg.maxNumSeqs * cfg.numBlocks](i => -1);
      seqBlocks := seq(cfg.maxNumSeqs, s => []);
      seqLengths := seq(cfg.maxNumSeqs, s => 0);
      revision, syncedRevision := 1, 1;
      slotCapacity, slotBuffer := 0, false;
      numAppends, numResets := 0, 0;
      tokens := NoTokens(cfg);
      new;
      FreshObject();
    }

    /** PagedKVCache::Create: sequence count, storage, manager table, page table, in this
        order; a new cache otherwise. */
    static method Create(cfg: KVCacheConfig, env: CreateEnv) returns (r: Result<PagedCache>)
      ensures r.Failure? <==> !ValidConfig(cfg) || !env.budgetOk || !env.layersOk || !env.tableOk || !env.pageTableOk
      ensures r.Failure? ==>
                r.code == if cfg.maxNumSeqs <= 0 then ShapeMismatch
                          else if ValidateConfig(cfg).Err? then ValidateConfig(cfg).code
                          else KVCapacityExceeded
      ensures r.Success? ==>
                && fresh(r.value) && fresh(r.value.Repr()) && r.value.Separate()
                && r.value.State() == Fresh(cfg) && r.value.tokens == NoTokens(cfg)
                && (SlotsFitInt32(cfg) ==> r.value.Valid())
    {
      if cfg.maxNumSeqs <= 0 { return Failure(ShapeMismatch); }
      var check := CreateCheck(cfg, env.budgetOk, env.layersOk);
      if check.Err? { return Failure(check.code); }
      if !env.tableOk { return Failure(KVCapacityExceeded); }
      if !env.pageTableOk { return Failure(KVCapacityExceeded); }
      hide Refines, Fresh, Sized;
      var cache := new PagedCache(cfg);
      r := Success(cache);
    }

    lemma FreshObject()
      requires Separate() && ValidConfig(cfg) && blocks.Valid()
      requires blocks.State() == BlockPool.FreshPool(cfg.numBlocks, cfg.maxNumSeqs, cfg.numBlocks)
      requires storage.K() == storage.V() == FreshLayers(cfg)
      requires seqBlocks == seq(cfg.maxNumSeqs, s => []) && seqLengths == seq(cfg.maxNumSeqs, s => 0)
      requires pageTableHost[..] == pageTableDevice[..] == seq(cfg.maxNumSeqs * cfg.numBlocks, i => -1)
      requires revision == syncedRevision == 1 && slotCapacity == numAppends == numResets == 0 && !slotBuffer
      requires tokens == NoTokens(cfg)
      ensures State() == Fresh(cfg) && (SlotsFitInt32(cfg) ==> Valid())
    {
      if SlotsFitInt32(cfg) {
        FreshRefines(cfg);
        FreshSized(cfg);
      }
      hide Refines, Sized, BlockPool.PoolInv, FreshLayers, Rows, BlockPool.FreshPool;
    }

    static lemma RefinedIsSized(c: Cache, a: Tokens)
      requires Refines(c, a)
      ensures Sized(c)
    {
    }

    // -------------------------------------------------------------------------
    // AppendTokens
    // -------------------------------------------------------------------------

    /** Allocate what is missing and attach it to the sequence. */
    method AttachBlocks(s: nat, len: nat) returns (st: Status)
      requires Shaped() && s < cfg.maxNumSeqs
      modifies this`seqBlocks, blocks, blocks.inUse, blocks.host
      ensures Separate() && blocks.Valid()
      ensures (State(), st) == Attach(old(State()), s, len)
    {
      hide BlockPool.PoolInv, BlockPool.TableRow, BlockPool.SetTableRow, LayerSized;
      ghost var c := State();
      var needed := (len + cfg.blockSize - 1) / cfg.blockSize;
      var toAllocate := needed - |seqBlocks[s]|;
      if toAllocate <= 0 { return Ok; }
      AllocateShaped(c.pool, toAllocate);
      var r := blocks.Allocate(toAllocate);
      if r.Failure? { return Err(KVCapacityExceeded); }
      var newBlocks := r.value;
      st := blocks.AppendToTable(s, newBlocks);
      if st.Err? {
        blocks.Free(newBlocks);
        return;
      }
      seqBlocks := seqBlocks[s := seqBlocks[s] + newBlocks];
    }

    /** Rewrite the host page-table row of the sequence: empty it, then list its blocks. */
    method RefreshHostRow(s: nat)
      requires Shaped() && s < cfg.maxNumSeqs && |seqBlocks[s]| <= cfg.numBlocks
      modifies pageTableHost
      ensures Separate() && blocks.Valid() && State() == RefreshRow(old(State()), s)
    {
      hide BlockPool.PoolInv, LayerSized, SetRow, RowAt;
      var width := cfg.numBlocks;
      var empty := seq(width, i => -1);
      ghost var before := pageTableHost[..];
      WriteEntries(pageTableHost, width, cfg.maxNumSeqs, s, 0, empty);
      WriteEntries(pageTableHost, width, cfg.maxNumSeqs, s, 0, seqBlocks[s]);
      RewriteRow(before, width, cfg.maxNumSeqs, s, empty, seqBlocks[s]);
    }


    /** Grow the device slot buffer when the append is larger than it. */
    method EnsureSlotBuffer(numNew: nat, bufferOk: bool) returns (st: Status)
      requires Shaped()
      modifies this`slotCapacity, this`slotBuffer
      ensures Separate() && blocks.Valid() && (State(), st) == GrowSlotBuffer(old(State()), numNew, bufferOk)
    {
      if slotCapacity < numNew {
        var capacity := if numNew < 1024 then 1024 else numNew;
        slotBuffer := bufferOk;
        if !bufferOk { return Err(KVCapacityExceeded); }
        slotCapacity := capacity;
      }
      st := Ok;
    }

    /** Scatter the tokens to distinct slots and commit the new length. */
    method StoreNewTokens(s: nat, layer: nat, kNew: Tensor, vNew: Tensor, slots: seq<int>, launchOk: bool)
      returns (st: Status)
      requires Shaped() && s < cfg.maxNumSeqs && layer < cfg.numLayers
      requires AppendInputs(cfg, kNew, vNew) && |kNew.dims| == 3
      requires |slots| == NumNew(kNew) && Distinct(slots)
      modifies this`seqLengths, this`revision, this`numAppends, storage.Buffers()
      ensures Separate() && blocks.Valid()
      ensures (State(), st) == StoreTokens(old(State()), s, layer, kNew, vNew, slots, launchOk)
    {
      hide PutRows, Rows, LayerSized, BlockPool.PoolInv, AppendCheck, TokenSize, SlotCount, Storage.K, Storage.V;
      st := ScatterTokens(layer, kNew, vNew, slots, launchOk);
      if st.Err? { return; }
      CommitLength(s, |slots|);
    }

    method CommitLength(s: nat, n: nat)
      requires Separate() && blocks.Valid() && s < |seqLengths|
      modifies this`seqLengths, this`revision, this`numAppends
      ensures Separate() && blocks.Valid()
      ensures State() == old(State()).(lens := old(seqLengths)[s := old(seqLengths[s]) + n],
                                       revision := old(revision) + 1, numAppends := old(numAppends) + 1)
    {
      hide Storage.K, Storage.V, BlockPool.PoolInv;
      seqLengths := seqLengths[s := seqLengths[s] + n];
      revision := revision + 1;
      numAppends := numAppends + 1;
    }

    /** The storage append, on rows. */
    method ScatterTokens(layer: nat, kNew: Tensor, vNew: Tensor, slots: seq<int>, launchOk: bool) returns (st: Status)
      requires Separate() && layer < cfg.numLayers
      requires AppendInputs(cfg, kNew, vNew) && |kNew.dims| == 3
      requires |slots| == NumNew(kNew) && Distinct(slots)
      modifies storage.Buffers()
      ensures st == if AppendCheck(cfg, layer, kNew, vNew, slotBuffer, |slots|).Err?
                    then AppendCheck(cfg, layer, kNew, vNew, slotBuffer, |slots|)
                    else if |slots| == 0 || !launchOk then Err(LaunchFailed) else Ok
      ensures st.Err? ==> storage.K() == old(storage.K()) && storage.V() == old(storage.V())
      ensures st.Ok? ==>
                && |kNew.data| == |slots| * TokenSize(cfg) <= |vNew.data|
                && storage.K()
                   == old(storage.K())[layer := PutRows(old(storage.K())[layer], slots,
                                                        Rows(kNew.data, TokenSize(cfg), |slots|))]
                && storage.V()
                   == old(storage.V())[layer := PutRows(old(storage.V())[layer], slots,
                                                        Rows(ValueBytes(kNew, vNew), TokenSize(cfg), |slots|))]
    {
      hide Rows, Scattered, TokenSize, SlotCount, PutRows, AppendCheck;
      ghost var kBuf, vBuf := storage.kLayers[layer][..], storage.vLayers[layer][..];
      ghost var k0, v0 := storage.K(), storage.V();
      st := storage.Append(layer, kNew, vNew, slots, slotBuffer, |slots|, launchOk);
      if st.Ok? {
        ScatterIsPutRows(kBuf, storage.kLayers[layer][..], kNew.data, slots, TokenSize(cfg), SlotCount(cfg));
        ScatterIsPutRows(vBuf, storage.vLayers[layer][..], ValueBytes(kNew, vNew), slots, TokenSize(cfg),
                         SlotCount(cfg));
        assert storage.K() == k0[layer := storage.KRows(layer)];
        assert storage.V() == v0[layer := storage.VRows(layer)];
      }
    }

    /** Row s of the host page table. */
    method HostRow(s: nat) returns (row: seq<int>)
      requires Shaped() && s < cfg.maxNumSeqs
      ensures row == PageRow(State(), pageTableHost[..], s)
    {
      RowInside(pageTableHost[..], cfg.numBlocks, cfg.maxNumSeqs, s);
      var start := s * cfg.numBlocks;
      row := pageTableHost[start..start + cfg.numBlocks];
    }

    /** Everything after the blocks are attached: row, slots, buffer, tokens. */
    method WriteNewTokens(s: nat, layer: nat, kNew: Tensor, vNew: Tensor, env: Env) returns (st: Status)
      requires Shaped() && s < cfg.maxNumSeqs && layer < cfg.numLayers && |seqBlocks[s]| <= cfg.numBlocks
      requires AppendInputs(cfg, kNew, vNew) && |kNew.dims| == 3 && NumNew(kNew) > 0
      requires Inv(RefreshRow(State(), s)) && seqLengths[s] + NumNew(kNew) <= |seqBlocks[s]| * cfg.blockSize
      modifies this`seqLengths, this`revision, this`slotCapacity, this`slotBuffer, this`numAppends, pageTableHost,
          storage.Buffers()
      ensures Separate() && blocks.Valid() && (State(), st) == WriteTokens(old(State()), s, layer, kNew, vNew, env)
    {
      hide PutRows, Rows, LayerSized, BlockPool.PoolInv, AppendCheck, TokenSize, SlotCount, RefreshRow, PageRow,
           ComputeSlots, StoreTokens, Ownership, RowAgrees, MirrorRow, SlotsOf;
      ghost var c := State();
      RefreshHostRow(s);
      var row := HostRow(s);
      var slots := ComputeSlotMapping(row, seqLengths[s], kNew.dims[0], cfg.blockSize);
      if slots.Failure? { return Err(slots.code); }
      SlotsDefined(State(), s, seqLengths[s], NumNew(kNew));
      ghost var p := State();
      st := EnsureSlotBuffer(kNew.dims[0], env.bufferOk);
      BufferSized(p, State());
      if st.Err? { return; }
      st := StoreNewTokens(s, layer, kNew, vNew, slots.value, env.launchOk);
    }

    /** Appends tokens to one sequence on one layer. */
    method AppendTokens(seqId: int, layer: int, kNew: Tensor, vNew: Tensor, env: Env) returns (st: Status)
      requires Valid() && AppendInputs(cfg, kNew, vNew)
      modifies Repr()
      ensures Valid()
      ensures (State(), st) == CacheRefinement.AppendTokens(old(State()), seqId, layer, kNew, vNew, env)
      ensures Sized(old(State())) && st == AppendAnswer(old(State()), seqId, layer, kNew, vNew, env)
      ensures st.Ok? <==> CanAppend(old(State()), seqId, layer, kNew, vNew, env)
      ensures tokens == SpecStep(cfg, old(tokens), AppendOp(seqId, layer, kNew, vNew, env), st)
    {
      ghost var c, op := State(), AppendOp(seqId, layer, kNew, vNew, env);
      StepRefines(c, tokens, op);
      RefinedIsSized(Step(c, op).0, SpecStep(cfg, tokens, op, Step(c, op).1));
      assert Inv(c);
      AppendSucceedsExactly(c, seqId, layer, kNew, vNew, env);
      hide Refines, Sized, Inv, CacheRefinement.AppendTokens, CanAppend, AppendAnswer;
      st := CheckedAppend(seqId, layer, kNew, vNew, env);
      tokens := SpecStep(cfg, tokens, op, st);
    }

    method CheckedAppend(seqId: int, layer: int, kNew: Tensor, vNew: Tensor, env: Env) returns (st: Status)
      requires Shaped() && Inv(State()) && AppendInputs(cfg, kNew, vNew)
      modifies this`seqBlocks, this`seqLengths, this`revision, this`slotCapacity, this`slotBuffer, this`numAppends,
               pageTableHost, BlockObjects(), storage.Buffers()
      ensures Separate() && blocks.Valid()
      ensures (State(), st) == CacheRefinement.AppendTokens(old(State()), seqId, layer, kNew, vNew, env)
    {
      hide LayerSized, BlockPool.PoolInv, RefreshRow, WriteTokens, Attach, Ownership, RowAgrees, MirrorRow;
      if seqId < 0 || seqId >= cfg.maxNumSeqs { return Err(ShapeMismatch); }
      if layer < 0 || layer >= cfg.numLayers { return Err(ShapeMismatch); }
      if |kNew.dims| != 3 || |vNew.dims| != 3 || kNew.dims[0] != vNew.dims[0] { return Err(ShapeMismatch); }
      if kNew.dims[0] <= 0 { return Err(ShapeMismatch); }
      ghost var c, len := State(), seqLengths[seqId] + kNew.dims[0];
      st := AttachBlocks(seqId, seqLengths[seqId] + kNew.dims[0]);
      if st.Err? { return; }
      AttachInv(c, seqId, len);
      st := WriteNewTokens(seqId, layer, kNew, vNew, env);
    }

    // -------------------------------------------------------------------------
    // ResetSeq and the syncs
    // -------------------------------------------------------------------------

    /** Clear the data, release the blocks, drop the table row. */
    method ResetSeq(seqId: int, okLayers: nat) returns (st: Status)
      requires Valid()
      modifies Repr()
      ensures Valid()
      ensures (State(), st) == ResetSequence(old(State()), seqId, okLayers)
      ensures |old(seqBlocks)| == cfg.maxNumSeqs
      ensures st == if !(0 <= seqId < cfg.maxNumSeqs) then Err(ShapeMismatch)
                    else if old(seqBlocks)[seqId] != [] && okLayers < cfg.numLayers then Err(LaunchFailed)
                    else Ok
      ensures tokens == SpecStep(cfg, old(tokens), ResetOp(seqId, okLayers), st)
    {
      ghost var c, op := State(), ResetOp(seqId, okLayers);
      StepRefines(c, tokens, op);
      RefinedIsSized(Step(c, op).0, SpecStep(cfg, tokens, op, Step(c, op).1));
      hide Refines, Sized, ResetSequence;
      st := CheckedReset(seqId, okLayers);
      tokens := SpecStep(cfg, tokens, op, st);
    }

    method CheckedReset(seqId: int, okLayers: nat) returns (st: Status)
      requires Shaped()
      modifies this`seqBlocks, this`seqLengths, this`revision, this`numResets, pageTableHost, BlockObjects(),
          storage.Buffers()
      ensures Separate() && blocks.Valid() && (State(), st) == ResetSequence(old(State()), seqId, okLayers)
    {
      hide LayerSized, BlockPool.PoolInv, SetRow, RowAt, BlockPool.ResetSeq, ZeroLayers, Storage.K, Storage.V,
           TokenSize, SlotCount;
      if seqId < 0 || seqId >= cfg.maxNumSeqs { return Err(ShapeMismatch); }
      if seqBlocks[seqId] != [] {
        st := ZeroStorage(seqBlocks[seqId], okLayers);
        if st.Err? { return; }
      }
      ReleaseSequence(seqId);
      st := Ok;
    }

    /** Once the data is cleared: release the blocks, drop own list, length and row. */
    method ReleaseSequence(s: nat)
      requires Separate() && blocks.Valid() && s < cfg.maxNumSeqs == |seqBlocks| == |seqLengths|
      requires blocks.maxNumSeqs == cfg.maxNumSeqs && pageTableHost.Length == cfg.maxNumSeqs * cfg.numBlocks
      requires cfg.numBlocks >= 0
      modifies this`seqBlocks, this`seqLengths, this`revision, this`numResets, pageTableHost, BlockObjects()
      ensures Separate() && blocks.Valid()
      ensures (s + 1) * cfg.numBlocks <= |old(State()).host|
      ensures BlockPool.TableShaped(old(State()).pool) && |old(State()).pool.inUse| == old(State()).pool.numBlocks
      ensures var c := old(State());
              State() == c.(pool := BlockPool.ResetSeq(c.pool, s).0, owned := c.owned[s := []], lens := c.lens[s := 0],
                            host := SetRow(c.host, cfg.numBlocks, s, BlockPool.EmptyRow(cfg.numBlocks)),
                            revision := c.revision + 1, numResets := c.numResets + 1)
    {
      hide SetRow, BlockPool.ResetSeq, Storage.K, Storage.V;
      var _ := blocks.ResetSeq(s);
      seqBlocks := seqBlocks[s := []];
      seqLengths := seqLengths[s := 0];
      ClearHostRow(s);
      revision := revision + 1;
      numResets := numResets + 1;
    }

    method ZeroStorage(ids: seq<int>, okLayers: nat) returns (st: Status)
      requires Separate()
      modifies storage.Buffers()
      ensures st == if |ids| > 0 && okLayers < cfg.numLayers then Err(LaunchFailed) else Ok
      ensures storage.K() == ZeroLayers(old(State()), old(storage.K()), ids, okLayers)
      ensures storage.V() == ZeroLayers(old(State()), old(storage.V()), ids, okLayers)
    {
      hide ZeroBlocks, Rows, TokenSize, SlotCount;
      st := storage.Reset(ids, okLayers);
    }

    method ClearHostRow(s: nat)
      requires pageTableHost.Length == cfg.maxNumSeqs * cfg.numBlocks && s < cfg.maxNumSeqs && cfg.numBlocks >= 0
      modifies pageTableHost
      ensures (s + 1) * cfg.numBlocks <= pageTableHost.Length
      ensures pageTableHost[..] == SetRow(old(pageTableHost[..]), cfg.numBlocks, s, BlockPool.EmptyRow(cfg.numBlocks))
    {
      hide SetRow;
      var empty := BlockPool.EmptyRow(cfg.numBlocks);
      ghost var before := pageTableHost[..];
      WriteEntries(pageTableHost, cfg.numBlocks, cfg.maxNumSeqs, s, 0, empty);
      ghost var row := RowAt(before, cfg.numBlocks, s);
      assert row[..0] + empty + row[|empty|..] == empty;
    }

    /** Upload the page table unless the revision has not moved. */
    method SyncPageTable()
      requires Valid()
      modifies this`syncedRevision, pageTableDevice
      ensures Valid() && State() == Sync(old(State()))
      ensures syncedRevision == revision
      ensures pageTableDevice[..] == old(if syncedRevision == revision then pageTableDevice[..] else pageTableHost[..])
    {
      if revision == syncedRevision { return; }
      ForceSyncPageTable();
    }

    method ForceSyncPageTable()
      requires Valid()
      modifies this`syncedRevision, pageTableDevice
      ensures Valid() && State() == ForceSync(old(State()))
      ensures syncedRevision == revision && pageTableDevice[..] == pageTableHost[..] == old(pageTableHost[..])
    {
      ForceSyncRefines(State(), tokens);
      hide Refines, BlockPool.PoolInv, LayerSized;
      CopyTable(pageTableHost, pageTableDevice);
      syncedRevision := revision;
    }
  }
}
