/** The paged KV cache as a value: its state, and each operation as a function on it,
    with the branches and early returns of the implementation. */
module CacheModel {
  import opened Arith
  import opened KvConfig
  import opened SlotRows
  import opened KvCache
  import opened BlockPool

  datatype Cache = Cache(
    cfg: KVCacheConfig,
    pool: Pool,
    owned: seq<seq<int>>, lens: seq<nat>,
    host: seq<int>, device: seq<int>, revision: nat, synced: nat,
    k: seq<seq<Row>>, v: seq<seq<Row>>,
    slotCapacity: nat, slotBuffer: bool,
    numAppends: nat, numResets: nat)

  /** What the environment answers during an append: whether the slot buffer can be
      allocated, and whether the kernel launch is accepted. */
  datatype Env = Env(bufferOk: bool, launchOk: bool)

  /** Everything has the size the configuration says. */
  ghost predicate Sized(c: Cache) {
    && ValidConfig(c.cfg) && SlotsFitInt32(c.cfg)
    && PoolInv(c.pool)
    && c.pool.numBlocks == c.pool.width == c.cfg.numBlocks && c.pool.rows == c.cfg.maxNumSeqs
    && |c.owned| == |c.lens| == c.cfg.maxNumSeqs
    && |c.host| == |c.device| == c.cfg.maxNumSeqs * c.cfg.numBlocks
    && |c.k| == |c.v| == c.cfg.numLayers
    && (forall l :: 0 <= l < |c.k| ==> LayerSized(c, c.k[l]) && LayerSized(c, c.v[l]))
  }

  ghost predicate LayerSized(c: Cache, rows: seq<Row>)
    requires ValidConfig(c.cfg)
  {
    |rows| == SlotCount(c.cfg) && forall s :: 0 <= s < |rows| ==> |rows[s]| == TokenSize(c.cfg)
  }

  function Fresh(cfg: KVCacheConfig): Cache
    requires ValidConfig(cfg)
  {
    var table := seq(cfg.maxNumSeqs * cfg.numBlocks, i => -1);
    Cache(cfg, FreshPool(cfg.numBlocks, cfg.maxNumSeqs, cfg.numBlocks),
          seq(cfg.maxNumSeqs, s => []), seq(cfg.maxNumSeqs, s => 0),
          table, table, 1, 1,
          FreshLayers(cfg), FreshLayers(cfg),
          0, false, 0, 0)
  }

  /** Row s of a page table held flat, one row of numBlocks entries per sequence. */
  function PageRow(c: Cache, table: seq<int>, s: nat): (row: seq<int>)
    requires Sized(c) && |table| == c.cfg.maxNumSeqs * c.cfg.numBlocks && s < c.cfg.maxNumSeqs
    ensures |row| == c.cfg.numBlocks
  {
    RowInside(table, c.cfg.numBlocks, c.cfg.maxNumSeqs, s);
    RowAt(table, c.cfg.numBlocks, s)
  }

  function SetPageRow(c: Cache, s: nat, row: seq<int>): (r: Cache)
    requires Sized(c) && s < c.cfg.maxNumSeqs && |row| == c.cfg.numBlocks
    ensures r == c.(host := r.host) && |r.host| == |c.host|
  {
    RowInside(c.host, c.cfg.numBlocks, c.cfg.maxNumSeqs, s);
    c.(host := SetRow(c.host, c.cfg.numBlocks, s, row))
  }

  // ---------------------------------------------------------------------------
  // AppendTokens
  // ---------------------------------------------------------------------------

  function NumNew(kNew: Tensor): nat
    requires |kNew.dims| == 3
  {
    kNew.dims[0]
  }

  function ArgumentCheck(cfg: KVCacheConfig, s: int, layer: int, kNew: Tensor, vNew: Tensor): Status {
    if s < 0 || s >= cfg.maxNumSeqs then Err(ShapeMismatch)
    else if layer < 0 || layer >= cfg.numLayers then Err(ShapeMismatch)
    else if |kNew.dims| != 3 || |vNew.dims| != 3 || kNew.dims[0] != vNew.dims[0] then Err(ShapeMismatch)
    else if kNew.dims[0] <= 0 then Err(ShapeMismatch)
    else Ok
  }

  /** Blocks a sequence of `len` tokens occupies. */
  function BlocksNeeded(len: nat, blockSize: nat): (n: nat)
    requires blockSize > 0
  {
    CeilDivIs(len, blockSize);
    (len + blockSize - 1) / blockSize
  }

  /** Allocate the missing blocks and attach them: manager table and own list. */
  function Attach(c: Cache, s: nat, len: nat): (r: (Cache, Status))
    requires Sized(c) && s < c.cfg.maxNumSeqs
  {
    var toAllocate := BlocksNeeded(len, c.cfg.blockSize) - |c.owned[s]|;
    if toAllocate <= 0 then (c, Ok)
    else
      var (pool, blocks) := Allocate(c.pool, toAllocate);
      if blocks.Failure? then (c.(pool := pool), Err(KVCapacityExceeded))
      else
        AllocateShaped(c.pool, toAllocate);
        var (pool', st) := AppendToTable(pool, s, blocks.value);
        if st.Err? then (c.(pool := FreeIds(pool', blocks.value)), st)
        else (c.(pool := pool', owned := c.owned[s := c.owned[s] + blocks.value]), Ok)
  }

  lemma AllocateShaped(p: Pool, count: int)
    requires PoolInv(p)
    ensures var r := Allocate(p, count).0;
            TableShaped(r) && |r.inUse| == r.numBlocks
            && r == p.(free := r.free, inUse := r.inUse, allocationFailures := r.allocationFailures)
  {
  }

  /** Rewrite the sequence's host page-table row from its own list. */
  function RefreshRow(c: Cache, s: nat): Cache
    requires Sized(c) && s < c.cfg.maxNumSeqs && |c.owned[s]| <= c.cfg.numBlocks
  {
    SetPageRow(c, s, PaddedRow(c.owned[s], c.cfg.numBlocks))
  }

  /** Grow the slot buffer when it is too small.  A refused allocation leaves a null
      buffer behind and the old capacity in place. */
  function GrowSlotBuffer(c: Cache, numNew: nat, bufferOk: bool): (r: (Cache, Status)) {
    if c.slotCapacity >= numNew then (c, Ok)
    else if !bufferOk then (c.(slotBuffer := false), Err(KVCapacityExceeded))
    else (c.(slotBuffer := true, slotCapacity := if numNew < 1024 then 1024 else numNew), Ok)
  }

  /** Write the tokens to their slots and commit the new length. */
  function StoreTokens(c: Cache, s: nat, layer: nat, kNew: Tensor, vNew: Tensor, slots: seq<int>, launchOk: bool)
    : (r: (Cache, Status))
    requires Sized(c) && s < c.cfg.maxNumSeqs && layer < c.cfg.numLayers
    requires AppendInputs(c.cfg, kNew, vNew) && |kNew.dims| == 3 && |slots| == NumNew(kNew)
  {
    var check := AppendCheck(c.cfg, layer, kNew, vNew, c.slotBuffer, NumNew(kNew));
    if check.Err? then (c, check)
    else if |slots| == 0 || !launchOk then (c, Err(LaunchFailed))
    else
      assert kNew.dims == [NumNew(kNew), c.cfg.numKvHeads, c.cfg.headDim];
      CheckedSize(c.cfg, kNew, NumNew(kNew));
      (c.(k := c.k[layer := PutRows(c.k[layer], slots, Rows(kNew.data, TokenSize(c.cfg), |slots|))],
          v := c.v[layer := PutRows(c.v[layer], slots, Rows(ValueBytes(kNew, vNew), TokenSize(c.cfg), |slots|))],
          lens := c.lens[s := c.lens[s] + |slots|],
          revision := c.revision + 1, numAppends := c.numAppends + 1), Ok)
  }

  /** Everything after the blocks are attached. */
  function WriteTokens(c: Cache, s: nat, layer: nat, kNew: Tensor, vNew: Tensor, env: Env): (r: (Cache, Status))
    requires Sized(c) && s < c.cfg.maxNumSeqs && layer < c.cfg.numLayers && |c.owned[s]| <= c.cfg.numBlocks
    requires AppendInputs(c.cfg, kNew, vNew) && |kNew.dims| == 3
  {
    var c1 := RefreshRow(c, s);
    var slots := ComputeSlots(PageRow(c1, c1.host, s), c.lens[s], NumNew(kNew), c.cfg.blockSize);
    if slots.Failure? then (c1, Err(slots.code))
    else
      var (c2, grown) := GrowSlotBuffer(c1, NumNew(kNew), env.bufferOk);
      if grown.Err? then (c2, grown)
      else StoreTokens(c2, s, layer, kNew, vNew, slots.value, env.launchOk)
  }

  // ---------------------------------------------------------------------------
  // ResetSeq, syncs
  // ---------------------------------------------------------------------------

  /** Layers below okLayers have the listed blocks zeroed. */
  function ZeroLayers(c: Cache, layers: seq<seq<Row>>, ids: seq<int>, okLayers: nat): (r: seq<seq<Row>>)
    requires ValidConfig(c.cfg)
    ensures |r| == |layers|
  {
    seq(|layers|, l requires 0 <= l < |layers| =>
      if l < okLayers then ZeroBlocks(layers[l], ids, c.cfg.blockSize, TokenSize(c.cfg)) else layers[l])
  }

  /** okLayers is how many per-layer launches of the storage reset are accepted. */
  function ResetSequence(c: Cache, s: int, okLayers: nat): (r: (Cache, Status))
    requires Sized(c)
  {
    if s < 0 || s >= c.cfg.maxNumSeqs then (c, Err(ShapeMismatch))
    else
      var c1 := if c.owned[s] == [] then c
                else c.(k := ZeroLayers(c, c.k, c.owned[s], okLayers), v := ZeroLayers(c, c.v, c.owned[s], okLayers));
      if c.owned[s] != [] && okLayers < c.cfg.numLayers then (c1, Err(LaunchFailed))
      else
        RowInside(c.host, c.cfg.numBlocks, c.cfg.maxNumSeqs, s);
        (c1.(pool := ResetSeq(c.pool, s).0, owned := c.owned[s := []], lens := c.lens[s := 0],
             host := SetRow(c.host, c.cfg.numBlocks, s, EmptyRow(c.cfg.numBlocks)),
             revision := c.revision + 1, numResets := c.numResets + 1), Ok)
  }

  function ForceSync(c: Cache): Cache { c.(device := c.host, synced := c.revision) }

  function Sync(c: Cache): Cache { if c.revision == c.synced then c else ForceSync(c) }
}
