/** What does not depend on the bytes a new cache starts with: statuses, tables, lengths
    and every token on the layer it was appended on are the same as from zeroed buffers. */
module InitialStorage {
  import opened Softmax
  import opened OnlineSoftmax
  import opened SplitMerge
  import opened DecodeModel
  import opened KvKernels
  import opened KvConfig
  import opened SlotRows
  import opened KvCache
  import opened BlockPool
  import opened CacheModel
  import opened CacheInvariant
  import opened CacheRefinement
  import opened CacheRuns
  import PA = PagedAttention
  import PF = PagedFacts

  type Layers = seq<seq<Row>>

  /** K or V buffers of the configured size, holding anything. */
  ghost predicate LayersSized(cfg: KVCacheConfig, layers: Layers)
    requires ValidConfig(cfg)
  {
    |layers| == cfg.numLayers && forall l :: 0 <= l < cfg.numLayers ==> LayerSized(Fresh(cfg), layers[l])
  }

  /** c' is c except for what the K and V buffers hold. */
  ghost predicate Swapped(c: Cache, c': Cache) { Sized(c) && Sized(c') && c' == c.(k := c'.k, v := c'.v) }

  ghost predicate SameRow(c: Cache, c': Cache, l: nat, slot: nat)
    requires Swapped(c, c') && l < c.cfg.numLayers && slot < SlotCount(c.cfg)
  {
    c'.k[l][slot] == c.k[l][slot] && c'.v[l][slot] == c.v[l][slot]
  }

  /** Rows that agree before agree afterwards. */
  ghost predicate KeepsSame(c: Cache, c': Cache, r: Cache, r': Cache)
    requires Swapped(c, c') && Swapped(r, r') && r.cfg == c.cfg
  {
    forall l, slot :: 0 <= l < c.cfg.numLayers && 0 <= slot < SlotCount(c.cfg) && SameRow(c, c', l, slot) ==>
      SameRow(r, r', l, slot)
  }

  lemma SwappedInv(c: Cache, c': Cache)
    requires Inv(c) && Swapped(c, c')
    ensures Inv(c')
  {
    hide PoolInv, Ownership, TableRow;
    forall t | 0 <= t < c.cfg.maxNumSeqs ensures RowAgrees(c', t) {
      assert RowAgrees(c, t);
    }
    if c.synced == c.revision {
      forall t | 0 <= t < c.cfg.maxNumSeqs ensures MirrorRow(c', t) {
        RowLength(c, t);
        MirrorStays(c, c', t);
      }
    }
  }

  // ---------------------------------------------------------------------------
  // Syncs and resets
  // ---------------------------------------------------------------------------

  lemma ZeroedSwapped(c: Cache, c': Cache, s: nat, okLayers: nat)
    requires Swapped(c, c') && s < c.cfg.maxNumSeqs
    ensures Swapped(Zeroed(c, s, okLayers), Zeroed(c', s, okLayers))
    ensures KeepsSame(c, c', Zeroed(c, s, okLayers), Zeroed(c', s, okLayers))
  {
    hide PoolInv, Zeroed;
    ZeroedSized(c, s, okLayers);
    ZeroedSized(c', s, okLayers);
    forall l, slot | 0 <= l < c.cfg.numLayers && 0 <= slot < SlotCount(c.cfg) && SameRow(c, c', l, slot)
      ensures SameRow(Zeroed(c, s, okLayers), Zeroed(c', s, okLayers), l, slot)
    {
      ZeroedRow(c, s, okLayers, l, slot);
      ZeroedRow(c', s, okLayers, l, slot);
    }
  }

  lemma ReleasedSwapped(c: Cache, c': Cache, s: nat)
    requires Inv(c) && Swapped(c, c') && s < c.cfg.maxNumSeqs
    ensures Swapped(Released(c, s), Released(c', s)) && KeepsSame(c, c', Released(c, s), Released(c', s))
  {
    SwappedInv(c, c');
    ReleasedInv(c, s);
    ReleasedInv(c', s);
    hide PoolInv, ResetSeq, Inv, SetRow;
  }

  lemma ResetSwapped(c: Cache, c': Cache, s: int, okLayers: nat)
    requires Inv(c) && Swapped(c, c')
    ensures var (r, st, r', st') := (ResetSequence(c, s, okLayers).0, ResetSequence(c, s, okLayers).1,
                                     ResetSequence(c', s, okLayers).0, ResetSequence(c', s, okLayers).1);
            st' == st && Swapped(r, r') && r.cfg == c.cfg && KeepsSame(c, c', r, r')
  {
    SwappedInv(c, c');
    if 0 <= s < c.cfg.maxNumSeqs {
      ResetIs(c, s, okLayers);
      ResetIs(c', s, okLayers);
      ZeroedSwapped(c, c', s, okLayers);
      ZeroedInv(c, s, okLayers);
      hide ResetSequence, Inv, Sized, Zeroed;
      ReleasedSwapped(c, c', s);
      ReleasedSwapped(Zeroed(c, s, okLayers), Zeroed(c', s, okLayers), s);
      ReleasedConfig(c, s);
      ReleasedConfig(Zeroed(c, s, okLayers), s);
    } else {
      OutOfRangeReset(c, s, okLayers);
      OutOfRangeReset(c', s, okLayers);
    }
  }

  // ---------------------------------------------------------------------------
  // Appends
  // ---------------------------------------------------------------------------

  lemma AttachSwapped(c: Cache, c': Cache, s: nat, len: nat)
    requires Swapped(c, c') && s < c.cfg.maxNumSeqs
    ensures Attach(c', s, len).1 == Attach(c, s, len).1
    ensures Attach(c', s, len).0 == Attach(c, s, len).0.(k := c'.k, v := c'.v)
    ensures Attach(c, s, len).0.k == c.k && Attach(c, s, len).0.v == c.v
  {
    hide PoolInv, Allocate, AppendToTable, FreeIds;
  }

  lemma RefreshSwapped(c: Cache, c': Cache, s: nat)
    requires Swapped(c, c') && s < c.cfg.maxNumSeqs && |c.owned[s]| <= c.cfg.numBlocks
    ensures RefreshRow(c', s) == RefreshRow(c, s).(k := c'.k, v := c'.v)
    ensures RefreshRow(c, s).k == c.k && RefreshRow(c, s).v == c.v
  {
    hide PoolInv, SetRow, PaddedRow;
  }

  lemma PageRowSwapped(c: Cache, c': Cache, s: nat)
    requires Swapped(c, c') && s < c.cfg.maxNumSeqs
    ensures PageRow(c', c'.host, s) == PageRow(c, c.host, s)
  {
  }

  ghost predicate CanAttach(c: Cache, s: nat, n: nat) {
    Inv(c) && s < c.cfg.maxNumSeqs && n > 0 && Attach(c, s, c.lens[s] + n).1.Ok?
  }

  /** p is c with the missing blocks attached and the row refreshed, and `slots` the slots
      of the n new tokens there. */
  ghost predicate Prepares(c: Cache, s: nat, n: nat, p: Cache, slots: seq<int>) {
    CanAttach(c, s, n) && p == Prepared(c, s, n) && slots == NewSlots(c, s, n)
  }

  lemma PreparedIs(c: Cache, s: nat, n: nat, p: Cache, slots: seq<int>)
    requires Prepares(c, s, n, p, slots)
    ensures Inv(c) && Inv(p) && s < c.cfg.maxNumSeqs == |c.lens| && p.cfg == c.cfg && p.lens == c.lens
    ensures var c1 := Attach(c, s, c.lens[s] + n).0;
            Sized(c1) && c1.cfg == c.cfg && |c1.owned[s]| <= c.cfg.numBlocks && p == RefreshRow(c1, s)
    ensures ComputeSlots(PageRow(p, p.host, s), c.lens[s], n, c.cfg.blockSize) == Success(slots)
    ensures |slots| == n && SlotsOf(p, s, c.lens[s], n, slots)
  {
    hide Attach, RefreshRow, NewSlots, PageRow, ComputeSlots, PoolInv, SlotsOf;
    AttachInv(c, s, c.lens[s] + n);
  }

  lemma PreparedSwapped(c: Cache, c': Cache, s: nat, n: nat, p: Cache, p': Cache, slots: seq<int>, slots': seq<int>)
    requires Swapped(c, c') && Prepares(c, s, n, p, slots) && Prepares(c', s, n, p', slots')
    ensures Swapped(p, p') && p.k == c.k && p'.k == c'.k && p.v == c.v && p'.v == c'.v && slots' == slots
    ensures p.cfg == c.cfg
  {
    hide *;
    SwappedFields(c, c');
    PreparedIs(c, s, n, p, slots);
    PreparedIs(c', s, n, p', slots');
    var len := c.lens[s] + n;
    AttachSwapped(c, c', s, len);
    FieldsSwapped(Attach(c, s, len).0, Attach(c', s, len).0);
    RefreshSwapped(Attach(c, s, len).0, Attach(c', s, len).0, s);
    InvIsSized(p);
    InvIsSized(p');
    FieldsSwapped(p, p');
    PageRowSwapped(p, p', s);
  }

  lemma SwappedFields(c: Cache, c': Cache)
    requires Swapped(c, c')
    ensures Sized(c) && Sized(c') && c' == c.(k := c'.k, v := c'.v)
  {
  }

  lemma FieldsSwapped(c: Cache, c': Cache)
    requires Sized(c) && Sized(c') && c' == c.(k := c'.k, v := c'.v)
    ensures Swapped(c, c')
  {
  }

  lemma InvIsSized(c: Cache)
    requires Inv(c)
    ensures Sized(c)
  {
  }

  /** The store on both caches. */
  lemma StoreSwapped(c: Cache, c': Cache, s: nat, layer: nat, kNew: Tensor, vNew: Tensor, slots: seq<int>,
                     launchOk: bool)
    requires Swapped(c, c') && s < c.cfg.maxNumSeqs && layer < c.cfg.numLayers
    requires AppendInputs(c.cfg, kNew, vNew) && |kNew.dims| == 3 && |slots| == NumNew(kNew)
    requires Distinct(slots) && forall t :: 0 <= t < |slots| ==> 0 <= slots[t] < SlotCount(c.cfg)
    ensures var r, r' := StoreTokens(c, s, layer, kNew, vNew, slots, launchOk),
        StoreTokens(c', s, layer, kNew, vNew, slots, launchOk);
            && r'.1 == r.1 && r.0.cfg == c.cfg && Swapped(r.0, r'.0) && KeepsSame(c, c', r.0, r'.0)
            && (r.1.Ok? ==> forall t :: 0 <= t < |slots| ==> SameRow(r.0, r'.0, layer, slots[t]))
  {
    var r, r' := StoreTokens(c, s, layer, kNew, vNew, slots, launchOk),
        StoreTokens(c', s, layer, kNew, vNew, slots, launchOk);
    if r.1.Ok? {
      assert kNew.dims == [NumNew(kNew), c.cfg.numKvHeads, c.cfg.headDim];
      CheckedSize(c.cfg, kNew, NumNew(kNew));
      var w := TokenSize(c.cfg);
      var ks, vs := Rows(kNew.data, w, |slots|), Rows(ValueBytes(kNew, vNew), w, |slots|);
      PutSwapped(c, c', r.0, r'.0, layer, slots, ks, vs);
    }
  }

  lemma PutSwapped(c: Cache, c': Cache, r: Cache, r': Cache, layer: nat, slots: seq<int>, ks: seq<Row>, vs: seq<Row>)
    requires Swapped(c, c') && layer < c.cfg.numLayers && |slots| == |ks| == |vs|
    requires Distinct(slots) && forall t :: 0 <= t < |slots| ==> 0 <= slots[t] < SlotCount(c.cfg)
    requires forall t :: 0 <= t < |ks| ==> |ks[t]| == |vs[t]| == TokenSize(c.cfg)
    requires r
             == c.(k := c.k[layer := PutRows(c.k[layer], slots, ks)], v := c.v[layer := PutRows(c.v[layer], slots, vs)],
                     lens := r.lens, revision := r.revision, numAppends := r.numAppends)
    requires r'
             == c'.(k := c'.k[layer := PutRows(c'.k[layer], slots, ks)],
                    v := c'.v[layer := PutRows(c'.v[layer], slots, vs)],
                       lens := r.lens, revision := r.revision, numAppends := r.numAppends)
    requires |r.lens| == |c.lens|
    ensures Swapped(r, r') && KeepsSame(c, c', r, r')
    ensures forall t :: 0 <= t < |slots| ==> SameRow(r, r', layer, slots[t])
  {
    hide PoolInv;
    PutSized(c, r, layer, slots, ks, vs);
    PutSized(c', r', layer, slots, ks, vs);
    forall t | 0 <= t < |slots| ensures SameRow(r, r', layer, slots[t]) {
      PutRowsAt(c.k[layer], slots, ks, t);
      PutRowsAt(c.v[layer], slots, vs, t);
      PutRowsAt(c'.k[layer], slots, ks, t);
      PutRowsAt(c'.v[layer], slots, vs, t);
    }
    forall l, slot | 0 <= l < c.cfg.numLayers && 0 <= slot < SlotCount(c.cfg) && SameRow(c, c', l, slot)
      ensures SameRow(r, r', l, slot)
    {
      if l == layer && slot in slots {
        var t :| 0 <= t < |slots| && slots[t] == slot;
      }
    }
  }

  lemma PutSized(c: Cache, r: Cache, layer: nat, slots: seq<int>, ks: seq<Row>, vs: seq<Row>)
    requires Sized(c) && layer < c.cfg.numLayers && |slots| == |ks| == |vs|
    requires forall t :: 0 <= t < |ks| ==> |ks[t]| == |vs[t]| == TokenSize(c.cfg)
    requires r
             == c.(k := c.k[layer := PutRows(c.k[layer], slots, ks)], v := c.v[layer := PutRows(c.v[layer], slots, vs)],
                     lens := r.lens, revision := r.revision, numAppends := r.numAppends)
    requires |r.lens| == |c.lens|
    ensures Sized(r)
  {
    hide PoolInv, PutRows;
    PutRowsSized(c, c.k[layer], slots, ks);
    PutRowsSized(c, c.v[layer], slots, vs);
    forall l | 0 <= l < |r.k| ensures LayerSized(r, r.k[l]) && LayerSized(r, r.v[l]) {
      assert LayerSized(c, c.k[l]) && LayerSized(c, c.v[l]);
    }
  }

  /** Same status, and rows that agree before, or that were just written, agree. */
  ghost predicate SameOutcome(c: Cache, c': Cache, layer: nat, slots: seq<int>, r: (Cache, Status), r': (Cache, Status))
    requires Swapped(c, c') && layer < c.cfg.numLayers
  {
    && r'.1 == r.1 && r.0.cfg == c.cfg && Swapped(r.0, r'.0) && KeepsSame(c, c', r.0, r'.0)
    && (r.1.Ok? ==> forall t :: 0 <= t < |slots| ==>
         0 <= slots[t] < SlotCount(c.cfg) && SameRow(r.0, r'.0, layer, slots[t]))
  }

  /** An admitted append on both caches. */
  lemma AppendSwapped(c: Cache, c': Cache, s: nat, layer: nat, kNew: Tensor, vNew: Tensor, env: Env, p: Cache,
                      p': Cache, slots: seq<int>, r: (Cache, Status), r': (Cache, Status))
    requires Inv(c) && Inv(c') && Swapped(c, c') && layer < c.cfg.numLayers
    requires Admitted(c, s, layer, kNew, vNew) && Admitted(c', s, layer, kNew, vNew)
    requires Prepares(c, s, NumNew(kNew), p, slots) && Prepares(c', s, NumNew(kNew), p', slots)
    requires r == AppendTokens(c, s, layer, kNew, vNew, env) && r' == AppendTokens(c', s, layer, kNew, vNew, env)
    ensures SameOutcome(c, c', layer, slots, r, r')
  {
    hide Inv, Sized, Prepares, SlotsOf, AppendTokens, StoreTokens, KeepsSame, SameRow, Admitted, ComputeSlots,
         PageRow, Attach, RefreshRow, Swapped, PoolInv, Ownership, AppendInputs;
    AdmittedCanAttach(c, s, layer, kNew, vNew);
    var n := NumNew(kNew);
    SwappedFields(c, c');
    PreparedIs(c, s, n, p, slots);
    AppendFrom(c, s, layer, kNew, vNew, env, p, slots, r);
    AppendFrom(c', s, layer, kNew, vNew, env, p', slots, r');
    PreparedSwapped(c, c', s, n, p, p', slots, slots);
    SwappedFields(p, p');
    SlotsDistinct(p, s, c.lens[s], n, slots);
    var (g, st) := GrowSlotBuffer(p, n, env.bufferOk);
    var g' := GrowSlotBuffer(p', n, env.bufferOk).0;
    BufferSized(p, g);
    BufferSized(p', g');
    FieldsSwapped(g, g');
    BufferKeepsSame(c, c', g, g');
    if st.Ok? {
      StoreSwapped(g, g', s, layer, kNew, vNew, slots, env.launchOk);
      SameThrough(c, c', g, g', r.0, r'.0);
    }
  }

  lemma AppendFrom(c: Cache, s: nat, layer: nat, kNew: Tensor, vNew: Tensor, env: Env, p: Cache, slots: seq<int>,
                   r: (Cache, Status))
    requires Inv(c) && layer < c.cfg.numLayers && Admitted(c, s, layer, kNew, vNew)
    requires Prepares(c, s, NumNew(kNew), p, slots) && r == AppendTokens(c, s, layer, kNew, vNew, env)
    ensures AppendInputs(p.cfg, kNew, vNew) && |slots| == NumNew(kNew)
    ensures WrittenFrom(p, s, layer, kNew, vNew, slots, env, r)
  {
    hide Prepared, NewSlots, WrittenFrom, AppendTokens, Attach, PoolInv;
    AppendIs(c, s, layer, kNew, vNew, env);
  }

  lemma AdmittedCanAttach(c: Cache, s: nat, layer: nat, kNew: Tensor, vNew: Tensor)
    requires Inv(c) && Admitted(c, s, layer, kNew, vNew)
    ensures |kNew.dims| == 3 && CanAttach(c, s, NumNew(kNew)) && AppendInputs(c.cfg, kNew, vNew)
  {
  }

  lemma AdmittedSwapped(c: Cache, c': Cache, s: nat, layer: nat, kNew: Tensor, vNew: Tensor)
    requires Inv(c) && Inv(c') && Swapped(c, c')
    ensures Admitted(c', s, layer, kNew, vNew) == Admitted(c, s, layer, kNew, vNew)
  {
    hide PoolInv, Ownership, RowAgrees, MirrorRow, Attach;
    if ArgumentCheck(c.cfg, s, layer, kNew, vNew).Ok? {
      AttachSwapped(c, c', s, c.lens[s] + NumNew(kNew));
    }
  }

  lemma BufferKeepsSame(c: Cache, c': Cache, g: Cache, g': Cache)
    requires Swapped(c, c') && Swapped(g, g') && g.cfg == c.cfg && g.k == c.k && g.v == c.v && g'.k == c'.k
    requires g'.v == c'.v
    ensures KeepsSame(c, c', g, g')
  {
  }

  lemma SameThrough(c: Cache, c': Cache, g: Cache, g': Cache, r: Cache, r': Cache)
    requires Swapped(c, c') && Swapped(g, g') && Swapped(r, r') && r.cfg == g.cfg == c.cfg
    requires KeepsSame(c, c', g, g') && KeepsSame(g, g', r, r')
    ensures KeepsSame(c, c', r, r')
  {
  }

  // ---------------------------------------------------------------------------
  // Steps and runs
  // ---------------------------------------------------------------------------

  /** Both caches hold position i of sequence s on the layer it was appended on. */
  ghost predicate OwnSame(c: Cache, c': Cache, a: Tokens, s: nat, i: nat)
    requires Swapped(c, c') && s < |a| == c.cfg.maxNumSeqs && i < |a[s]|
  {
    && Backed(c, s, i) && a[s][i].layer < c.cfg.numLayers
    && 0 <= SlotOf(c.owned, c.cfg.blockSize, s, i) < SlotCount(c.cfg)
    && SameRow(c, c', a[s][i].layer, SlotOf(c.owned, c.cfg.blockSize, s, i))
  }

  ghost predicate AllOwnSame(c: Cache, c': Cache, a: Tokens) {
    && Swapped(c, c') && |a| == c.cfg.maxNumSeqs
    && forall s, i :: 0 <= s < |a| && 0 <= i < |a[s]| ==> OwnSame(c, c', a, s, i)
  }

  /** A position whose blocks stay where they are. */
  lemma OwnStays(c: Cache, c': Cache, r: Cache, r': Cache, a: Tokens, b: Tokens, s: nat, i: nat)
    requires Swapped(c, c') && Swapped(r, r') && r.cfg == c.cfg && KeepsSame(c, c', r, r')
    requires s < |a| == |b| == c.cfg.maxNumSeqs && i < |a[s]| && i < |b[s]| && b[s][i].layer == a[s][i].layer
    requires c.owned[s] <= r.owned[s] && OwnSame(c, c', a, s, i)
    ensures OwnSame(r, r', b, s, i)
  {
    hide PoolInv, LayerSized;
    assert c.owned[s][i / c.cfg.blockSize] == r.owned[s][i / c.cfg.blockSize];
  }

  lemma SyncSame(c: Cache, c': Cache, a: Tokens)
    requires Inv(c) && AllOwnSame(c, c', a)
    ensures AllOwnSame(ForceSync(c), ForceSync(c'), a) && AllOwnSame(Sync(c), Sync(c'), a)
  {
    hide PoolInv;
    SyncSized(c);
    SyncSized(c');
    var r, r' := ForceSync(c), ForceSync(c');
    forall s, i | 0 <= s < |a| && 0 <= i < |a[s]| ensures OwnSame(r, r', a, s, i) {
      assert OwnSame(c, c', a, s, i);
    }
  }

  lemma SyncSized(c: Cache)
    requires Sized(c)
    ensures Sized(ForceSync(c))
  {
    forall l | 0 <= l < |c.k| ensures LayerSized(ForceSync(c), c.k[l]) && LayerSized(ForceSync(c), c.v[l]) {
      assert LayerSized(c, c.k[l]) && LayerSized(c, c.v[l]);
    }
  }

  lemma ResetSame(c: Cache, c': Cache, a: Tokens, op: Op)
    requires Refines(c, a) && AllOwnSame(c, c', a) && op.ResetOp?
    ensures Inv(c')
    ensures Step(c', op).1 == Step(c, op).1
    ensures AllOwnSame(Step(c, op).0, Step(c', op).0, SpecStep(c.cfg, a, op, Step(c, op).1))
  {
    SwappedInv(c, c');
    ResetSwapped(c, c', op.s, op.okLayers);
    ResetOwned(c, op.s, op.okLayers);
    hide PoolInv, Inv, Sized, ResetSequence, SameRow, KeepsSame, SlotOf;
    var r, b := Step(c, op).0, SpecStep(c.cfg, a, op, Step(c, op).1);
    forall s, i | 0 <= s < |b| && 0 <= i < |b[s]| ensures OwnSame(r, Step(c', op).0, b, s, i) {
      assert OwnSame(c, c', a, s, i);
      OwnStays(c, c', r, Step(c', op).0, a, b, s, i);
    }
  }

  lemma ResetOwned(c: Cache, s: int, okLayers: nat)
    requires Inv(c)
    ensures var (r, st) := ResetSequence(c, s, okLayers);
            r.owned == if st.Ok? && 0 <= s < c.cfg.maxNumSeqs then c.owned[s := []] else c.owned
  {
  }

  /** The state after an append that the arguments or the pool refuse. */
  function Refused(c: Cache, check: Status): Cache {
    if check.Err? then c else c.(pool := c.pool.(allocationFailures := c.pool.allocationFailures + 1))
  }

  lemma RefusedIs(c: Cache, op: Op)
    requires Inv(c) && op.AppendOp? && LegalOp(c.cfg, op)
    requires ArgumentCheck(c.cfg, op.s, op.layer, op.kNew, op.vNew).Err?
             || !Admitted(c, op.s, op.layer, op.kNew, op.vNew)
    ensures var check := ArgumentCheck(c.cfg, op.s, op.layer, op.kNew, op.vNew);
            Step(c, op) == (Refused(c, check), if check.Err? then check else Err(KVCapacityExceeded))
  {
    hide PoolInv, Ownership, RowAgrees, MirrorRow, Attach, WriteTokens;
    if ArgumentCheck(c.cfg, op.s, op.layer, op.kNew, op.vNew).Ok? {
      AttachSucceeds(c, op.s, c.lens[op.s] + NumNew(op.kNew));
    }
  }

  lemma RefusedKeepsSame(c: Cache, c': Cache, a: Tokens, check: Status)
    requires AllOwnSame(c, c', a)
    ensures AllOwnSame(Refused(c, check), Refused(c', check), a)
  {
    hide PoolInv, SlotOf, SameRow;
    var r, r' := Refused(c, check), Refused(c', check);
    if check.Ok? {
      FailedAttachSized(c, r);
      FailedAttachSized(c', r');
    }
    hide Sized;
    forall s, i | 0 <= s < |a| && 0 <= i < |a[s]| ensures OwnSame(r, r', a, s, i) {
      assert OwnSame(c, c', a, s, i);
      SameRows(c, c', r, r', a[s][i].layer, SlotOf(c.owned, c.cfg.blockSize, s, i));
    }
  }

  lemma SameRows(c: Cache, c': Cache, r: Cache, r': Cache, l: nat, slot: int)
    requires Swapped(c, c') && Swapped(r, r') && r.cfg == c.cfg && r.k == c.k && r.v == c.v && r'.k == c'.k
    requires r'.v == c'.v
    requires l < c.cfg.numLayers && 0 <= slot < SlotCount(c.cfg) && SameRow(c, c', l, slot)
    ensures SameRow(r, r', l, slot)
  {
  }

  lemma RefusedSame(c: Cache, c': Cache, a: Tokens, op: Op)
    requires Refines(c, a) && Inv(c') && AllOwnSame(c, c', a) && op.AppendOp? && LegalOp(c.cfg, op)
    requires ArgumentCheck(c.cfg, op.s, op.layer, op.kNew, op.vNew).Err?
             || !Admitted(c, op.s, op.layer, op.kNew, op.vNew)
    ensures Step(c', op).1 == Step(c, op).1
    ensures AllOwnSame(Step(c, op).0, Step(c', op).0, SpecStep(c.cfg, a, op, Step(c, op).1))
  {
    hide Refines, Inv, Sized, Step, Admitted, OwnSame, Refused;
    RefinedIsInv(c, a);
    SwappedFields(c, c');
    if ArgumentCheck(c.cfg, op.s, op.layer, op.kNew, op.vNew).Ok? {
      AdmittedSwapped(c, c', op.s, op.layer, op.kNew, op.vNew);
    }
    RefusedIs(c, op);
    RefusedIs(c', op);
    RefusedKeepsSame(c, c', a, ArgumentCheck(c.cfg, op.s, op.layer, op.kNew, op.vNew));
  }

  lemma RefinedIsInv(c: Cache, a: Tokens)
    requires Refines(c, a)
    ensures Inv(c) && ValidConfig(c.cfg)
  {
  }

  lemma FailedAttachSized(c: Cache, r: Cache)
    requires Sized(c) && r == c.(pool := c.pool.(allocationFailures := c.pool.allocationFailures + 1))
    ensures Sized(r)
  {
    forall l | 0 <= l < |c.k| ensures LayerSized(r, c.k[l]) && LayerSized(r, c.v[l]) {
      assert LayerSized(c, c.k[l]) && LayerSized(c, c.v[l]);
    }
  }

  lemma AppendOwned(p: Cache, s: nat, layer: nat, kNew: Tensor, vNew: Tensor, slots: seq<int>, env: Env,
                    r: (Cache, Status))
    requires s < p.cfg.maxNumSeqs && layer < p.cfg.numLayers
    requires AppendInputs(p.cfg, kNew, vNew) && |kNew.dims| == 3 && |slots| == NumNew(kNew)
    requires WrittenFrom(p, s, layer, kNew, vNew, slots, env, r)
    ensures r.0.owned == p.owned
  {
    hide PoolInv, PutRows, Rows;
  }

  lemma PreparedOwned(c: Cache, s: nat, n: nat, p: Cache, slots: seq<int>, t: nat)
    requires Prepares(c, s, n, p, slots) && t < c.cfg.maxNumSeqs
    ensures |c.owned| == |p.owned| == c.cfg.maxNumSeqs && c.owned[t] <= p.owned[t]
  {
    hide PoolInv, Attach, NewSlots, Prepared;
  }

  /** The k-th token just appended. */
  lemma OwnWritten(p: Cache, r: Cache, r': Cache, b: Tokens, s: nat, layer: nat, start: nat, n: nat, slots: seq<int>,
                   k: nat)
    requires Sized(p) && Swapped(r, r') && r.cfg == p.cfg && r.owned == p.owned && s < |b| == p.cfg.maxNumSeqs
    requires SlotsOf(p, s, start, n, slots) && k < n && start + k < |b[s]|
    requires b[s][start + k].layer == layer < p.cfg.numLayers
    requires 0 <= slots[k] < SlotCount(p.cfg) && SameRow(r, r', layer, slots[k])
    ensures OwnSame(r, r', b, s, start + k)
  {
    hide PoolInv, LayerSized;
    assert TokenSlotIs(p, s, start, k, slots[k]);
  }

  lemma NewLayer(cfg: KVCacheConfig, a: Tokens, op: Op, st: Status, s: nat, i: nat)
    requires ValidConfig(cfg) && op.AppendOp? && 0 <= op.s < |a| && s < |a|
    requires i < |SpecStep(cfg, a, op, st)[s]|
    ensures |SpecStep(cfg, a, op, st)| == |a|
    ensures i < |a[s]| ==> SpecStep(cfg, a, op, st)[s][i] == a[s][i]
    ensures i >= |a[s]| ==> st.Ok? && s == op.s && |op.kNew.dims| == 3 && i < |a[s]| + NumNew(op.kNew)
                            && SpecStep(cfg, a, op, st)[s][i].layer == op.layer
  {
    hide Rows;
  }

  lemma AdmittedSame(c: Cache, c': Cache, a: Tokens, op: Op, p: Cache, p': Cache, slots: seq<int>)
    requires Refines(c, a) && Inv(c') && AllOwnSame(c, c', a) && op.AppendOp? && LegalOp(c.cfg, op)
    requires 0 <= op.s < c.cfg.maxNumSeqs && 0 <= op.layer < c.cfg.numLayers
    requires Admitted(c, op.s, op.layer, op.kNew, op.vNew) && Admitted(c', op.s, op.layer, op.kNew, op.vNew)
    requires Prepares(c, op.s, NumNew(op.kNew), p, slots) && Prepares(c', op.s, NumNew(op.kNew), p', slots)
    ensures Step(c', op).1 == Step(c, op).1
    ensures AllOwnSame(Step(c, op).0, Step(c', op).0, SpecStep(c.cfg, a, op, Step(c, op).1))
  {
    hide Refines, Inv, Sized, Step, SpecStep, Admitted, OwnSame, Swapped, KeepsSame, SameRow, Prepares, SlotsOf,
         AppendTokens, PoolInv, AppendInputs, WrittenFrom;
    RefinedIsInv(c, a);
    LengthsMatch(c, a, op.s);
    SwappedFields(c, c');
    AdmittedCanAttach(c, op.s, op.layer, op.kNew, op.vNew);
    var r, r', b := Step(c, op), Step(c', op), SpecStep(c.cfg, a, op, Step(c, op).1);
    StepIsAppend(c, op);
    StepIsAppend(c', op);
    AppendSwapped(c, c', op.s, op.layer, op.kNew, op.vNew, op.env, p, p', slots, r, r');
    PreparedIs(c, op.s, NumNew(op.kNew), p, slots);
    AppendFrom(c, op.s, op.layer, op.kNew, op.vNew, op.env, p, slots, r);
    AppendOwned(p, op.s, op.layer, op.kNew, op.vNew, slots, op.env, r);
    InvIsSized(p);
    forall s, i | 0 <= s < |b| && 0 <= i < |b[s]| ensures OwnSame(r.0, r'.0, b, s, i) {
      NewLayer(c.cfg, a, op, r.1, s, i);
      PreparedOwned(c, op.s, NumNew(op.kNew), p, slots, s);
      if i < |a[s]| {
        assert OwnSame(c, c', a, s, i);
        OwnStays(c, c', r.0, r'.0, a, b, s, i);
      } else {
        OwnWritten(p, r.0, r'.0, b, s, op.layer, c.lens[s], NumNew(op.kNew), slots, i - c.lens[s]);
      }
    }
  }

  lemma LengthsMatch(c: Cache, a: Tokens, s: nat)
    requires Refines(c, a) && s < |a|
    ensures |a| == |c.lens| == c.cfg.maxNumSeqs && |a[s]| == c.lens[s]
  {
  }

  lemma StepIsAppend(c: Cache, op: Op)
    requires Inv(c) && LegalOp(c.cfg, op) && op.AppendOp?
    ensures Step(c, op) == AppendTokens(c, op.s, op.layer, op.kNew, op.vNew, op.env)
  {
  }

  lemma AppendSame(c: Cache, c': Cache, a: Tokens, op: Op)
    requires Refines(c, a) && Inv(c') && AllOwnSame(c, c', a) && LegalOp(c.cfg, op) && op.AppendOp?
    ensures Step(c', op).1 == Step(c, op).1
    ensures AllOwnSame(Step(c, op).0, Step(c', op).0, SpecStep(c.cfg, a, op, Step(c, op).1))
  {
    hide *;
    RefinedIsInv(c, a);
    SameConfig(c, c', a);
    if ArgumentCheck(c.cfg, op.s, op.layer, op.kNew, op.vNew).Ok? {
      AdmittedArguments(c, op);
    }
    if ArgumentCheck(c.cfg, op.s, op.layer, op.kNew, op.vNew).Ok? && Admitted(c, op.s, op.layer, op.kNew, op.vNew) {
      var n := NumNew(op.kNew);
      AdmittedSwapped(c, c', op.s, op.layer, op.kNew, op.vNew);
      AdmittedPrepares(c, op.s, op.layer, op.kNew, op.vNew);
      AdmittedPrepares(c', op.s, op.layer, op.kNew, op.vNew);
      var p, p', slots, slots' := Prepared(c, op.s, n), Prepared(c', op.s, n), NewSlots(c, op.s, n),
          NewSlots(c', op.s, n);
      PreparedSwapped(c, c', op.s, n, p, p', slots, slots');
      AdmittedSame(c, c', a, op, p, p', slots);
    } else {
      RefusedSame(c, c', a, op);
    }
  }

  /** Every operation has the same status on both caches, and keeps them alike. */
  lemma StepSame(c: Cache, c': Cache, a: Tokens, op: Op)
    requires Refines(c, a) && Inv(c') && AllOwnSame(c, c', a) && LegalOp(c.cfg, op)
    ensures Step(c', op).1 == Step(c, op).1
    ensures AllOwnSame(Step(c, op).0, Step(c', op).0, SpecStep(c.cfg, a, op, Step(c, op).1)) && Inv(Step(c', op).0)
  {
    hide Refines, Inv, Sized, Admitted, OwnSame, Swapped, AppendTokens, ResetSequence, SpecStep, AllOwnSame;
    RefinedIsInv(c, a);
    SameConfig(c, c', a);
    match op {
      case SyncOp => SyncSame(c, c', a); SpecSyncs(c.cfg, a, op);
      case ForceSyncOp => SyncSame(c, c', a); SpecSyncs(c.cfg, a, op);
      case ResetOp(_, _) => ResetSame(c, c', a, op);
      case AppendOp(_, _, _, _, _) => AppendSame(c, c', a, op);
    }
    StepRefines(c, a, op);
    RefinedIsInv(Step(c, op).0, SpecStep(c.cfg, a, op, Step(c, op).1));
    SameConfig(Step(c, op).0, Step(c', op).0, SpecStep(c.cfg, a, op, Step(c, op).1));
    SwappedInv(Step(c, op).0, Step(c', op).0);
  }

  lemma AdmittedArguments(c: Cache, op: Op)
    requires Inv(c) && op.AppendOp? && ArgumentCheck(c.cfg, op.s, op.layer, op.kNew, op.vNew).Ok?
    ensures 0 <= op.s < c.cfg.maxNumSeqs && 0 <= op.layer < c.cfg.numLayers && |op.kNew.dims| == 3
    ensures NumNew(op.kNew) > 0
  {
  }

  lemma SpecSyncs(cfg: KVCacheConfig, a: Tokens, op: Op)
    requires ValidConfig(cfg) && (op.SyncOp? || op.ForceSyncOp?)
    ensures SpecStep(cfg, a, op, Ok) == a
  {
  }

  lemma AdmittedPrepares(c: Cache, s: nat, layer: nat, kNew: Tensor, vNew: Tensor)
    requires Inv(c) && Admitted(c, s, layer, kNew, vNew)
    ensures |kNew.dims| == 3 && CanAttach(c, s, NumNew(kNew))
    ensures Prepares(c, s, NumNew(kNew), Prepared(c, s, NumNew(kNew)), NewSlots(c, s, NumNew(kNew)))
  {
  }

  /** A new cache whose buffers hold anything. */
  function FreshWith(cfg: KVCacheConfig, ks: Layers, vs: Layers): Cache
    requires ValidConfig(cfg)
  {
    Fresh(cfg).(k := ks, v := vs)
  }

  lemma FreshSame(cfg: KVCacheConfig, ks: Layers, vs: Layers)
    requires ValidConfig(cfg) && SlotsFitInt32(cfg) && LayersSized(cfg, ks) && LayersSized(cfg, vs)
    ensures AllOwnSame(Fresh(cfg), FreshWith(cfg, ks, vs), NoTokens(cfg)) && Inv(FreshWith(cfg, ks, vs))
  {
    var c, c' := Fresh(cfg), FreshWith(cfg, ks, vs);
    FreshRefines(cfg);
    hide PoolInv, FreshLayers;
    forall l | 0 <= l < cfg.numLayers ensures LayerSized(c', c'.k[l]) && LayerSized(c', c'.v[l]) {
      assert LayerSized(c, ks[l]) && LayerSized(c, vs[l]);
    }
    assert Sized(c');
    SwappedInv(c, c');
  }

  /** The run of the same operations from a cache with arbitrary bytes: every token is on
      its own layer what it is from zeros. */
  ghost function RunWith(cfg: KVCacheConfig, ks: Layers, vs: Layers, ops: seq<Op>): (c': Cache)
    requires ValidConfig(cfg) && SlotsFitInt32(cfg) && LegalRun(cfg, ops) && LayersSized(cfg, ks)
    requires LayersSized(cfg, vs)
    ensures AllOwnSame(Run(cfg, ops).0, c', Run(cfg, ops).1) && Inv(c')
  {
    if ops == [] then
      FreshSame(cfg, ks, vs);
      FreshWith(cfg, ks, vs)
    else
      var (c, a) := Run(cfg, ops[..|ops| - 1]);
      var c' := RunWith(cfg, ks, vs, ops[..|ops| - 1]);
      StepSame(c, c', a, ops[|ops| - 1]);
      Step(c', ops[|ops| - 1]).0
  }

  /** What the operations of that run return, in order. */
  ghost function StatusesWith(cfg: KVCacheConfig, ks: Layers, vs: Layers, ops: seq<Op>): (sts: seq<Status>)
    requires ValidConfig(cfg) && SlotsFitInt32(cfg) && LegalRun(cfg, ops) && LayersSized(cfg, ks)
    requires LayersSized(cfg, vs)
    ensures |sts| == |ops|
  {
    if ops == [] then []
    else
      var before := ops[..|ops| - 1];
      SameConfig(Run(cfg, before).0, RunWith(cfg, ks, vs, before), Run(cfg, before).1);
      StatusesWith(cfg, ks, vs, before) + [Step(RunWith(cfg, ks, vs, before), ops[|ops| - 1]).1]
  }

  /** A run returns the same whatever bytes the buffers start with. */
  lemma {:induction false} StatusesSame(cfg: KVCacheConfig, ks: Layers, vs: Layers, ops: seq<Op>)
    requires ValidConfig(cfg) && SlotsFitInt32(cfg) && LegalRun(cfg, ops) && LayersSized(cfg, ks)
    requires LayersSized(cfg, vs)
    ensures StatusesWith(cfg, ks, vs, ops) == Statuses(cfg, ops)
  {
    hide Run, RunWith, Step, Refines, Inv, AllOwnSame, Swapped, LayersSized;
    if ops != [] {
      var before := ops[..|ops| - 1];
      StatusesSame(cfg, ks, vs, before);
      StepSame(Run(cfg, before).0, RunWith(cfg, ks, vs, before), Run(cfg, before).1, ops[|ops| - 1]);
    }
  }

  /** A sequence all of whose tokens were appended on layer l is shown on layer l. */
  lemma OwnLayerShown(c: Cache, c': Cache, a: Tokens, l: nat, s: nat)
    requires Refines(c, a) && Inv(c') && AllOwnSame(c, c', a) && l < c.cfg.numLayers && s < |a| && PF.AllOn(a[s], l)
    ensures PA.ShowsSequence(c', a, l, s)
  {
    hide PoolInv, Ownership, RowAgrees, MirrorRow, SlotOf;
    forall i | 0 <= i < |a[s]| ensures Shows(c', a, l, s, i) {
      assert Shows(c, a, l, s, i) && OwnSame(c, c', a, s, i);
    }
  }

  /** The joint theorem for buffers that start with any bytes: a sequence appended on one
      layer decodes on that layer to plain attention over its tokens. */
  lemma OneLayerEndToEnd(cfg: KVCacheConfig, ks: Layers, vs: Layers, ops: seq<Op>, e: real -> real,
                         toFloat: seq<byte> -> real, kBytes: seq<byte>, vBytes: seq<byte>, q: PA.Query, r: PA.Request,
                         p: DecodeFwdParams, s: nat, h: nat, hkv: nat)
    requires ValidConfig(cfg) && SlotsFitInt32(cfg) && LegalRun(cfg, ops) && LayersSized(cfg, ks)
    requires LayersSized(cfg, vs)
    requires IsExp(e)
    requires var (c', a) := (RunWith(cfg, ks, vs, ops), Run(cfg, ops).1);
             && c'.synced == c'.revision
             && PA.LaunchOn(c', toFloat, kBytes, vBytes, q, r, p)
             && PA.QueryMatches(cfg, q) && PA.HeadAt(cfg, q, s, h, hkv)
             && r.seqLens.Some? && r.seqLens.value[s] == c'.lens[s]
             && s < |a| && 0 <= r.layer && PF.AllOn(a[s], r.layer)
    ensures Readable(p) && s < p.batch && h < p.numHeads && OutStart(p, s, h) == PA.RowOffset(q, s, h)
    ensures PA.RowIsPlain(e, cfg, toFloat, q, r, Run(cfg, ops).1[s], s, h, hkv,
                          Normalise(MergeAll(e, SplitPartials(e, p, s, h), p.headDim)))
  {
    var (c, a) := Run(cfg, ops);
    var c' := RunWith(cfg, ks, vs, ops);
    hide Run, RunWith, Inv, Refines, AllOwnSame, Visible, Normalise, MergeAll, SplitPartials, Attention, IsExp,
         PA.LayerElements, PA.PlainTokens, PA.ShowsSequence, PA.RowIsPlain, PA.LaunchParams, OutStart, Readable;
    SameConfig(c, c', a);
    OwnLayerShown(c, c', a, r.layer, s);
    PA.DecodedIsPlain(e, c', a, toFloat, kBytes, vBytes, q, r, p, s, h, hkv);
  }

  lemma SameConfig(c: Cache, c': Cache, a: Tokens)
    requires AllOwnSame(c, c', a)
    ensures Swapped(c, c') && c'.cfg == c.cfg && c'.lens == c.lens && |a| == c.cfg.maxNumSeqs
  {
  }
}
