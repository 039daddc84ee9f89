/** The paged cache refines a list of tokens per sequence: append concatenates, reset
    clears, everything else is invisible, and no slot ever shows anything else. */
module CacheRefinement {
  import opened KvConfig
  import opened SlotRows
  import opened KvCache
  import opened BlockPool
  import opened CacheModel
  import opened CacheInvariant

  /** One appended token: the layer it was appended on, and its K and V bytes. */
  datatype Entry = Entry(layer: nat, k: Row, v: Row)

  /** The specification state: one token list per sequence. */
  type Tokens = seq<seq<Entry>>

  /** What a position shows on layer l: its token if it was appended on that layer,
      zeros otherwise, because lengths are shared by all layers. */
  function KOn(x: Entry, l: nat, w: nat): Row { if x.layer == l then x.k else ZeroRow(w) }

  function VOn(x: Entry, l: nat, w: nat): Row { if x.layer == l then x.v else ZeroRow(w) }

  ghost predicate LiveAt(c: Cache, slot: int, s: nat, i: nat)
    requires Sized(c)
  {
    s < c.cfg.maxNumSeqs && i < c.lens[s] && Backed(c, s, i) && SlotOf(c.owned, c.cfg.blockSize, s, i) == slot
  }

  /** The slot holds a token of some sequence. */
  ghost predicate Live(c: Cache, slot: int)
    requires Sized(c)
  {
    exists s, i :: LiveAt(c, slot, s, i)
  }

  /** Layer l stores, at the slot of position i of s, what the specification says. */
  ghost predicate Shows(c: Cache, a: Tokens, l: nat, s: nat, i: nat)
    requires Sized(c) && |a| == c.cfg.maxNumSeqs && l < c.cfg.numLayers && s < |a| && i < |a[s]|
  {
    && Backed(c, s, i)
    && var slot := SlotOf(c.owned, c.cfg.blockSize, s, i);
    && 0 <= slot < SlotCount(c.cfg)
    && c.k[l][slot] == KOn(a[s][i], l, TokenSize(c.cfg))
    && c.v[l][slot] == VOn(a[s][i], l, TokenSize(c.cfg))
  }

  ghost predicate Blank(c: Cache, l: nat, slot: nat)
    requires Sized(c) && l < c.cfg.numLayers && slot < SlotCount(c.cfg)
  {
    c.k[l][slot] == c.v[l][slot] == ZeroRow(TokenSize(c.cfg))
  }

  ghost predicate Refines(c: Cache, a: Tokens) {
    && Inv(c)
    && |a| == c.cfg.maxNumSeqs
    && (forall s :: 0 <= s < |a| ==> |a[s]| == c.lens[s])
    && (forall l, s, i :: 0 <= l < c.cfg.numLayers && 0 <= s < |a| && 0 <= i < |a[s]| ==> Shows(c, a, l, s, i))
    && (forall l, slot :: 0 <= l < c.cfg.numLayers && 0 <= slot < SlotCount(c.cfg) ==>
         Live(c, slot) || Blank(c, l, slot))
  }

  function NoTokens(cfg: KVCacheConfig): Tokens
    requires ValidConfig(cfg)
  {
    seq(cfg.maxNumSeqs, s => [])
  }

  // ---------------------------------------------------------------------------
  // A fresh cache
  // ---------------------------------------------------------------------------

  lemma EmptyTableRow(w: nat, n: nat, s: nat)
    requires s < n
    ensures (s + 1) * w <= |seq(n * w, i => -1)|
    ensures RowAt(seq(n * w, i => -1), w, s) == PaddedRow([], w) == PaddedRow([][..0], w)
  {
    RowInside(seq(n * w, i => -1), w, n, s);
  }

  lemma FreshRow(cfg: KVCacheConfig, s: nat)
    requires ValidConfig(cfg) && SlotsFitInt32(cfg) && s < cfg.maxNumSeqs
    ensures Sized(Fresh(cfg)) && RowAgrees(Fresh(cfg), s) && MirrorAt(Fresh(cfg), s, 0)
  {
    hide PoolInv, RowAt, PaddedRow;
    FreshSized(cfg);
    EmptyTableRow(cfg.numBlocks, cfg.maxNumSeqs, s);
    assert Fresh(cfg).owned[s][..0] == [][..0];
  }

  lemma FreshSized(cfg: KVCacheConfig)
    requires ValidConfig(cfg) && SlotsFitInt32(cfg)
    ensures Sized(Fresh(cfg))
  {
    FreshPoolValid(cfg.numBlocks, cfg.maxNumSeqs, cfg.numBlocks);
  }

  lemma FreshRefines(cfg: KVCacheConfig)
    requires ValidConfig(cfg) && SlotsFitInt32(cfg)
    ensures Refines(Fresh(cfg), NoTokens(cfg))
  {
    hide PoolInv, RowAgrees, MirrorAt;
    FreshSized(cfg);
    var c := Fresh(cfg);
    forall s | 0 <= s < cfg.maxNumSeqs ensures RowAgrees(c, s) && MirrorRow(c, s) {
      FreshRow(cfg, s);
    }
  }

  // ---------------------------------------------------------------------------
  // Attaching blocks changes nothing that is visible
  // ---------------------------------------------------------------------------

  /** c' has at least the blocks of c, in the same places, and the same contents. */
  ghost predicate Extends(c: Cache, c': Cache)
    requires Sized(c)
  {
    && c'.cfg == c.cfg && c'.lens == c.lens && c'.k == c.k && c'.v == c.v
    && |c'.owned| == |c.owned|
    && forall s :: 0 <= s < |c.owned| ==> c.owned[s] <= c'.owned[s]
  }

  lemma ExtendsKeepsView(c: Cache, c': Cache, a: Tokens)
    requires Refines(c, a) && Inv(c') && Extends(c, c')
    ensures Refines(c', a)
  {
    hide PoolInv, Ownership, RowAgrees, MirrorRow;
    forall l, s, i | 0 <= l < c.cfg.numLayers && 0 <= s < |a| && 0 <= i < |a[s]| ensures Shows(c', a, l, s, i) {
      assert Shows(c, a, l, s, i);
    }
    forall l, slot | 0 <= l < c.cfg.numLayers && 0 <= slot < SlotCount(c.cfg)
      ensures Live(c', slot) || Blank(c', l, slot)
    {
      if Live(c, slot) {
        var s, i :| LiveAt(c, slot, s, i);
        assert LiveAt(c', slot, s, i);
      } else {
        assert Blank(c, l, slot);
      }
    }
  }

  // ---------------------------------------------------------------------------
  // Storing tokens
  // ---------------------------------------------------------------------------

  function NewEntries(layer: nat, ks: seq<Row>, vs: seq<Row>): (xs: seq<Entry>)
    requires |ks| == |vs|
    ensures |xs| == |ks|
    ensures forall t :: 0 <= t < |xs| ==> xs[t] == Entry(layer, ks[t], vs[t])
  {
    seq(|ks|, t requires 0 <= t < |ks| => Entry(layer, ks[t], vs[t]))
  }

  /** c' is c after writing rows ks, vs to `slots` of one layer and growing the length of s. */
  ghost predicate Stored(c: Cache, c': Cache, s: nat, layer: nat, slots: seq<int>, ks: seq<Row>, vs: seq<Row>)
    requires Sized(c) && s < c.cfg.maxNumSeqs && layer < c.cfg.numLayers
  {
    && |slots| == |ks| == |vs|
    && (forall t :: 0 <= t < |ks| ==> |ks[t]| == |vs[t]| == TokenSize(c.cfg))
    && c' == c.(k := c.k[layer := PutRows(c.k[layer], slots, ks)], v := c.v[layer := PutRows(c.v[layer], slots, vs)],
                lens := c.lens[s := c.lens[s] + |slots|], revision := c.revision + 1, numAppends := c.numAppends + 1)
  }

  lemma PutRowsSized(c: Cache, rows: seq<Row>, slots: seq<int>, tokens: seq<Row>)
    requires ValidConfig(c.cfg) && LayerSized(c, rows) && |slots| == |tokens|
    requires forall t :: 0 <= t < |tokens| ==> |tokens[t]| == TokenSize(c.cfg)
    ensures LayerSized(c, PutRows(rows, slots, tokens))
  {
  }

  lemma StoredInv(c: Cache, c': Cache, s: nat, layer: nat, slots: seq<int>, ks: seq<Row>, vs: seq<Row>)
    requires Inv(c) && s < c.cfg.maxNumSeqs && layer < c.cfg.numLayers
    requires Stored(c, c', s, layer, slots, ks, vs)
    requires c.lens[s] + |slots| <= |c.owned[s]| * c.cfg.blockSize
    ensures Inv(c')
  {
    hide PoolInv, Ownership, TableRow, MirrorRow, PutRows;
    PutRowsSized(c, c.k[layer], slots, ks);
    PutRowsSized(c, c.v[layer], slots, vs);
    forall l | 0 <= l < |c'.k| ensures LayerSized(c', c'.k[l]) && LayerSized(c', c'.v[l]) {
      assert LayerSized(c, c.k[l]) && LayerSized(c, c.v[l]);
    }
    assert Sized(c');
    forall t | 0 <= t < c.cfg.maxNumSeqs ensures RowAgrees(c', t) {
      assert RowAgrees(c, t);
    }
  }

  /** The slot of an old position is not one of the slots being written. */
  lemma OldSlotsUntouched(c: Cache, s: nat, n: nat, slots: seq<int>, s': nat, i: nat)
    requires Inv(c) && s < c.cfg.maxNumSeqs && SlotsOf(c, s, c.lens[s], n, slots)
    requires s' < c.cfg.maxNumSeqs && i < c.lens[s'] && Backed(c, s', i)
    ensures SlotOf(c.owned, c.cfg.blockSize, s', i) !in slots
  {
    hide SlotOf, PoolInv, Ownership, RowAgrees, MirrorRow;
    var slot := SlotOf(c.owned, c.cfg.blockSize, s', i);
    if t :| 0 <= t < n && slots[t] == slot {
      assert TokenSlotIs(c, s, c.lens[s], t, slots[t]);
      SlotInjective(c, s, c.lens[s] + t, s', i);
    }
  }

  /** A slot about to be written holds no token of any sequence. */
  lemma NewSlotsFree(c: Cache, s: nat, n: nat, slots: seq<int>, t: nat)
    requires Inv(c) && s < c.cfg.maxNumSeqs && SlotsOf(c, s, c.lens[s], n, slots) && t < n
    ensures !Live(c, slots[t])
  {
    hide SlotOf, PoolInv, Ownership, RowAgrees, MirrorRow;
    if s', i :| LiveAt(c, slots[t], s', i) {
      OldSlotsUntouched(c, s, n, slots, s', i);
    }
  }

  lemma StoredOld(c: Cache, c': Cache, a: Tokens, a': Tokens, s: nat, layer: nat, slots: seq<int>, ks: seq<Row>,
                  vs: seq<Row>, l: nat, s': nat, i: nat)
    requires Refines(c, a) && s < c.cfg.maxNumSeqs && layer < c.cfg.numLayers && Stored(c, c', s, layer, slots, ks, vs)
    requires SlotsOf(c, s, c.lens[s], |slots|, slots) && Sized(c')
    requires a' == a[s := a[s] + NewEntries(layer, ks, vs)]
    requires l < c.cfg.numLayers && s' < |a| && i < |a[s']|
    ensures Shows(c', a', l, s', i)
  {
    hide SlotOf, PoolInv, Ownership, RowAgrees, MirrorRow;
    assert Shows(c, a, l, s', i);
    OldSlotsUntouched(c, s, |slots|, slots, s', i);
  }

  lemma StoredNew(c: Cache, c': Cache, a: Tokens, a': Tokens, s: nat, layer: nat, slots: seq<int>, ks: seq<Row>,
                  vs: seq<Row>, l: nat, t: nat)
    requires Refines(c, a) && s < c.cfg.maxNumSeqs && layer < c.cfg.numLayers && Stored(c, c', s, layer, slots, ks, vs)
    requires SlotsOf(c, s, c.lens[s], |slots|, slots) && Sized(c')
    requires a' == a[s := a[s] + NewEntries(layer, ks, vs)]
    requires l < c.cfg.numLayers && t < |slots|
    ensures Shows(c', a', l, s, c.lens[s] + t)
  {
    hide SlotOf, PoolInv, Ownership, RowAgrees, MirrorRow, PutRows;
    assert TokenSlotIs(c, s, c.lens[s], t, slots[t]);
    SlotInRange(c, s, c.lens[s] + t);
    SlotsDistinct(c, s, c.lens[s], |slots|, slots);
    PutRowsAt(c.k[layer], slots, ks, t);
    PutRowsAt(c.v[layer], slots, vs, t);
    NewSlotsFree(c, s, |slots|, slots, t);
    assert Blank(c, l, slots[t]);
    assert a'[s][c.lens[s] + t] == Entry(layer, ks[t], vs[t]);
  }

  lemma StoredBlank(c: Cache, c': Cache, a: Tokens, s: nat, layer: nat, slots: seq<int>, ks: seq<Row>, vs: seq<Row>,
                    l: nat, slot: nat)
    requires Refines(c, a) && s < c.cfg.maxNumSeqs && layer < c.cfg.numLayers && Stored(c, c', s, layer, slots, ks, vs)
    requires SlotsOf(c, s, c.lens[s], |slots|, slots) && Sized(c')
    requires l < c.cfg.numLayers && slot < SlotCount(c.cfg)
    ensures Live(c', slot) || Blank(c', l, slot)
  {
    hide SlotOf, PoolInv, Ownership, RowAgrees, MirrorRow;
    if t :| 0 <= t < |slots| && slots[t] == slot {
      assert TokenSlotIs(c, s, c.lens[s], t, slots[t]);
      assert LiveAt(c', slot, s, c.lens[s] + t);
    } else if Live(c, slot) {
      var s', i :| LiveAt(c, slot, s', i);
      assert LiveAt(c', slot, s', i);
    } else {
      assert Blank(c, l, slot);
    }
  }

  /** A successful store appends exactly the new tokens to s and shows every other
      position of every sequence and layer unchanged. */
  lemma StoredRefines(c: Cache, c': Cache, a: Tokens, s: nat, layer: nat, slots: seq<int>, ks: seq<Row>, vs: seq<Row>)
    requires Refines(c, a) && s < c.cfg.maxNumSeqs && layer < c.cfg.numLayers && Stored(c, c', s, layer, slots, ks, vs)
    requires SlotsOf(c, s, c.lens[s], |slots|, slots)
    requires c.lens[s] + |slots| <= |c.owned[s]| * c.cfg.blockSize
    ensures Refines(c', a[s := a[s] + NewEntries(layer, ks, vs)])
  {
    hide SlotOf, PoolInv, Ownership, RowAgrees, MirrorRow, Shows, Blank, Live, SlotsOf, PutRows;
    StoredInv(c, c', s, layer, slots, ks, vs);
    var a' := a[s := a[s] + NewEntries(layer, ks, vs)];
    forall l, s', i | 0 <= l < c.cfg.numLayers && 0 <= s' < |a'| && 0 <= i < |a'[s']| ensures Shows(c', a', l, s', i) {
      if i < |a[s']| {
        StoredOld(c, c', a, a', s, layer, slots, ks, vs, l, s', i);
      } else {
        StoredNew(c, c', a, a', s, layer, slots, ks, vs, l, i - c.lens[s]);
      }
    }
    forall l, slot | 0 <= l < c.cfg.numLayers && 0 <= slot < SlotCount(c.cfg)
      ensures Live(c', slot) || Blank(c', l, slot)
    {
      StoredBlank(c, c', a, s, layer, slots, ks, vs, l, slot);
    }
  }

  // ---------------------------------------------------------------------------
  // AppendTokens
  // ---------------------------------------------------------------------------

  /** Once the blocks are attached, the write's inputs are in order. */
  lemma WriteReady(c: Cache, s: nat, layer: nat, kNew: Tensor, vNew: Tensor)
    requires Inv(c) && AppendInputs(c.cfg, kNew, vNew) && ArgumentCheck(c.cfg, s, layer, kNew, vNew).Ok?
    requires Attach(c, s, c.lens[s] + NumNew(kNew)).1.Ok?
    ensures var c1 := Attach(c, s, c.lens[s] + NumNew(kNew)).0;
            Sized(c1) && c1.cfg == c.cfg && |c1.owned[s]| <= c1.cfg.numBlocks
  {
    hide PoolInv, Ownership, RowAgrees, MirrorRow, Attach, RefreshRow;
    AttachInv(c, s, c.lens[s] + NumNew(kNew));
  }

  /** AppendTokens as a function: argument checks, attach, write. */
  ghost function AppendTokens(c: Cache, s: int, layer: int, kNew: Tensor, vNew: Tensor, env: Env): (r: (Cache, Status))
    requires Inv(c) && AppendInputs(c.cfg, kNew, vNew)
  {
    var check := ArgumentCheck(c.cfg, s, layer, kNew, vNew);
    if check.Err? then (c, check)
    else
      var (c1, attached) := Attach(c, s, c.lens[s] + NumNew(kNew));
      if attached.Err? then (c1, attached)
      else
        WriteReady(c, s, layer, kNew, vNew);
        WriteTokens(c1, s, layer, kNew, vNew, env)
  }

  /** The new tokens as specification entries. */
  ghost function Appended(cfg: KVCacheConfig, layer: nat, kNew: Tensor, vNew: Tensor): (xs: seq<Entry>)
    requires ValidConfig(cfg) && |kNew.dims| == 3
    requires |kNew.data| == NumNew(kNew) * TokenSize(cfg) <= |vNew.data|
    ensures |xs| == NumNew(kNew)
  {
    NewEntries(layer, Rows(kNew.data, TokenSize(cfg), NumNew(kNew)),
               Rows(ValueBytes(kNew, vNew), TokenSize(cfg), NumNew(kNew)))
  }

  /** The state once the missing blocks are attached and the row is refreshed. */
  ghost function Prepared(c: Cache, s: nat, n: nat): (r: Cache)
    requires Inv(c) && s < c.cfg.maxNumSeqs && Attach(c, s, c.lens[s] + n).1.Ok?
    ensures Inv(r) && r.cfg == c.cfg && Extends(c, r) && c.lens[s] + n <= |r.owned[s]| * c.cfg.blockSize
    ensures r == c.(pool := r.pool, owned := c.owned[s := r.owned[s]], host := r.host)
  {
    AttachInv(c, s, c.lens[s] + n);
    RefreshRow(Attach(c, s, c.lens[s] + n).0, s)
  }

  /** The environment conditions and tensor checks under which the write goes through. */
  predicate WriteAccepted(c: Cache, layer: nat, kNew: Tensor, vNew: Tensor, env: Env)
    requires |kNew.dims| == 3
  {
    && kNew.dtype == vNew.dtype == c.cfg.dtype
    && kNew.dims[1] == c.cfg.numKvHeads && kNew.dims[2] == c.cfg.headDim
    && (if NumNew(kNew) > c.slotCapacity then env.bufferOk else c.slotBuffer)
    && env.launchOk
  }

  lemma AcceptedSizes(c: Cache, layer: nat, kNew: Tensor, vNew: Tensor, env: Env)
    requires ValidConfig(c.cfg) && AppendInputs(c.cfg, kNew, vNew) && |kNew.dims| == 3
    requires WriteAccepted(c, layer, kNew, vNew, env)
    ensures |kNew.data| == NumNew(kNew) * TokenSize(c.cfg) <= |vNew.data|
  {
    assert kNew.dims == [NumNew(kNew), c.cfg.numKvHeads, c.cfg.headDim];
    CheckedSize(c.cfg, kNew, NumNew(kNew));
  }

  /** Changing the slot buffer changes nothing else. */
  lemma BufferKeepsView(c: Cache, a: Tokens, capacity: nat, buffer: bool)
    requires Refines(c, a)
    ensures Refines(c.(slotCapacity := capacity, slotBuffer := buffer), a)
  {
    hide PoolInv, Ownership, TableRow, SlotOf;
    var c' := c.(slotCapacity := capacity, slotBuffer := buffer);
    forall l | 0 <= l < |c'.k| ensures LayerSized(c', c'.k[l]) && LayerSized(c', c'.v[l]) {
      assert LayerSized(c, c.k[l]) && LayerSized(c, c.v[l]);
    }
    assert Sized(c');
    forall t | 0 <= t < c.cfg.maxNumSeqs ensures RowAgrees(c', t) {
      assert RowAgrees(c, t);
    }
    if c.synced == c.revision {
      forall t | 0 <= t < c.cfg.maxNumSeqs ensures MirrorRow(c', t) {
        RowLength(c, t);
        MirrorStays(c, c', t);
      }
    }
    assert Inv(c');
    ExtendsKeepsView(c, c', a);
  }

  /** The slots of the new tokens in the prepared state. */
  ghost function NewSlots(c: Cache, s: nat, n: nat): (slots: seq<int>)
    requires Inv(c) && s < c.cfg.maxNumSeqs && n > 0 && Attach(c, s, c.lens[s] + n).1.Ok?
    ensures var p := Prepared(c, s, n);
            |slots| == n && SlotsOf(p, s, c.lens[s], n, slots)
            && ComputeSlots(PageRow(p, p.host, s), c.lens[s], n, c.cfg.blockSize) == Success(slots)
  {
    var p := Prepared(c, s, n);
    SlotsDefined(p, s, c.lens[s], n);
    ComputeSlots(PageRow(p, p.host, s), c.lens[s], n, c.cfg.blockSize).value
  }

  /** Result r of writing from the prepared state p with the slots known: grow the slot
      buffer, then store. */
  ghost predicate WrittenFrom(p: Cache, s: nat, layer: nat, kNew: Tensor, vNew: Tensor, slots: seq<int>, env: Env,
                              r: (Cache, Status))
    requires s < p.cfg.maxNumSeqs && layer < p.cfg.numLayers
    requires AppendInputs(p.cfg, kNew, vNew) && |kNew.dims| == 3 && |slots| == NumNew(kNew)
  {
    var (p2, grown) := GrowSlotBuffer(p, NumNew(kNew), env.bufferOk);
    && (grown.Err? ==> r == (p2, grown))
    && (grown.Ok? ==> Sized(p2) && r == StoreTokens(p2, s, layer, kNew, vNew, slots, env.launchOk))
  }

  lemma WriteIs(c1: Cache, s: nat, layer: nat, kNew: Tensor, vNew: Tensor, env: Env, slots: seq<int>)
    requires Sized(c1) && s < c1.cfg.maxNumSeqs && layer < c1.cfg.numLayers && |c1.owned[s]| <= c1.cfg.numBlocks
    requires AppendInputs(c1.cfg, kNew, vNew) && |kNew.dims| == 3 && |slots| == NumNew(kNew)
    requires var p := RefreshRow(c1, s);
             Sized(p) && ComputeSlots(PageRow(p, p.host, s), p.lens[s], NumNew(kNew), p.cfg.blockSize) == Success(slots)
    ensures WrittenFrom(RefreshRow(c1, s), s, layer, kNew, vNew, slots, env, WriteTokens(c1, s, layer, kNew, vNew, env))
  {
    hide PoolInv, PageRow, SetPageRow, ComputeSlots, PutRows, Rows;
    BufferSized(RefreshRow(c1, s), GrowSlotBuffer(RefreshRow(c1, s), NumNew(kNew), env.bufferOk).0);
  }

  /** The arguments passed the checks and the missing blocks could be attached. */
  ghost predicate Admitted(c: Cache, s: nat, layer: nat, kNew: Tensor, vNew: Tensor)
    requires Inv(c)
  {
    && AppendInputs(c.cfg, kNew, vNew)
    && ArgumentCheck(c.cfg, s, layer, kNew, vNew).Ok?
    && Attach(c, s, c.lens[s] + NumNew(kNew)).1.Ok?
  }

  /** After a successful Attach the slot mapping cannot fail: what is left are the slot
      buffer, the tensor checks and the launch. */
  lemma AppendIs(c: Cache, s: nat, layer: nat, kNew: Tensor, vNew: Tensor, env: Env)
    requires Inv(c) && Admitted(c, s, layer, kNew, vNew)
    ensures WrittenFrom(Prepared(c, s, NumNew(kNew)), s, layer, kNew, vNew, NewSlots(c, s, NumNew(kNew)), env,
                        AppendTokens(c, s, layer, kNew, vNew, env))
  {
    hide PoolInv, Ownership, RowAgrees, MirrorRow, Attach, RefreshRow, SlotsOf, StoreTokens, ComputeSlots,
         WriteTokens, NewSlots, WrittenFrom, Extends;
    AttachInv(c, s, c.lens[s] + NumNew(kNew));
    WriteIs(Attach(c, s, c.lens[s] + NumNew(kNew)).0, s, layer, kNew, vNew, env, NewSlots(c, s, NumNew(kNew)));
  }

  lemma BufferSized(c: Cache, c': Cache)
    requires Sized(c) && c' == c.(slotCapacity := c'.slotCapacity, slotBuffer := c'.slotBuffer)
    ensures Sized(c')
  {
    forall l | 0 <= l < |c'.k| ensures LayerSized(c', c'.k[l]) && LayerSized(c', c'.v[l]) {
      assert LayerSized(c, c.k[l]) && LayerSized(c, c.v[l]);
    }
  }

  /** The store, when everything is accepted. */
  lemma StoreIs(c: Cache, p: Cache, s: nat, layer: nat, kNew: Tensor, vNew: Tensor, slots: seq<int>, env: Env)
    requires Sized(p) && s < p.cfg.maxNumSeqs && layer < p.cfg.numLayers && AppendInputs(p.cfg, kNew, vNew)
    requires |kNew.dims| == 3 && |slots| == NumNew(kNew) > 0
    requires p.cfg == c.cfg && GrowSlotBuffer(c.(slotCapacity := c.slotCapacity), NumNew(kNew), env.bufferOk).1.Ok?
    requires p.slotBuffer == GrowSlotBuffer(c, NumNew(kNew), env.bufferOk).0.slotBuffer
    ensures var (c', st) := StoreTokens(p, s, layer, kNew, vNew, slots, env.launchOk);
            && (st.Ok? <==> WriteAccepted(c, layer, kNew, vNew, env))
            && (st.Err? ==> c' == p)
            && (st.Ok? ==> |kNew.data| == NumNew(kNew) * TokenSize(c.cfg) <= |vNew.data|
                           && Stored(p, c', s, layer, slots, Rows(kNew.data, TokenSize(c.cfg), NumNew(kNew)),
                                     Rows(ValueBytes(kNew, vNew), TokenSize(c.cfg), NumNew(kNew))))
  {
    hide PoolInv, PutRows;
    if WriteAccepted(c, layer, kNew, vNew, env) {
      AcceptedSizes(c, layer, kNew, vNew, env);
    }
  }

  /** What an admitted append does: it goes through exactly when environment and
      tensors allow it, and then the tokens are appended; otherwise only attached
      blocks and the slot buffer have changed. */
  ghost predicate AppendEffect(c: Cache, a: Tokens, s: nat, layer: nat, kNew: Tensor, vNew: Tensor, env: Env,
                               r: (Cache, Status))
    requires Inv(c) && Admitted(c, s, layer, kNew, vNew) && |a| == c.cfg.maxNumSeqs
  {
    var (c', st) := r;
    && c'.cfg == c.cfg
    && (st.Ok? <==> WriteAccepted(c, layer, kNew, vNew, env))
    && (st.Err? ==> c' == Prepared(c, s, NumNew(kNew)).(slotCapacity := c'.slotCapacity, slotBuffer := c'.slotBuffer))
    && (st.Err? ==> Refines(c', a))
    && (st.Ok? ==> |kNew.data| == NumNew(kNew) * TokenSize(c.cfg) <= |vNew.data|
                   && Refines(c', a[s := a[s] + Appended(c.cfg, layer, kNew, vNew)]))
  }

  lemma WrittenEffect(c: Cache, p: Cache, a: Tokens, s: nat, layer: nat, kNew: Tensor, vNew: Tensor, env: Env,
                      slots: seq<int>, r: (Cache, Status))
    requires Inv(c) && Admitted(c, s, layer, kNew, vNew) && |a| == c.cfg.maxNumSeqs
    requires p == Prepared(c, s, NumNew(kNew)) && Refines(p, a)
    requires |slots| == NumNew(kNew) && SlotsOf(p, s, p.lens[s], |slots|, slots)
    requires WrittenFrom(p, s, layer, kNew, vNew, slots, env, r)
    ensures AppendEffect(c, a, s, layer, kNew, vNew, env, r)
  {
    hide PoolInv, Ownership, RowAgrees, MirrorRow, Attach, Prepared, StoreTokens, SlotsOf, PutRows, Rows, NewEntries,
         Inv, Refines, Extends;
    var n := NumNew(kNew);
    var (p2, grown) := GrowSlotBuffer(p, n, env.bufferOk);
    BufferKeepsView(p, a, p2.slotCapacity, p2.slotBuffer);
    if grown.Ok? {
      StoreIs(c, p2, s, layer, kNew, vNew, slots, env);
      if r.1.Ok? {
        SlotsOfSame(p, p2, s, p.lens[s], n, slots);
        StoredRefines(p2, r.0, a, s, layer, slots, Rows(kNew.data, TokenSize(c.cfg), n),
                      Rows(ValueBytes(kNew, vNew), TokenSize(c.cfg), n));
      }
    }
  }

  lemma AdmittedEffect(c: Cache, a: Tokens, s: nat, layer: nat, kNew: Tensor, vNew: Tensor, env: Env)
    requires Refines(c, a) && Admitted(c, s, layer, kNew, vNew)
    ensures AppendEffect(c, a, s, layer, kNew, vNew, env, AppendTokens(c, s, layer, kNew, vNew, env))
  {
    hide PoolInv, Ownership, RowAgrees, MirrorRow, Attach, AppendTokens, AppendEffect, WrittenFrom, SlotsOf, Prepared,
         NewSlots;
    var p := Prepared(c, s, NumNew(kNew));
    ExtendsKeepsView(c, p, a);
    AppendIs(c, s, layer, kNew, vNew, env);
    WrittenEffect(c, p, a, s, layer, kNew, vNew, env, NewSlots(c, s, NumNew(kNew)),
                  AppendTokens(c, s, layer, kNew, vNew, env));
  }

  lemma SlotsOfSame(c: Cache, c': Cache, s: nat, start: nat, n: nat, slots: seq<int>)
    requires Sized(c) && Sized(c') && s < c.cfg.maxNumSeqs && c'.cfg == c.cfg && c'.owned == c.owned
    requires SlotsOf(c, s, start, n, slots)
    ensures SlotsOf(c', s, start, n, slots)
  {
    forall t | 0 <= t < n ensures TokenSlotIs(c', s, start, t, slots[t]) {
      assert TokenSlotIs(c, s, start, t, slots[t]);
    }
  }

  /** A refused allocation changes nothing but the failure counter. */
  lemma RefusedKeepsView(c: Cache, a: Tokens, c': Cache)
    requires Refines(c, a)
    requires c' == c.(pool := c.pool.(allocationFailures := c.pool.allocationFailures + 1))
    ensures Refines(c', a)
  {
    hide Ownership, SlotOf;
    forall l | 0 <= l < |c'.k| ensures LayerSized(c', c'.k[l]) && LayerSized(c', c'.v[l]) {
      assert LayerSized(c, c.k[l]) && LayerSized(c, c.v[l]);
    }
    assert Sized(c');
    hide PoolInv, Sized;
    forall t | 0 <= t < c.cfg.maxNumSeqs ensures RowAgrees(c', t) {
      assert RowAgrees(c, t);
      SameTableRow(c.pool, c'.pool, t);
    }
    if c.synced == c.revision {
      forall t | 0 <= t < c.cfg.maxNumSeqs ensures MirrorRow(c', t) {
        RowLength(c, t);
        MirrorStays(c, c', t);
      }
    }
    assert Inv(c');
    ExtendsKeepsView(c, c', a);
  }

  // ---------------------------------------------------------------------------
  // ResetSeq
  // ---------------------------------------------------------------------------

  /** Tokens of the first okLayers layers replaced by zeros. */
  function Blanked(xs: seq<Entry>, okLayers: nat, w: nat): (r: seq<Entry>)
    ensures |r| == |xs|
    ensures forall i :: 0 <= i < |xs| ==>
              r[i] == if xs[i].layer < okLayers then Entry(xs[i].layer, ZeroRow(w), ZeroRow(w)) else xs[i]
  {
    seq(|xs|, i requires 0 <= i < |xs| =>
      if xs[i].layer < okLayers then Entry(xs[i].layer, ZeroRow(w), ZeroRow(w)) else xs[i])
  }

  /** c with the blocks of s zeroed in the first okLayers layers. */
  ghost function Zeroed(c: Cache, s: nat, okLayers: nat): (r: Cache)
    requires Sized(c) && s < c.cfg.maxNumSeqs
    ensures r == c.(k := r.k, v := r.v)
    ensures |r.k| == |r.v| == |c.k| == |c.v|
  {
    c.(k := ZeroLayers(c, c.k, c.owned[s], okLayers), v := ZeroLayers(c, c.v, c.owned[s], okLayers))
  }

  /** Row `slot` of layer l after zeroing the blocks of s. */
  lemma ZeroedRow(c: Cache, s: nat, okLayers: nat, l: nat, slot: nat)
    requires Sized(c) && s < c.cfg.maxNumSeqs && l < c.cfg.numLayers && slot < SlotCount(c.cfg)
    ensures var c' := Zeroed(c, s, okLayers);
            && |c'.k[l]| == |c'.v[l]| == SlotCount(c.cfg)
            && (if l < okLayers && slot / c.cfg.blockSize in c.owned[s]
                then c'.k[l][slot] == c'.v[l][slot] == ZeroRow(TokenSize(c.cfg))
                else c'.k[l][slot] == c.k[l][slot] && c'.v[l][slot] == c.v[l][slot])
  {
    hide PoolInv;
    assert LayerSized(c, c.k[l]) && LayerSized(c, c.v[l]);
  }

  lemma ZeroedSized(c: Cache, s: nat, okLayers: nat)
    requires Sized(c) && s < c.cfg.maxNumSeqs
    ensures Sized(Zeroed(c, s, okLayers))
  {
    hide PoolInv, ZeroLayers, Zeroed;
    var c' := Zeroed(c, s, okLayers);
    forall l | 0 <= l < |c'.k| ensures LayerSized(c', c'.k[l]) && LayerSized(c', c'.v[l]) {
      assert LayerSized(c, c.k[l]) && LayerSized(c, c.v[l]);
      if SlotCount(c.cfg) > 0 {
        ZeroedRow(c, s, okLayers, l, 0);
      }
      forall slot | 0 <= slot < SlotCount(c.cfg) ensures |c'.k[l][slot]| == |c'.v[l][slot]| == TokenSize(c.cfg) {
        ZeroedRow(c, s, okLayers, l, slot);
      }
    }
  }

  lemma ZeroedInv(c: Cache, s: nat, okLayers: nat)
    requires Inv(c) && s < c.cfg.maxNumSeqs
    ensures Inv(Zeroed(c, s, okLayers))
  {
    hide PoolInv, Ownership, TableRow, ZeroLayers, Zeroed;
    ZeroedSized(c, s, okLayers);
    var c' := Zeroed(c, s, okLayers);
    forall t | 0 <= t < c.cfg.maxNumSeqs ensures RowAgrees(c', t) {
      assert RowAgrees(c, t);
    }
    if c.synced == c.revision {
      forall t | 0 <= t < c.cfg.maxNumSeqs ensures MirrorRow(c', t) {
        RowLength(c, t);
        MirrorStays(c, c', t);
      }
    }
  }

  /** A block belongs to one sequence only. */
  lemma BlockOfSlot(c: Cache, s: nat, s': nat, i: nat)
    requires Inv(c) && s < c.cfg.maxNumSeqs && s' < c.cfg.maxNumSeqs && Backed(c, s', i)
    ensures SlotOf(c.owned, c.cfg.blockSize, s', i) / c.cfg.blockSize in c.owned[s] <==> s == s'
  {
    hide PoolInv, RowAgrees, MirrorRow;
    SlotInRange(c, s', i);
    var b := c.owned[s'][i / c.cfg.blockSize];
    if j :| 0 <= j < |c.owned[s]| && c.owned[s][j] == b {
    }
  }

  /** A storage reset refused at layer okLayers has already destroyed the tokens of the
      layers before it; lengths, blocks and every other sequence are as before. */
  lemma ZeroedRefines(c: Cache, a: Tokens, s: nat, okLayers: nat)
    requires Refines(c, a) && s < c.cfg.maxNumSeqs
    ensures Refines(Zeroed(c, s, okLayers), a[s := Blanked(a[s], okLayers, TokenSize(c.cfg))])
  {
    hide PoolInv, Ownership, RowAgrees, MirrorRow, ZeroLayers, Zeroed;
    ZeroedInv(c, s, okLayers);
    var c', a' := Zeroed(c, s, okLayers), a[s := Blanked(a[s], okLayers, TokenSize(c.cfg))];
    forall l, s', i | 0 <= l < c.cfg.numLayers && 0 <= s' < |a'| && 0 <= i < |a'[s']| ensures Shows(c', a', l, s', i) {
      assert Shows(c, a, l, s', i);
      ZeroedRow(c, s, okLayers, l, SlotOf(c.owned, c.cfg.blockSize, s', i));
      BlockOfSlot(c, s, s', i);
    }
    forall l, slot | 0 <= l < c.cfg.numLayers && 0 <= slot < SlotCount(c.cfg)
      ensures Live(c', slot) || Blank(c', l, slot)
    {
      ZeroedRow(c, s, okLayers, l, slot);
      if Live(c, slot) {
        var s', i :| LiveAt(c, slot, s', i);
        assert LiveAt(c', slot, s', i);
      } else {
        assert Blank(c, l, slot);
      }
    }
  }

  /** c after releasing the blocks of s and clearing its rows. */
  ghost function Released(c: Cache, s: nat): (r: Cache)
    requires Sized(c) && s < c.cfg.maxNumSeqs
  {
    SetPageRow(c, s, EmptyRow(c.cfg.numBlocks))
      .(pool := ResetSeq(c.pool, s).0, owned := c.owned[s := []], lens := c.lens[s := 0],
        revision := c.revision + 1, numResets := c.numResets + 1)
  }

  /** The table rows after the manager's reset, and what happens to the pool. */
  lemma ReleasedPool(c: Cache, s: nat)
    requires Inv(c) && s < c.cfg.maxNumSeqs
    ensures var p := ResetSeq(c.pool, s).0;
            && PoolInv(p) && p.numBlocks == c.pool.numBlocks && p.width == c.pool.width && p.rows == c.pool.rows
            && (forall b :: 0 <= b < |c.pool.inUse| ==> p.inUse[b] == (c.pool.inUse[b] && b !in c.owned[s]))
            && p.free == c.pool.free + c.owned[s]
            && p.doubleFreeEvents == c.pool.doubleFreeEvents
            && forall t :: 0 <= t < c.cfg.maxNumSeqs ==>
                 TableRow(p, t) == if t == s then EmptyRow(c.cfg.numBlocks) else TableRow(c.pool, t)
  {
    assert RowAgrees(c, s);
    OwnedMapped(c, s);
    OwnedDistinct(c.owned, c.pool.inUse, s);
    CountPadded(c.owned[s], c.cfg.numBlocks);
    assert PaddedRow(c.owned[s], c.cfg.numBlocks)[..|c.owned[s]|] == c.owned[s];
    FreeIdsEffect(c.pool, c.owned[s]);
    FreeDistinct(c.pool, c.owned[s]);
    ResetInv(c.pool, s);
    hide PoolInv, Ownership, RowAgrees, MirrorRow, FreeIds;
    forall t | 0 <= t < c.cfg.maxNumSeqs
      ensures TableRow(ResetSeq(c.pool, s).0, t) == if t == s then EmptyRow(c.cfg.numBlocks) else TableRow(c.pool, t)
    {
      SetRowRows(c.pool.table, c.pool.width, c.pool.rows, s, EmptyRow(c.cfg.numBlocks), t);
    }
  }

  lemma ReleasedRow(c: Cache, s: nat, t: nat)
    requires Inv(c) && s < c.cfg.maxNumSeqs && t < c.cfg.maxNumSeqs && Sized(Released(c, s))
    ensures RowAgrees(Released(c, s), t)
  {
    hide PoolInv, Ownership, MirrorRow, ResetSeq;
    assert RowAgrees(c, t);
    ReleasedPool(c, s);
    SetRowRows(c.host, c.cfg.numBlocks, c.cfg.maxNumSeqs, s, EmptyRow(c.cfg.numBlocks), t);
  }

  lemma ReleasedInv(c: Cache, s: nat)
    requires Inv(c) && s < c.cfg.maxNumSeqs
    ensures Inv(Released(c, s))
  {
    hide PoolInv, RowAgrees, MirrorRow, ResetSeq, Ownership, TableRow;
    ReleasedPool(c, s);
    var c' := Released(c, s);
    OwnershipDrops(c.owned, c.pool.inUse, s, c'.pool.inUse) by {
      assert |c'.pool.inUse| == |c.pool.inUse| by { PoolFlags(c.pool); PoolFlags(c'.pool); }
    }
    forall l | 0 <= l < |c'.k| ensures LayerSized(c', c'.k[l]) && LayerSized(c', c'.v[l]) {
      assert LayerSized(c, c.k[l]) && LayerSized(c, c.v[l]);
    }
    assert Sized(c');
    forall t | 0 <= t < c.cfg.maxNumSeqs ensures RowAgrees(c', t) {
      ReleasedRow(c, s, t);
    }
  }

  lemma PoolFlags(p: Pool)
    requires PoolInv(p)
    ensures |p.inUse| == p.numBlocks
  {
  }

  /** Releasing a sequence whose blocks are all zero leaves an empty token list and
      nothing stale behind. */
  lemma ReleasedRefines(c: Cache, a: Tokens, s: nat)
    requires Refines(c, a) && s < c.cfg.maxNumSeqs
    requires forall l, i :: 0 <= l < c.cfg.numLayers && 0 <= i < c.lens[s] ==> AllBlank(c, l, s, i)
    ensures Refines(Released(c, s), a[s := []])
  {
    hide PoolInv, RowAgrees, MirrorRow, ResetSeq, Ownership;
    ReleasedInv(c, s);
    var c', a' := Released(c, s), a[s := []];
    forall l, s', i | 0 <= l < c.cfg.numLayers && 0 <= s' < |a'| && 0 <= i < |a'[s']| ensures Shows(c', a', l, s', i) {
      assert Shows(c, a, l, s', i);
    }
    forall l, slot | 0 <= l < c.cfg.numLayers && 0 <= slot < SlotCount(c.cfg)
      ensures Live(c', slot) || Blank(c', l, slot)
    {
      if Live(c, slot) {
        var s', i :| LiveAt(c, slot, s', i);
        if s' == s {
          assert AllBlank(c, l, s, i);
        } else {
          assert LiveAt(c', slot, s', i);
        }
      } else {
        assert Blank(c, l, slot);
      }
    }
  }

  ghost predicate AllBlank(c: Cache, l: nat, s: nat, i: nat)
    requires Sized(c) && l < c.cfg.numLayers && s < c.cfg.maxNumSeqs && i < c.lens[s]
  {
    Backed(c, s, i)
    && 0 <= SlotOf(c.owned, c.cfg.blockSize, s, i) < SlotCount(c.cfg)
    && Blank(c, l, SlotOf(c.owned, c.cfg.blockSize, s, i))
  }
}
