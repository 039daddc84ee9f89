/** KV storage: one K and one V byte buffer per layer, written by the append kernel,
    cleared by the reset kernel, read back by the gather kernel; and the slot mapping. */
module KvCache {
  import opened Arith
  import opened KvKernels
  import opened KvConfig
  import opened SlotRows

  // ---------------------------------------------------------------------------
  // Slot mapping
  // ---------------------------------------------------------------------------

  /** Slot of one position, or why there is none. */
  function SlotAt(row: seq<int>, position: nat, blockSize: nat, maxBlocks: nat): Result<int>
    requires blockSize > 0 && |row| == maxBlocks
  {
    var logical := position / blockSize;
    if logical >= maxBlocks then Failure(KVCapacityExceeded)
    else if row[logical] < 0 then Failure(ShapeMismatch)
    else Success(ToInt32(row[logical] * blockSize + position % blockSize))
  }

  /** Slot of the t-th token of an append that starts at position seqStart. */
  function TokenSlot(row: seq<int>, seqStart: nat, t: nat, blockSize: nat, maxBlocks: nat): Result<int>
    requires blockSize > 0 && |row| == maxBlocks
  {
    SlotAt(row, seqStart + t, blockSize, maxBlocks)
  }

  /** Slots of positions seqStart .. seqStart + numTokens, or the first failure. */
  function SlotsFrom(row: seq<int>, seqStart: nat, numTokens: nat, blockSize: nat, maxBlocks: nat)
    : (r: Result<seq<int>>)
    requires blockSize > 0 && |row| == maxBlocks
    ensures r.Success? ==> |r.value| == numTokens
  {
    if numTokens == 0 then Success([])
    else
      var before := SlotsFrom(row, seqStart, numTokens - 1, blockSize, maxBlocks);
      if before.Failure? then before
      else
        var slot := TokenSlot(row, seqStart, numTokens - 1, blockSize, maxBlocks);
        if slot.Failure? then Failure(slot.code) else Success(before.value + [slot.value])
  }

  function ComputeSlots(row: seq<int>, seqStart: nat, numTokens: int, blockSize: int): (r: Result<seq<int>>)
    ensures r.Success? ==> |r.value| == numTokens
  {
    if blockSize <= 0 || numTokens <= 0 then Failure(ShapeMismatch)
    else SlotsFrom(row, seqStart, numTokens, blockSize, |row|)
  }

  lemma {:induction false} SlotsSucceed(row: seq<int>, seqStart: nat, numTokens: nat, blockSize: nat, maxBlocks: nat)
    requires blockSize > 0 && |row| == maxBlocks
    requires forall t :: 0 <= t < numTokens ==> TokenSlot(row, seqStart, t, blockSize, maxBlocks).Success?
    ensures var r := SlotsFrom(row, seqStart, numTokens, blockSize, maxBlocks);
            && r.Success?
            && forall t :: 0 <= t < numTokens ==> r.value[t] == TokenSlot(row, seqStart, t, blockSize, maxBlocks).value
  {
    if numTokens > 0 {
      SlotsSucceed(row, seqStart, numTokens - 1, blockSize, maxBlocks);
    }
  }

  lemma {:induction false} SlotsFail(row: seq<int>, seqStart: nat, t: nat, numTokens: nat, blockSize: nat,
                                     maxBlocks: nat)
    requires blockSize > 0 && |row| == maxBlocks && t < numTokens
    requires TokenSlot(row, seqStart, t, blockSize, maxBlocks).Failure?
    requires forall u :: 0 <= u < t ==> TokenSlot(row, seqStart, u, blockSize, maxBlocks).Success?
    ensures SlotsFrom(row, seqStart, numTokens, blockSize, maxBlocks)
            == Failure(TokenSlot(row, seqStart, t, blockSize, maxBlocks).code)
    decreases numTokens
  {
    if numTokens == t + 1 {
      SlotsSucceed(row, seqStart, t, blockSize, maxBlocks);
    } else {
      SlotsFail(row, seqStart, t, numTokens - 1, blockSize, maxBlocks);
    }
  }

  method ComputeSlotMapping(row: seq<int>, seqStart: nat, numTokens: int, blockSize: int) returns (r: Result<seq<int>>)
    ensures r == ComputeSlots(row, seqStart, numTokens, blockSize)
  {
    if blockSize <= 0 || numTokens <= 0 { return Failure(ShapeMismatch); }
    hide SlotAt, SlotsFrom;
    var slots := seq(numTokens, i => -1);
    for t := 0 to numTokens
      invariant |slots| == numTokens
      invariant forall u :: 0 <= u < t ==> TokenSlot(row, seqStart, u, blockSize, |row|) == Success(slots[u])
    {
      var slot := MapPosition(row, seqStart + t, blockSize, |row|);
      if slot.Failure? {
        SlotsFail(row, seqStart, t, numTokens, blockSize, |row|);
        return Failure(slot.code);
      }
      slots := slots[t := slot.value];
    }
    SlotsSucceed(row, seqStart, numTokens, blockSize, |row|);
    assert SlotsFrom(row, seqStart, numTokens, blockSize, |row|).value == slots;
    r := Success(slots);
  }

  method MapPosition(row: seq<int>, position: nat, blockSize: nat, maxBlocks: nat) returns (r: Result<int>)
    requires blockSize > 0 && |row| == maxBlocks
    ensures r == SlotAt(row, position, blockSize, maxBlocks)
  {
    var logicalBlock, offsetInBlock := position / blockSize, position % blockSize;
    if logicalBlock >= maxBlocks { return Failure(KVCapacityExceeded); }
    var physical := row[logicalBlock];
    if physical < 0 { return Failure(ShapeMismatch); }
    r := Success(ToInt32(physical * blockSize + offsetInBlock));
  }

  // ---------------------------------------------------------------------------
  // Storage
  // ---------------------------------------------------------------------------

  /** What KVCache::Append checks before it launches. */
  function AppendCheck(cfg: KVCacheConfig, layer: int, kNew: Tensor, vNew: Tensor, slotBuffer: bool, numTokens: nat)
    : Status {
    if layer < 0 || layer >= cfg.numLayers then Err(ShapeMismatch)
    else if kNew.dtype != cfg.dtype || vNew.dtype != cfg.dtype then Err(UnsupportedDtype)
    else if |kNew.dims| != 3 || kNew.dims[0] != numTokens || kNew.dims[1] != cfg.numKvHeads
      || kNew.dims[2] != cfg.headDim
      then Err(ShapeMismatch)
    else if !slotBuffer then Err(ShapeMismatch)
    else Ok
  }

  /** The tensors pass the dtype and shape checks: V's dimensions are not looked at. */
  predicate ShapeAccepted(cfg: KVCacheConfig, kNew: Tensor, vNew: Tensor) {
    && kNew.dtype == vNew.dtype == cfg.dtype
    && |kNew.dims| == 3 && kNew.dims[1] == cfg.numKvHeads && kNew.dims[2] == cfg.headDim
  }

  /** What the caller owes: K's bytes match its dimensions, and when the kernel runs the V
      tensor holds at least as many bytes, because V is read with K's dimensions. */
  ghost predicate AppendInputs(cfg: KVCacheConfig, kNew: Tensor, vNew: Tensor) {
    WellFormed(kNew) && (ShapeAccepted(cfg, kNew, vNew) ==> |kNew.data| <= |vNew.data|)
  }

  /** The part of V the kernel reads. */
  function ValueBytes(kNew: Tensor, vNew: Tensor): (bytes: seq<byte>)
    requires |kNew.data| <= |vNew.data|
    ensures |bytes| == |kNew.data|
  {
    vNew.data[..|kNew.data|]
  }

  predicate InDims(dims: seq<nat>, t: nat, h: nat, d: nat) {
    |dims| == 3 && t < dims[0] && h < dims[1] && d < dims[2]
  }

  /** Index of element (t, h, d) in a tensor laid out row after row. */
  function ElementIndex(dims: seq<nat>, t: nat, h: nat, d: nat): nat
    requires |dims| == 3
  {
    (t * dims[1] + h) * dims[2] + d
  }

  /** Element (t, h, d) of V is what the kernel reads for (t, h, d): it reads V by K's
      dimensions. */
  ghost predicate ReadInPlace(kNew: Tensor, vNew: Tensor, t: nat, h: nat, d: nat)
    requires |kNew.dims| == |vNew.dims| == 3
  {
    InDims(kNew.dims, t, h, d) && ElementIndex(kNew.dims, t, h, d) == ElementIndex(vNew.dims, t, h, d)
  }

  /** Of an append that the storage accepts, every element of V is read in its own place
      exactly when V has K's dimensions; the code compares only the token counts. */
  lemma ValuesReadExactly(cfg: KVCacheConfig, kNew: Tensor, vNew: Tensor)
    requires ValidConfig(cfg) && WellFormed(kNew) && WellFormed(vNew) && |vNew.dims| == 3
    requires ShapeAccepted(cfg, kNew, vNew) && AppendInputs(cfg, kNew, vNew) && kNew.dims[0] == vNew.dims[0] > 0
    ensures (forall t, h, d :: InDims(vNew.dims, t, h, d) ==> ReadInPlace(kNew, vNew, t, h, d))
       <==> vNew.dims == kNew.dims
  {
    var n, eb := kNew.dims[0], DtypeSize(cfg.dtype);
    var heads, width, heads', width' := kNew.dims[1], kNew.dims[2], vNew.dims[1], vNew.dims[2];
    PerToken(n, heads, width, heads', width', eb);
    if forall t, h, d :: InDims(vNew.dims, t, h, d) ==> ReadInPlace(kNew, vNew, t, h, d) {
      assert InDims(vNew.dims, 0, heads' - 1, width' - 1);
      assert ReadInPlace(kNew, vNew, 0, heads' - 1, width' - 1);
      SmallerFits(heads, width, heads', width');
      assert vNew.dims == [n, heads', width'] && kNew.dims == [n, heads, width];
    }
  }

  /** At least as many bytes for the same number of tokens: at least as many elements each. */
  lemma PerToken(n: nat, heads: nat, width: nat, heads': nat, width': nat, eb: nat)
    requires n > 0 && eb > 0 && heads > 0 && width > 0
    requires n * (heads * (width * eb)) <= n * (heads' * (width' * eb))
    ensures heads * width <= heads' * width' && heads' > 0 && width' > 0
  {
    var x, y := heads * width, heads' * width';
    assert heads * (width * eb) == x * eb && heads' * (width' * eb) == y * eb;
    if x > y {
      MulMono(y + 1, x, eb);
      assert (y + 1) * eb == y * eb + eb;
      MulMono(y * eb + 1, x * eb, n);
      assert n * (y * eb + 1) == n * (y * eb) + n;
    }
    MulMono(1, heads, width);
  }

  lemma SmallerFits(heads: nat, width: nat, heads': nat, width': nat)
    requires 0 < heads' <= heads && 0 < width' <= width && heads * width <= heads' * width'
    ensures heads' == heads && width' == width
  {
    MulMono(heads', heads, width);
    MulMono(width', width, heads');
    assert (heads' + 1) * width == heads' * width + width;
    assert (width' + 1) * heads' == width' * heads' + heads';
    if heads' < heads {
      MulMono(heads' + 1, heads, width);
    } else if width' < width {
      MulMono(width' + 1, width, heads');
    }
  }

  /** What is stored for (t, h, d) are the bytes of V at the place K's dimensions give. */
  lemma StoredValueByte(cfg: KVCacheConfig, kNew: Tensor, vNew: Tensor, t: nat, h: nat, d: nat, i: nat)
    requires ValidConfig(cfg) && WellFormed(kNew) && ShapeAccepted(cfg, kNew, vNew) && AppendInputs(cfg, kNew, vNew)
    requires InDims(kNew.dims, t, h, d) && i < DtypeSize(cfg.dtype)
    ensures |ValueBytes(kNew, vNew)| == kNew.dims[0] * TokenSize(cfg)
    ensures var eb := DtypeSize(cfg.dtype);
            && (h * cfg.headDim + d) * eb + i < TokenSize(cfg)
            && ElementIndex(kNew.dims, t, h, d) * eb + i < |vNew.data|
            && Rows(ValueBytes(kNew, vNew), TokenSize(cfg), kNew.dims[0])[t][(h * cfg.headDim + d) * eb + i]
               == vNew.data[ElementIndex(kNew.dims, t, h, d) * eb + i]
  {
    var eb, w := DtypeSize(cfg.dtype), TokenSize(cfg);
    assert kNew.dims == [kNew.dims[0], cfg.numKvHeads, cfg.headDim];
    CheckedSize(cfg, kNew, kNew.dims[0]);
    ElementByte(cfg.numKvHeads, cfg.headDim, eb, t, h, d, i);
    RowsByte(ValueBytes(kNew, vNew), w, kNew.dims[0], t, (h * cfg.headDim + d) * eb + i);
  }

  lemma ElementByte(heads: nat, width: nat, eb: nat, t: nat, h: nat, d: nat, i: nat)
    requires h < heads && d < width && i < eb
    ensures (h * width + d) * eb + i < heads * (width * eb)
    ensures ((t * heads + h) * width + d) * eb + i == t * (heads * (width * eb)) + ((h * width + d) * eb + i)
  {
    RowFits(h, heads, width);
    RowFits(h * width + d, heads * width, eb);
    assert (heads * width) * eb == heads * (width * eb);
    assert (t * heads + h) * width == t * (heads * width) + h * width;
    assert (t * (heads * width) + (h * width + d)) * eb == t * (heads * width) * eb + (h * width + d) * eb;
  }

  /** A tensor that passed the checks holds one row per token. */
  lemma CheckedSize(cfg: KVCacheConfig, t: Tensor, numTokens: nat)
    requires ValidConfig(cfg) && WellFormed(t) && t.dtype == cfg.dtype
    requires t.dims == [numTokens, cfg.numKvHeads, cfg.headDim]
    ensures |t.data| == numTokens * TokenSize(cfg)
  {
  }

  /** One zeroed K and one zeroed V buffer per layer, all distinct. */
  method ZeroedLayers(n: nat, numLayers: nat) returns (ks: seq<array<byte>>, vs: seq<array<byte>>)
    ensures |ks| == |vs| == numLayers
    ensures forall l :: 0 <= l < numLayers ==> fresh(ks[l]) && fresh(vs[l]) && ks[l].Length == vs[l].Length == n
    ensures forall l, l' :: 0 <= l < numLayers && 0 <= l' < numLayers ==> ks[l] != vs[l']
    ensures forall l, l' :: 0 <= l < l' < numLayers ==> ks[l] != ks[l'] && vs[l] != vs[l']
    ensures forall l :: 0 <= l < numLayers ==> ks[l][..] == vs[l][..] == ZeroRow(n)
  {
    ks, vs := [], [];
    for layer := 0 to numLayers
      invariant |ks| == |vs| == layer
      invariant forall l :: 0 <= l < layer ==> fresh(ks[l]) && fresh(vs[l]) && ks[l].Length == vs[l].Length == n
      invariant forall l, l' :: 0 <= l < layer && 0 <= l' < layer ==> ks[l] != vs[l']
      invariant forall l, l' :: 0 <= l < l' < layer ==> ks[l] != ks[l'] && vs[l] != vs[l']
      invariant forall l :: 0 <= l < layer ==> ks[l][..] == vs[l][..] == ZeroRow(n)
    {
      var k := new byte[n](i => 0);
      var v := new byte[n](i => 0);
      assert k[..] == v[..] == ZeroRow(n);
      ks, vs := ks + [k], vs + [v];
    }
  }

  /** The layers of a new cache: all slots zero. */
  function FreshLayers(cfg: KVCacheConfig): (layers: seq<seq<Row>>)
    requires ValidConfig(cfg)
    ensures |layers| == cfg.numLayers
  {
    seq(cfg.numLayers, l => seq(SlotCount(cfg), s => ZeroRow(TokenSize(cfg))))
  }

  /** Whether Create refuses: configuration, memory budget, then the layer buffers. */
  function CreateCheck(cfg: KVCacheConfig, budgetOk: bool, layersOk: bool): (st: Status)
    ensures st.Ok? <==> ValidConfig(cfg) && budgetOk && layersOk
  {
    if ValidateConfig(cfg).Err? then ValidateConfig(cfg)
    else if !budgetOk || !layersOk then Err(KVCapacityExceeded)
    else Ok
  }

  class Storage {
    const cfg: KVCacheConfig
    const kLayers: seq<array<byte>>
    const vLayers: seq<array<byte>>

    ghost predicate Valid() {
      && ValidConfig(cfg)
      && |kLayers| == |vLayers| == cfg.numLayers
      && (forall l :: 0 <= l < |kLayers| ==> kLayers[l].Length == vLayers[l].Length == SlotCount(cfg) * TokenSize(cfg))
      && (forall l, l' :: 0 <= l < |kLayers| && 0 <= l' < |vLayers| ==> kLayers[l] != vLayers[l'])
      && (forall l, l' :: 0 <= l < l' < |kLayers| ==> kLayers[l] != kLayers[l'] && vLayers[l] != vLayers[l'])
    }

    ghost function Buffers(): set<object> {
      (set a | a in kLayers) + (set a | a in vLayers)
    }

    /** Layer l of K as one row of bytes per slot. */
    ghost function KRows(l: nat): (rows: seq<Row>)
      requires Valid() && l < |kLayers|
      reads kLayers[l]
      ensures |rows| == SlotCount(cfg)
    {
      Rows(kLayers[l][..], TokenSize(cfg), SlotCount(cfg))
    }

    ghost function VRows(l: nat): (rows: seq<Row>)
      requires Valid() && l < |vLayers|
      reads vLayers[l]
      ensures |rows| == SlotCount(cfg)
    {
      Rows(vLayers[l][..], TokenSize(cfg), SlotCount(cfg))
    }

    /** All layers of K, as rows. */
    ghost function K(): (layers: seq<seq<Row>>)
      requires Valid()
      reads kLayers
      ensures |layers| == |kLayers|
      ensures forall l :: 0 <= l < |kLayers| ==> layers[l] == KRows(l)
    {
      seq(|kLayers|, l requires 0 <= l < |kLayers| && Valid() reads kLayers => KRows(l))
    }

    ghost function V(): (layers: seq<seq<Row>>)
      requires Valid()
      reads vLayers
      ensures |layers| == |vLayers|
      ensures forall l :: 0 <= l < |vLayers| ==> layers[l] == VRows(l)
    {
      seq(|vLayers|, l requires 0 <= l < |vLayers| && Valid() reads vLayers => VRows(l))
    }

    constructor (cfg: KVCacheConfig)
      requires ValidConfig(cfg)
      ensures Valid() && this.cfg == cfg
      ensures fresh(Buffers())
      ensures K() == V() == FreshLayers(cfg)
    {
      var ks, vs := ZeroedLayers(SlotCount(cfg) * TokenSize(cfg), cfg.numLayers);
      this.cfg := cfg;
      kLayers, vLayers := ks, vs;
      new;
      hide SlotCount, TokenSize, Rows, ZeroRow, FreshLayers;
      ZeroBuffersAreFresh(this);
    }

    /** KVCache::Create: refused as CreateCheck says, zeroed buffers otherwise. */
    static method Create(cfg: KVCacheConfig, budgetOk: bool, layersOk: bool) returns (r: Result<Storage>)
      ensures CreateCheck(cfg, budgetOk, layersOk).Err? ==> r == Failure(CreateCheck(cfg, budgetOk, layersOk).code)
      ensures CreateCheck(cfg, budgetOk, layersOk).Ok? ==>
                && r.Success? && r.value.Valid() && r.value.cfg == cfg
                && fresh(r.value) && fresh(r.value.Buffers())
                && r.value.K() == r.value.V() == FreshLayers(cfg)
    {
      var check := CreateCheck(cfg, budgetOk, layersOk);
      if check.Err? { return Failure(check.code); }
      var storage := new Storage(cfg);
      r := Success(storage);
    }

    /** Scatter numTokens tokens of one layer to their slots.  `slotBuffer` is whether the
        device slot buffer exists; `launchOk` is whether the kernel launch is accepted. */
    method Append(layer: int, kNew: Tensor, vNew: Tensor, slots: seq<int>, slotBuffer: bool, numTokens: nat,
                  launchOk: bool)
      returns (st: Status)
      requires Valid() && AppendInputs(cfg, kNew, vNew) && |slots| == numTokens
      modifies Buffers()
      ensures st == if AppendCheck(cfg, layer, kNew, vNew, slotBuffer, numTokens).Err?
                    then AppendCheck(cfg, layer, kNew, vNew, slotBuffer, numTokens)
                    else if numTokens == 0 || !launchOk then Err(LaunchFailed) else Ok
      ensures st.Ok? <==>
                && 0 <= layer < cfg.numLayers && kNew.dtype == vNew.dtype == cfg.dtype
                && kNew.dims == [numTokens, cfg.numKvHeads, cfg.headDim] && numTokens > 0 && slotBuffer && launchOk
      ensures st.Ok? ==>
                && |kNew.data| == |slots| * TokenSize(cfg) <= |vNew.data|
                && Scattered(old(kLayers[layer][..]), kLayers[layer][..], kNew.data, slots, TokenSize(cfg))
                && Scattered(old(vLayers[layer][..]), vLayers[layer][..], ValueBytes(kNew, vNew), slots, TokenSize(cfg))
      ensures forall l :: 0 <= l < |kLayers| && !(st.Ok? && l == layer)
                ==> kLayers[l][..] == old(kLayers[l][..]) && vLayers[l][..] == old(vLayers[l][..])
    {
      var check := AppendCheck(cfg, layer, kNew, vNew, slotBuffer, numTokens);
      if check.Err? { return check; }
      if numTokens == 0 || !launchOk { return Err(LaunchFailed); }
      assert kNew.dims == [numTokens, cfg.numKvHeads, cfg.headDim];
      CheckedSize(cfg, kNew, numTokens);
      hide Scattered;
      LaunchKvAppend(kLayers[layer], vLayers[layer], kNew.data, ValueBytes(kNew, vNew), slots, ShapeOf(cfg),
                     DtypeSize(cfg.dtype));
      st := Ok;
    }

    /** Zero the listed blocks in every layer, layer after layer; `okLayers` is how many
        launches are accepted before one is refused. */
    method Reset(ids: seq<int>, okLayers: nat) returns (st: Status)
      requires Valid()
      modifies Buffers()
      ensures st == if |ids| > 0 && okLayers < cfg.numLayers then Err(LaunchFailed) else Ok
      ensures forall l :: 0 <= l < |kLayers| ==>
                if l < okLayers
                then KRows(l) == ZeroBlocks(old(KRows(l)), ids, cfg.blockSize, TokenSize(cfg))
                  && VRows(l) == ZeroBlocks(old(VRows(l)), ids, cfg.blockSize, TokenSize(cfg))
                else KRows(l) == old(KRows(l)) && VRows(l) == old(VRows(l))
    {
      hide Rows, TokenSize, SlotCount;
      if |ids| <= 0 {
        forall l | 0 <= l < |kLayers|
          ensures ZeroBlocks(KRows(l), ids, cfg.blockSize, TokenSize(cfg)) == KRows(l)
          ensures ZeroBlocks(VRows(l), ids, cfg.blockSize, TokenSize(cfg)) == VRows(l)
        {
        }
        return Ok;
      }
      for layer := 0 to cfg.numLayers
        invariant layer <= okLayers
        invariant forall l :: 0 <= l < layer ==>
                    && KRows(l) == ZeroBlocks(old(KRows(l)), ids, cfg.blockSize, TokenSize(cfg))
                    && VRows(l) == ZeroBlocks(old(VRows(l)), ids, cfg.blockSize, TokenSize(cfg))
        invariant forall l :: layer <= l < |kLayers| ==>
                    kLayers[l][..] == old(kLayers[l][..]) && vLayers[l][..] == old(vLayers[l][..])
      {
        if layer >= okLayers { return Err(LaunchFailed); }
        ZeroLayer(layer, ids);
      }
      st := Ok;
    }

    method ZeroLayer(layer: nat, ids: seq<int>)
      requires Valid() && layer < |kLayers|
      modifies kLayers[layer], vLayers[layer]
      ensures KRows(layer) == ZeroBlocks(old(KRows(layer)), ids, cfg.blockSize, TokenSize(cfg))
      ensures VRows(layer) == ZeroBlocks(old(VRows(layer)), ids, cfg.blockSize, TokenSize(cfg))
    {
      hide DtypeSize;
      var k, v := kLayers[layer], vLayers[layer];
      ghost var kBuf, vBuf := k[..], v[..];
      var blockBytes := cfg.blockSize * TokenSize(cfg);
      BlockOfByte(0, 0, cfg.blockSize, TokenSize(cfg));
      assert k.Length == cfg.numBlocks * blockBytes;
      LaunchKvReset(k, v, ids, ShapeOf(cfg), blockBytes);
      ZeroedIsZeroBlocks(kBuf, k[..], ids, cfg.blockSize, TokenSize(cfg), SlotCount(cfg));
      ZeroedIsZeroBlocks(vBuf, v[..], ids, cfg.blockSize, TokenSize(cfg), SlotCount(cfg));
    }

    /** GatherK / GatherV: the listed blocks, one after the other, zeros for an id
        outside the pool.  The output allocation or the launch may be refused. */
    method Gather(layer: int, ids: seq<int>, isKey: bool, allocOk: bool, launchOk: bool)
      returns (r: Result<array<byte>>)
      requires Valid()
      ensures r.Failure? <==> layer < 0 || layer >= cfg.numLayers || |ids| == 0 || !allocOk || !launchOk
      ensures r.Failure? ==>
                r.code == if layer < 0 || layer >= cfg.numLayers || |ids| == 0 then ShapeMismatch
                          else if !allocOk then WorkspaceExceeded else LaunchFailed
      ensures r.Success? ==>
                && BlockBytes(ShapeOf(cfg), DtypeSize(cfg.dtype)) > 0
                && r.value.Length == |ids| * BlockBytes(ShapeOf(cfg), DtypeSize(cfg.dtype))
                && (if isKey then kLayers[layer] else vLayers[layer]).Length
                   == cfg.numBlocks * BlockBytes(ShapeOf(cfg), DtypeSize(cfg.dtype))
                && forall n :: 0 <= n < r.value.Length ==>
                     r.value[n] == GatheredByte(ShapeOf(cfg), BlockBytes(ShapeOf(cfg), DtypeSize(cfg.dtype)),
                                                (if isKey then kLayers[layer] else vLayers[layer])[..], ids, n)
    {
      if layer < 0 || layer >= cfg.numLayers { return Failure(ShapeMismatch); }
      if |ids| <= 0 { return Failure(ShapeMismatch); }
      if !allocOk { return Failure(WorkspaceExceeded); }
      if !launchOk { return Failure(LaunchFailed); }
      hide GatheredByte;
      SizesPositive(ShapeOf(cfg), DtypeSize(cfg.dtype));
      var blockBytes := BlockBytes(ShapeOf(cfg), DtypeSize(cfg.dtype));
      var src := if isKey then kLayers[layer] else vLayers[layer];
      assert src.Length == cfg.numBlocks * blockBytes;
      var out := LaunchKvGather(src, ids, ShapeOf(cfg), blockBytes);
      r := Success(out);
    }
  }

  lemma ZeroBuffersAreFresh(st: Storage)
    requires st.Valid()
    requires forall l :: 0 <= l < |st.kLayers| ==>
               st.kLayers[l][..] == st.vLayers[l][..] == ZeroRow(SlotCount(st.cfg) * TokenSize(st.cfg))
    ensures st.K() == st.V() == FreshLayers(st.cfg)
  {
    ZeroedRows(SlotCount(st.cfg), TokenSize(st.cfg));
    hide SlotCount, TokenSize, Rows, ZeroRow;
    assert st.K() == FreshLayers(st.cfg);
    assert st.V() == FreshLayers(st.cfg);
  }

  lemma ZeroedRows(n: nat, w: nat)
    ensures Rows(ZeroRow(n * w), w, n) == seq(n, s => ZeroRow(w))
  {
    var buf := ZeroRow(n * w);
    forall s | 0 <= s < n ensures Rows(buf, w, n)[s] == ZeroRow(w) {
      RowInside(buf, w, n, s);
      assert Rows(buf, w, n)[s] == ZeroRow(w);
    }
  }
}
