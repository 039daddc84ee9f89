/** Paged decode attention: how the launch parameters are wired to the cache, and the
    theorem that the output is plain attention over the tokens the cache was given. */
module PagedAttention {
  import opened Arith
  import opened Softmax
  import opened DecodeGeometry
  import opened DecodeModel
  import opened DecodeKernels
  import opened KvKernels
  import C = KvConfig
  import L = Layout
  import opened SlotRows
  import opened BlockPool
  import opened CacheModel
  import opened CacheInvariant
  import opened CacheRefinement
  import CacheRuns
  import CacheFacts
  import opened OnlineSoftmax
  import opened SplitMerge
  import P = PagedKVCache

  // ---------------------------------------------------------------------------
  // Elements of a byte buffer
  // ---------------------------------------------------------------------------

  /** The elements of a byte buffer, each read by ToFloat from elemBytes bytes. */
  function Elements(toFloat: seq<byte> -> real, eb: nat, bytes: seq<byte>, n: nat): (xs: seq<real>)
    requires |bytes| == n * eb
    ensures |xs| == n
  {
    seq(n, i requires 0 <= i < n => RowInside(bytes, eb, n, i); toFloat(RowAt(bytes, eb, i)))
  }

  /** The elements of slot s of a layer are the elements of its row. */
  lemma ElementsOfRow(toFloat: seq<byte> -> real, eb: nat, bytes: seq<byte>, perSlot: nat, slots: nat, s: nat, i: nat)
    requires |bytes| == slots * (perSlot * eb) && s < slots && i < perSlot
    ensures |bytes| == (slots * perSlot) * eb && s * perSlot + i < slots * perSlot
    ensures (s + 1) * (perSlot * eb) <= |bytes|
    ensures Elements(toFloat, eb, bytes, slots * perSlot)[s * perSlot + i]
         == Elements(toFloat, eb, RowAt(bytes, perSlot * eb, s), perSlot)[i]
  {
    RowFits(s, slots, perSlot);
    assert (slots * perSlot) * eb == slots * (perSlot * eb);
    RowOfRow(bytes, eb, perSlot, slots, s, i);
  }

  // ---------------------------------------------------------------------------
  // Group of query heads
  // ---------------------------------------------------------------------------

  /** The group size is at least one and every query head maps to an existing KV head
      exactly when the KV head count divides the query head count; the paged entry point
      itself does not check it, and divides by the group size. */
  lemma GroupExact(p: DecodeFwdParams)
    requires p.numHeads > 0 && p.numKvHeads > 0
    ensures (&& p.numKvHeads <= p.numHeads
             && forall h :: 0 <= h < p.numHeads ==> KvHead(p, h) < p.numKvHeads)
       <==> p.numHeads % p.numKvHeads == 0
  {
    var numHeads, numKvHeads := p.numHeads, p.numKvHeads;
    var g, r := numHeads / numKvHeads, numHeads % numKvHeads;
    DivModOf(numHeads, numKvHeads);
    assert numHeads == numKvHeads * g + r;
    if numHeads < numKvHeads {
      DivModIs(numHeads, numKvHeads, 0, numHeads);
    } else {
      if g <= 0 { MulMono(g, 0, numKvHeads); }
      if r == 0 {
        forall h | 0 <= h < numHeads ensures h / g < numKvHeads {
          DivBelow(h, numKvHeads, g);
        }
      } else {
        var h := numHeads - 1;
        MulMono(1, g, 1);
        GroupOverflow(h, g, numKvHeads);
        assert KvHead(p, h) >= numKvHeads;
      }
    }
  }

  lemma GroupOverflow(h: nat, g: nat, n: nat)
    requires g > 0 && h >= n * g
    ensures h / g >= n
  {
    DivModOf(h, g);
    assert (h / g + 1) * g == (h / g) * g + g;
    if h / g < n {
      MulMono(h / g + 1, n, g);
    }
  }

  // ---------------------------------------------------------------------------
  // Parameters of a paged launch
  // ---------------------------------------------------------------------------

  /** Query tensor [num_seqs, H_q, seq_q, D]: element type, and the elements after ToFloat. */
  datatype Query = Query(dims: seq<nat>, dtype: C.DType, data: seq<real>)

  /** What the caller chooses: layer, lengths, scale and split count; with the square root of
      the head dimension and the multiprocessor count as the environment gives them. */
  datatype Request = Request(layer: int, seqLens: Option<seq<nat>>, scale: real, numSplits: int, rootDim: real,
                             smCount: int)

  /** The configured scale if it is positive, and one over the root of the head dimension
      otherwise. */
  function EffectiveScale(r: Request): real {
    if r.scale > 0.0 then r.scale else if r.rootDim > 0.0 then 1.0 / r.rootDim else 0.0
  }

  /** A positive scale of the request is used as it is; otherwise the square of the scale
      times the head dimension is one. */
  lemma EffectiveScaleIs(r: Request, headDim: nat)
    requires r.rootDim > 0.0 && r.rootDim * r.rootDim == headDim as real
    ensures EffectiveScale(r) > 0.0
    ensures if r.scale > 0.0 then EffectiveScale(r) == r.scale
            else EffectiveScale(r) * EffectiveScale(r) * headDim as real == 1.0
  {
    var t := 1.0 / r.rootDim;
    assert t * r.rootDim == 1.0;
    assert t * t * (r.rootDim * r.rootDim) == (t * r.rootDim) * (t * r.rootDim);
  }

  function SplitCount(cfg: C.KVCacheConfig, r: Request): (n: nat)
    requires C.ValidConfig(cfg)
    ensures 1 <= n <= MAX_SPLITS
  {
    if r.numSplits > 0 then (if r.numSplits < MAX_SPLITS then r.numSplits else MAX_SPLITS)
    else SplitsFor(cfg.numBlocks * cfg.blockSize, r.smCount)
  }

  /** The checks of the entry point. */
  predicate Accepted(cfg: C.KVCacheConfig, q: Query, r: Request) {
    && |q.dims| == 4 && q.dims[2] == 1
    && 0 < q.dims[0] <= cfg.maxNumSeqs
    && 0 <= r.layer < cfg.numLayers
    && C.IsSupportedComputeDtype(q.dtype)
    && q.dims[3] in {32, 64, 96, 128, 160, 192, 256}
  }

  /** The query tensor has its dimensions' elements, and there is one length per sequence. */
  ghost predicate QueryShaped(q: Query, r: Request) {
    |q.dims| == 4 ==>
      && |q.data| == q.dims[0] * (q.dims[1] * (q.dims[2] * q.dims[3]))
      && (r.seqLens.Some? ==> |r.seqLens.value| == q.dims[0])
  }

  /** Whole groups of heads, and rows no wider than the cache's when the cache's bytes are
      read as the query's element type. */
  ghost predicate QueryFits(cfg: C.KVCacheConfig, q: Query)
    requires C.ValidConfig(cfg) && |q.dims| == 4 && C.IsSupportedComputeDtype(q.dtype)
  {
    q.dims[1] > 0 && q.dims[1] % cfg.numKvHeads == 0 && q.dims[3] <= RowElements(cfg, q.dtype)
  }

  /** Elements of type t in one head's bytes of the cache. */
  function RowElements(cfg: C.KVCacheConfig, t: C.DType): (n: nat)
    requires C.ValidConfig(cfg) && C.IsSupportedComputeDtype(t)
    ensures n * C.DtypeSize(t) == cfg.headDim * C.DtypeSize(cfg.dtype)
    ensures t == cfg.dtype ==> n == cfg.headDim
  {
    (cfg.headDim * C.DtypeSize(cfg.dtype)) / C.DtypeSize(t)
  }

  /** Elements of type t in one layer's bytes. */
  function LayerCount(cfg: C.KVCacheConfig, t: C.DType): (n: nat)
    requires C.ValidConfig(cfg) && C.IsSupportedComputeDtype(t)
    ensures n * C.DtypeSize(t) == C.SlotCount(cfg) * C.TokenSize(cfg)
    ensures t == cfg.dtype ==> n == C.SlotCount(cfg) * PerSlot(cfg)
  {
    LayerCountBytes(C.SlotCount(cfg), cfg.numKvHeads, RowElements(cfg, t), C.DtypeSize(t));
    assert C.TokenSize(cfg) == cfg.numKvHeads * (cfg.headDim * C.DtypeSize(cfg.dtype));
    C.SlotCount(cfg) * (cfg.numKvHeads * RowElements(cfg, t))
  }

  lemma LayerCountBytes(slots: nat, heads: nat, n: nat, eb: nat)
    ensures (slots * (heads * n)) * eb == slots * (heads * (n * eb))
  {
    MulAssociates(slots, heads * n, eb);
    MulAssociates(heads, n, eb);
  }

  function PerSlot(cfg: C.KVCacheConfig): nat
    requires C.ValidConfig(cfg)
  {
    cfg.numKvHeads * cfg.headDim
  }

  /** The launch parameters, from the K and V elements of the layer and the page table. */
  function LaunchParams(cfg: C.KVCacheConfig, ks: seq<real>, vs: seq<real>, table: seq<int>, q: Query, r: Request)
    : DecodeFwdParams
    requires C.ValidConfig(cfg) && |q.dims| == 4
  {
    var numSeqs, numHeads, headDim := q.dims[0], q.dims[1], q.dims[3];
    var splits := SplitCount(cfg, r);
    var base := numSeqs * numHeads * splits;
    var qStride := Strides(numHeads * q.dims[2] * headDim, q.dims[2] * headDim, headDim);
    var kvStride := Strides(0, headDim, cfg.numKvHeads * headDim);
    DecodeFwdParams(q.data, ks, vs, 0, base, 2 * base, numSeqs, numHeads, cfg.numKvHeads, cfg.numBlocks * cfg.blockSize,
                    headDim, splits, qStride, kvStride, kvStride, qStride, EffectiveScale(r),
                    Some(table), cfg.blockSize, cfg.numBlocks, cfg.numBlocks, r.seqLens, q.dtype)
  }

  /** Everything a paged launch is given. */
  ghost predicate LaunchSized(cfg: C.KVCacheConfig, ks: seq<real>, vs: seq<real>, table: seq<int>, q: Query,
                              r: Request) {
    && C.ValidConfig(cfg) && Accepted(cfg, q, r) && QueryShaped(q, r)
    && |ks| == |vs| == LayerCount(cfg, q.dtype)
    && |table| == cfg.maxNumSeqs * cfg.numBlocks
  }

  /** The same, and no read leaves a buffer. */
  ghost predicate LaunchInputs(cfg: C.KVCacheConfig, ks: seq<real>, vs: seq<real>, table: seq<int>, q: Query,
                               r: Request) {
    LaunchSized(cfg, ks, vs, table, q, r) && Readable(LaunchParams(cfg, ks, vs, table, q, r))
  }

  lemma QueryRowFits(cfg: C.KVCacheConfig, ks: seq<real>, vs: seq<real>, table: seq<int>, q: Query, r: Request,
                     b: nat, h: nat)
    requires LaunchSized(cfg, ks, vs, table, q, r) && b < q.dims[0] && h < q.dims[1]
    ensures QStart(LaunchParams(cfg, ks, vs, table, q, r), b, h) + q.dims[3] <= |q.data|
  {
    var p := LaunchParams(cfg, ks, vs, table, q, r);
    assert QStart(p, b, h) == b * (q.dims[1] * q.dims[3]) + h * q.dims[3];
    RowFits(h, q.dims[1], q.dims[3]);
    RowFits(b, q.dims[0], q.dims[1] * q.dims[3]);
  }

  lemma TableFits(cfg: C.KVCacheConfig, ks: seq<real>, vs: seq<real>, table: seq<int>, q: Query, r: Request, b: nat,
                  j: nat)
    requires LaunchSized(cfg, ks, vs, table, q, r) && b < q.dims[0]
    ensures TableReadable(LaunchParams(cfg, ks, vs, table, q, r), b, j)
  {
    RowFits(b, cfg.maxNumSeqs, cfg.numBlocks);
  }

  /** A row the page table yields is a slot of the pool. */
  lemma RowIsSlot(table: seq<int>, b: nat, j: nat, blockSize: nat, width: nat, numKvBlocks: nat)
    requires blockSize > 0
    requires j / blockSize < width ==> b * width + j / blockSize < |table|
    ensures PageTableRow(table, b, j, blockSize, width, numKvBlocks) < numKvBlocks * blockSize
         || PageTableRow(table, b, j, blockSize, width, numKvBlocks) < 0
  {
    var physical := PageTableLookup(table, b, j, blockSize, width);
    if 0 <= physical < numKvBlocks {
      RowFits(physical, numKvBlocks, blockSize);
    }
  }

  lemma KvHeadBelow(cfg: C.KVCacheConfig, ks: seq<real>, vs: seq<real>, table: seq<int>, q: Query, r: Request, h: nat)
    requires LaunchSized(cfg, ks, vs, table, q, r) && QueryFits(cfg, q) && h < q.dims[1]
    ensures cfg.numKvHeads <= q.dims[1]
    ensures KvHead(LaunchParams(cfg, ks, vs, table, q, r), h) < cfg.numKvHeads
  {
    DivModOf(q.dims[1], cfg.numKvHeads);
    MulMono(1, q.dims[1] / cfg.numKvHeads, cfg.numKvHeads);
    GroupExact(LaunchParams(cfg, ks, vs, table, q, r));
  }

  lemma KvRowFits(cfg: C.KVCacheConfig, ks: seq<real>, vs: seq<real>, table: seq<int>, q: Query, r: Request, b: nat,
                  h: nat, j: nat)
    requires LaunchSized(cfg, ks, vs, table, q, r) && QueryFits(cfg, q) && b < q.dims[0] && h < q.dims[1]
    ensures cfg.numKvHeads <= q.dims[1]
    ensures TableReadable(LaunchParams(cfg, ks, vs, table, q, r), b, j)
    ensures RowReadable(LaunchParams(cfg, ks, vs, table, q, r), b, h, j)
  {
    var p := LaunchParams(cfg, ks, vs, table, q, r);
    KvHeadBelow(cfg, ks, vs, table, q, r, h);
    TableFits(cfg, ks, vs, table, q, r, b, j);
    var row := TokenRow(p, b, j);
    RowIsSlot(table, b, j, cfg.blockSize, cfg.numBlocks, cfg.numBlocks);
    if row >= 0 {
      RowFits(KvHead(p, h), cfg.numKvHeads, q.dims[3]);
      RowFits(row, C.SlotCount(cfg), cfg.numKvHeads * q.dims[3]);
      NarrowRows(C.SlotCount(cfg), cfg.numKvHeads, q.dims[3], RowElements(cfg, q.dtype));
    }
  }

  lemma NarrowRows(slots: nat, heads: nat, d: nat, headDim: nat)
    requires d <= headDim
    ensures slots * (heads * d) <= slots * (heads * headDim)
  {
    MulMono(d, headDim, heads);
    MulMono(heads * d, heads * headDim, slots);
  }

  /** Element x of head hkv of a slot is read from the bytes where the cache stores it. */
  ghost predicate ReadWhereStored(cfg: C.KVCacheConfig, p: DecodeFwdParams, hkv: nat, slot: nat, x: nat)
    requires C.ValidConfig(cfg)
  {
    && x < cfg.headDim && C.DtypeSize(p.dtype) == C.DtypeSize(cfg.dtype)
    && (RowStart(p.kStride, 0, hkv, slot) + x) * C.DtypeSize(p.dtype)
       == (RowStart(KvStrides(cfg), 0, hkv, slot) + x) * C.DtypeSize(cfg.dtype)
  }

  /** Every element the launch reads of every head of every slot. */
  ghost predicate AllReadWhereStored(cfg: C.KVCacheConfig, p: DecodeFwdParams)
    requires C.ValidConfig(cfg)
  {
    forall hkv, slot, x :: 0 <= hkv < cfg.numKvHeads && 0 <= slot < C.SlotCount(cfg) && 0 <= x < p.headDim ==>
      ReadWhereStored(cfg, p, hkv, slot, x)
  }

  /** The entry point compares neither the head dimension nor the element type of the query
      with the cache's.  The launch reads K and V where the cache stores them exactly when
      the element sizes agree and the head dimensions do, or when a single head of a single
      slot is read by a narrower query. */
  lemma StridesMatchExactly(cfg: C.KVCacheConfig, ks: seq<real>, vs: seq<real>, table: seq<int>, q: Query, r: Request)
    requires C.ValidConfig(cfg) && Accepted(cfg, q, r)
    ensures var p := LaunchParams(cfg, ks, vs, table, q, r);
            AllReadWhereStored(cfg, p)
            <==> && C.DtypeSize(q.dtype) == C.DtypeSize(cfg.dtype)
                 && (|| q.dims[3] == cfg.headDim
                     || (q.dims[3] < cfg.headDim && C.SlotCount(cfg) == 1 && cfg.numKvHeads == 1))
  {
    var p, d := LaunchParams(cfg, ks, vs, table, q, r), q.dims[3];
    ParamsAre(cfg, ks, vs, table, q, r);
    hide LaunchParams;
    if AllReadWhereStored(cfg, p) {
      ReadImpliesMatch(cfg, p, d);
    }
    if C.DtypeSize(q.dtype) == C.DtypeSize(cfg.dtype)
       && (d == cfg.headDim || (d < cfg.headDim && C.SlotCount(cfg) == 1 && cfg.numKvHeads == 1))
    {
      MatchImpliesRead(cfg, p, d);
    }
  }

  lemma ReadImpliesMatch(cfg: C.KVCacheConfig, p: DecodeFwdParams, d: nat)
    requires C.ValidConfig(cfg) && AllReadWhereStored(cfg, p)
    requires d > 0 && p.headDim == d && p.kStride == Strides(0, d, cfg.numKvHeads * d)
    ensures C.DtypeSize(p.dtype) == C.DtypeSize(cfg.dtype) && d <= cfg.headDim
    ensures d < cfg.headDim ==> C.SlotCount(cfg) == 1 && cfg.numKvHeads == 1
  {
    FirstHeads(d, cfg.numKvHeads);
    FirstHeads(cfg.headDim, cfg.numKvHeads);
    hide RowStart, C.SlotCount, C.DtypeSize;
    SlotsPositive(cfg);
    assert ReadWhereStored(cfg, p, 0, 0, d - 1);
    SameScale(d, cfg.headDim, C.DtypeSize(cfg.dtype));
    if cfg.numKvHeads > 1 {
      assert ReadWhereStored(cfg, p, 1, 0, 0);
    } else if C.SlotCount(cfg) > 1 {
      assert ReadWhereStored(cfg, p, 0, 1, 0);
    }
  }

  lemma SlotsPositive(cfg: C.KVCacheConfig)
    requires C.ValidConfig(cfg)
    ensures C.SlotCount(cfg) > 0
  {
    MulMono(1, cfg.numBlocks, cfg.blockSize);
  }

  lemma MatchImpliesRead(cfg: C.KVCacheConfig, p: DecodeFwdParams, d: nat)
    requires C.ValidConfig(cfg) && C.DtypeSize(p.dtype) == C.DtypeSize(cfg.dtype)
    requires p.headDim == d && p.kStride == Strides(0, d, cfg.numKvHeads * d)
    requires d == cfg.headDim || (d < cfg.headDim && C.SlotCount(cfg) == 1 && cfg.numKvHeads == 1)
    ensures AllReadWhereStored(cfg, p)
  {
    FirstHeads(d, cfg.numKvHeads);
    FirstHeads(cfg.headDim, cfg.numKvHeads);
    hide RowStart, C.SlotCount, C.DtypeSize, ReadWhereStored;
    forall hkv, slot, x | 0 <= hkv < cfg.numKvHeads && 0 <= slot < C.SlotCount(cfg) && 0 <= x < p.headDim
      ensures ReadWhereStored(cfg, p, hkv, slot, x)
    {
      if d == cfg.headDim {
        assert p.kStride == KvStrides(cfg);
      } else {
        assert hkv == 0 && slot == 0;
      }
      SameStart(cfg, p, hkv, slot, x);
    }
  }

  lemma SameStart(cfg: C.KVCacheConfig, p: DecodeFwdParams, hkv: nat, slot: nat, x: nat)
    requires C.ValidConfig(cfg) && x < cfg.headDim && C.DtypeSize(p.dtype) == C.DtypeSize(cfg.dtype)
    requires RowStart(p.kStride, 0, hkv, slot) == RowStart(KvStrides(cfg), 0, hkv, slot)
    ensures ReadWhereStored(cfg, p, hkv, slot, x)
  {
    hide RowStart, C.DtypeSize, KvStrides;
  }

  lemma FirstHeads(d: nat, heads: nat)
    ensures RowStart(Strides(0, d, heads * d), 0, 0, 0) == 0
    ensures RowStart(Strides(0, d, heads * d), 0, 1, 0) == d
    ensures heads == 1 ==> RowStart(Strides(0, d, heads * d), 0, 0, 1) == d
  {
  }

  lemma SameScale(x: nat, y: nat, eb: nat)
    requires eb > 0
    ensures x * eb == y * eb <==> x == y
  {
    if x < y { MulMono(x + 1, y, eb); } else if y < x { MulMono(y + 1, x, eb); }
  }

  /** Whatever the page table holds and whatever lengths are given, a fitting query's launch
      stays inside its buffers. */
  lemma LaunchReadable(cfg: C.KVCacheConfig, ks: seq<real>, vs: seq<real>, table: seq<int>, q: Query, r: Request)
    requires LaunchSized(cfg, ks, vs, table, q, r) && QueryFits(cfg, q)
    ensures Readable(LaunchParams(cfg, ks, vs, table, q, r))
  {
    hide RowReadable, TableReadable, QStart;
    var p := LaunchParams(cfg, ks, vs, table, q, r);
    KvHeadBelow(cfg, ks, vs, table, q, r, 0);
    forall b, h | 0 <= b < p.batch && 0 <= h < p.numHeads ensures QStart(p, b, h) + p.headDim <= |p.q| {
      QueryRowFits(cfg, ks, vs, table, q, r, b, h);
    }
    forall b, j | 0 <= b < p.batch && 0 <= j < SeqLen(p, b) ensures TableReadable(p, b, j) {
      TableFits(cfg, ks, vs, table, q, r, b, j);
    }
    forall b, h, j | 0 <= b < p.batch && 0 <= h < p.numHeads && 0 <= j < SeqLen(p, b) ensures RowReadable(p, b, h, j) {
      KvRowFits(cfg, ks, vs, table, q, r, b, h, j);
    }
  }

  /** The m, l and O regions are disjoint and fill PartialElements floats exactly. */
  lemma RegionsDisjoint(cfg: C.KVCacheConfig, ks: seq<real>, vs: seq<real>, table: seq<int>, q: Query, r: Request)
    requires LaunchSized(cfg, ks, vs, table, q, r)
    ensures var p := LaunchParams(cfg, ks, vs, table, q, r);
            && RegionsFit(p, PartialElements(q.dims[0], q.dims[1], SplitCount(cfg, r), q.dims[3]))
            && p.partialO + Requests(p) * p.headDim
               == PartialElements(q.dims[0], q.dims[1], SplitCount(cfg, r), q.dims[3])
  {
    var p := LaunchParams(cfg, ks, vs, table, q, r);
    var base := q.dims[0] * q.dims[1] * SplitCount(cfg, r);
    assert base * (2 + q.dims[3]) == 2 * base + base * q.dims[3];
  }

  lemma OutputRowsFit(cfg: C.KVCacheConfig, ks: seq<real>, vs: seq<real>, table: seq<int>, q: Query, r: Request)
    requires LaunchSized(cfg, ks, vs, table, q, r)
    ensures OutRowsFit(LaunchParams(cfg, ks, vs, table, q, r), |q.data|)
  {
    hide OutStart;
    var p := LaunchParams(cfg, ks, vs, table, q, r);
    forall b, h | 0 <= b < p.batch && 0 <= h < p.numHeads ensures OutStart(p, b, h) + p.headDim <= |q.data| {
      OutIsQuery(p, b, h);
      QueryRowFits(cfg, ks, vs, table, q, r, b, h);
    }
    forall b, h, b', h' | 0 <= b < p.batch && 0 <= h < p.numHeads && 0 <= b' < p.batch && 0 <= h' < p.numHeads
                          && (b != b' || h != h')
      ensures OutStart(p, b, h) + p.headDim <= OutStart(p, b', h')
              || OutStart(p, b', h') + p.headDim <= OutStart(p, b, h)
    {
      OutRowsApart(p, b, h, b', h');
    }
  }

  lemma OutIsQuery(p: DecodeFwdParams, b: nat, h: nat)
    requires p.oStride == p.qStride
    ensures OutStart(p, b, h) == QStart(p, b, h)
  {
  }

  lemma OutIsRow(p: DecodeFwdParams, b: nat, h: nat)
    requires p.oStride.h == p.headDim && p.oStride.b == p.numHeads * p.headDim
    ensures OutStart(p, b, h) == (b * p.numHeads + h) * p.headDim
  {
    assert b * (p.numHeads * p.headDim) == (b * p.numHeads) * p.headDim;
  }

  lemma OutRowsApart(p: DecodeFwdParams, b: nat, h: nat, b': nat, h': nat)
    requires h < p.numHeads && h' < p.numHeads && (b != b' || h != h')
    requires p.oStride.h == p.headDim && p.oStride.b == p.numHeads * p.headDim
    ensures OutStart(p, b, h) + p.headDim <= OutStart(p, b', h') || OutStart(p, b', h') + p.headDim <= OutStart(p, b, h)
  {
    hide OutStart;
    OutIsRow(p, b, h);
    OutIsRow(p, b', h');
    FlatHeadsDiffer(p.numHeads, b, h, b', h');
    WideRowsApart(b * p.numHeads + h, b' * p.numHeads + h', p.headDim);
  }

  lemma FlatHeadsDiffer(n: nat, b: nat, h: nat, b': nat, h': nat)
    requires h < n && h' < n && (b != b' || h != h')
    ensures b * n + h != b' * n + h'
  {
    DivModIs(b * n + h, n, b, h);
    if b * n + h == b' * n + h' {
      DivModIs(b * n + h, n, b', h');
    }
  }

  lemma WideRowsApart(x: nat, y: nat, w: nat)
    requires x != y
    ensures x * w + w <= y * w || y * w + w <= x * w
  {
    if x < y {
      RowFits(x, y, w);
    } else {
      RowFits(y, x, w);
    }
  }

  // ---------------------------------------------------------------------------
  // The tokens the kernel sees are the tokens the cache was given
  // ---------------------------------------------------------------------------

  /** A token as plain attention sees it: score of the query against one KV head of its
      K row, and that head of its V row. */
  function PlainToken(cfg: C.KVCacheConfig, toFloat: seq<byte> -> real, qRow: seq<real>, hkv: nat, scale: real,
                      k: Row, v: Row): (t: Token)
    requires C.ValidConfig(cfg) && |qRow| == cfg.headDim && hkv < cfg.numKvHeads
    requires |k| == |v| == PerSlot(cfg) * C.DtypeSize(cfg.dtype)
    ensures |t.value| == cfg.headDim
  {
    RowFits(hkv, cfg.numKvHeads, cfg.headDim);
    var eb := C.DtypeSize(cfg.dtype);
    Token(Dot(qRow, Slice(Elements(toFloat, eb, k, PerSlot(cfg)), hkv * cfg.headDim, cfg.headDim), 0,
              cfg.headDim) * scale,
          Slice(Elements(toFloat, eb, v, PerSlot(cfg)), hkv * cfg.headDim, cfg.headDim))
  }

  /** Bytes of one token row. */
  lemma RowWidth(cfg: C.KVCacheConfig)
    requires C.ValidConfig(cfg)
    ensures C.TokenSize(cfg) == PerSlot(cfg) * C.DtypeSize(cfg.dtype)
  {
    assert cfg.numKvHeads * (cfg.headDim * C.DtypeSize(cfg.dtype))
           == (cfg.numKvHeads * cfg.headDim) * C.DtypeSize(cfg.dtype);
  }

  /** What an entry shows on layer l has the configured width. */
  ghost predicate EntrySized(cfg: C.KVCacheConfig, l: nat, x: Entry)
    requires C.ValidConfig(cfg)
  {
    |KOn(x, l, C.TokenSize(cfg))| == |VOn(x, l, C.TokenSize(cfg))| == C.TokenSize(cfg)
  }

  ghost predicate EntriesSized(cfg: C.KVCacheConfig, l: nat, xs: seq<Entry>)
    requires C.ValidConfig(cfg)
  {
    forall i :: 0 <= i < |xs| ==> EntrySized(cfg, l, xs[i])
  }

  /** The specification tokens of one sequence as plain attention on layer l sees them. */
  ghost function PlainTokens(cfg: C.KVCacheConfig, toFloat: seq<byte> -> real, qRow: seq<real>, hkv: nat, scale: real,
                             l: nat, xs: seq<Entry>): (ts: seq<Token>)
    requires C.ValidConfig(cfg) && |qRow| == cfg.headDim && hkv < cfg.numKvHeads && EntriesSized(cfg, l, xs)
    ensures |ts| == |xs| && WellShaped(ts, cfg.headDim)
    ensures forall i :: 0 <= i < |xs| ==> ts[i] == PlainEntry(cfg, toFloat, qRow, hkv, scale, l, xs[i])
  {
    seq(|xs|, i requires 0 <= i < |xs| => PlainEntry(cfg, toFloat, qRow, hkv, scale, l, xs[i]))
  }

  ghost function PlainEntry(cfg: C.KVCacheConfig, toFloat: seq<byte> -> real, qRow: seq<real>, hkv: nat, scale: real,
                            l: nat, x: Entry): (t: Token)
    requires C.ValidConfig(cfg) && |qRow| == cfg.headDim && hkv < cfg.numKvHeads && EntrySized(cfg, l, x)
    ensures |t.value| == cfg.headDim
  {
    RowWidth(cfg);
    PlainToken(cfg, toFloat, qRow, hkv, scale, KOn(x, l, C.TokenSize(cfg)), VOn(x, l, C.TokenSize(cfg)))
  }

  /** Flat K and V bytes of layer l of the cache. */
  ghost predicate LayerBytes(c: Cache, l: nat, kBytes: seq<byte>, vBytes: seq<byte>)
    requires Sized(c) && l < c.cfg.numLayers
  {
    && |kBytes| == |vBytes| == C.SlotCount(c.cfg) * C.TokenSize(c.cfg)
    && Rows(kBytes, C.TokenSize(c.cfg), C.SlotCount(c.cfg)) == c.k[l]
    && Rows(vBytes, C.TokenSize(c.cfg), C.SlotCount(c.cfg)) == c.v[l]
  }

  /** All elements of one layer, its bytes read as elements of type t. */
  function LayerElements(cfg: C.KVCacheConfig, toFloat: seq<byte> -> real, t: C.DType, bytes: seq<byte>)
    : (xs: seq<real>)
    requires C.ValidConfig(cfg) && C.IsSupportedComputeDtype(t) && |bytes| == C.SlotCount(cfg) * C.TokenSize(cfg)
    ensures |xs| == LayerCount(cfg, t)
  {
    Elements(toFloat, C.DtypeSize(t), bytes, LayerCount(cfg, t))
  }

  /** One KV head of one slot, read from the flat layer or from the slot's row. */
  lemma HeadOfSlot(cfg: C.KVCacheConfig, toFloat: seq<byte> -> real, bytes: seq<byte>, slot: nat, hkv: nat)
    requires C.ValidConfig(cfg) && |bytes| == C.SlotCount(cfg) * C.TokenSize(cfg) && slot < C.SlotCount(cfg)
    requires hkv < cfg.numKvHeads
    ensures var row := Rows(bytes, C.TokenSize(cfg), C.SlotCount(cfg))[slot];
            && |row| == PerSlot(cfg) * C.DtypeSize(cfg.dtype)
            && hkv * cfg.headDim + slot * PerSlot(cfg) + cfg.headDim <= C.SlotCount(cfg) * PerSlot(cfg)
            && hkv * cfg.headDim + cfg.headDim <= PerSlot(cfg)
            && Slice(LayerElements(cfg, toFloat, cfg.dtype, bytes), hkv * cfg.headDim + slot * PerSlot(cfg),
                     cfg.headDim)
               == Slice(Elements(toFloat, C.DtypeSize(cfg.dtype), row, PerSlot(cfg)), hkv * cfg.headDim, cfg.headDim)
  {
    RowWidth(cfg);
    RowFits(hkv, cfg.numKvHeads, cfg.headDim);
    RowFits(slot, C.SlotCount(cfg), PerSlot(cfg));
    RowInside(bytes, C.TokenSize(cfg), C.SlotCount(cfg), slot);
    var row := Rows(bytes, C.TokenSize(cfg), C.SlotCount(cfg))[slot];
    hide Elements, C.TokenSize, C.SlotCount, PerSlot, C.DtypeSize;
    var start := hkv * cfg.headDim;
    var flat := Slice(LayerElements(cfg, toFloat, cfg.dtype, bytes), start + slot * PerSlot(cfg), cfg.headDim);
    var own := Slice(Elements(toFloat, C.DtypeSize(cfg.dtype), row, PerSlot(cfg)), start, cfg.headDim);
    forall i | 0 <= i < cfg.headDim ensures flat[i] == own[i] {
      ElementsOfRow(toFloat, C.DtypeSize(cfg.dtype), bytes, PerSlot(cfg), C.SlotCount(cfg), slot, start + i);
    }
  }

  /** A launch over layer r.layer of the cache, using its device page table; no read leaves
      a buffer. */
  ghost predicate LaunchOn(c: Cache, toFloat: seq<byte> -> real, kBytes: seq<byte>, vBytes: seq<byte>, q: Query,
                           r: Request, p: DecodeFwdParams) {
    && Sized(c) && Accepted(c.cfg, q, r) && QueryShaped(q, r)
    && LayerBytes(c, r.layer, kBytes, vBytes)
    && p == LaunchParams(c.cfg, LayerElements(c.cfg, toFloat, q.dtype, kBytes),
                         LayerElements(c.cfg, toFloat, q.dtype, vBytes), c.device, q, r)
    && Readable(p)
  }

  lemma LaunchOnInputs(c: Cache, toFloat: seq<byte> -> real, kBytes: seq<byte>, vBytes: seq<byte>, q: Query,
                       r: Request, p: DecodeFwdParams)
    requires LaunchOn(c, toFloat, kBytes, vBytes, q, r, p)
    ensures LaunchInputs(c.cfg, p.k, p.v, c.device, q, r) && Readable(p)
    ensures p == LaunchParams(c.cfg, p.k, p.v, c.device, q, r)
  {
  }

  /** The launch reads the cache's element type and head dimension. */
  predicate SameFormat(cfg: C.KVCacheConfig, p: DecodeFwdParams) {
    p.headDim == cfg.headDim && p.dtype == cfg.dtype
  }

  /** Query head h maps to an existing KV head. */
  predicate HeadMapped(cfg: C.KVCacheConfig, p: DecodeFwdParams, h: nat) {
    0 < p.numKvHeads <= p.numHeads && KvHead(p, h) < cfg.numKvHeads
  }

  /** Any mapped row read by the kernel is that slot's row of the layer. */
  lemma TokenOfSlot(c: Cache, toFloat: seq<byte> -> real, kBytes: seq<byte>, vBytes: seq<byte>, q: Query, r: Request,
                    p: DecodeFwdParams, b: nat, h: nat, j: nat)
    requires LaunchOn(c, toFloat, kBytes, vBytes, q, r, p) && Readable(p) && b < p.batch && h < p.numHeads
    requires TableReadable(p, b, j) && RowReadable(p, b, h, j) && 0 <= TokenRow(p, b, j) < C.SlotCount(c.cfg)
    requires SameFormat(c.cfg, p) && HeadMapped(c.cfg, p, h)
    ensures var slot := TokenRow(p, b, j);
            && |c.k[r.layer][slot]| == |c.v[r.layer][slot]| == PerSlot(c.cfg) * C.DtypeSize(c.cfg.dtype)
            && TokenAt(p, b, h, j)
               == PlainToken(c.cfg, toFloat, Slice(p.q, QStart(p, b, h), p.headDim), KvHead(p, h), p.scale,
                                                 c.k[r.layer][slot], c.v[r.layer][slot])
  {
    hide LaunchOn, LaunchInputs, LayerElements, Elements, RowStart, PerSlot, Rows, Dot, Slice, C.SlotCount,
         C.TokenSize, C.DtypeSize;
    LaunchOnFields(c, toFloat, kBytes, vBytes, q, r, p);
    var slot := TokenRow(p, b, j);
    KvRowStart(c.cfg, b, KvHead(p, h), slot);
    HeadOfSlot(c.cfg, toFloat, kBytes, slot, KvHead(p, h));
    HeadOfSlot(c.cfg, toFloat, vBytes, slot, KvHead(p, h));
  }

  lemma LaunchOnFields(c: Cache, toFloat: seq<byte> -> real, kBytes: seq<byte>, vBytes: seq<byte>, q: Query,
                       r: Request, p: DecodeFwdParams)
    requires LaunchOn(c, toFloat, kBytes, vBytes, q, r, p) && SameFormat(c.cfg, p)
    ensures C.ValidConfig(c.cfg) && r.layer < c.cfg.numLayers == |c.k| == |c.v|
    ensures LayerBytes(c, r.layer, kBytes, vBytes)
    ensures p.k == LayerElements(c.cfg, toFloat, c.cfg.dtype, kBytes)
    ensures p.v == LayerElements(c.cfg, toFloat, c.cfg.dtype, vBytes)
    ensures p.kStride == p.vStride == KvStrides(c.cfg)
  {
    hide LayerElements, Elements, Rows, Readable, LaunchParams;
    LaunchOnInputs(c, toFloat, kBytes, vBytes, q, r, p);
    ParamsAre(c.cfg, LayerElements(c.cfg, toFloat, q.dtype, kBytes), LayerElements(c.cfg, toFloat, q.dtype, vBytes),
              c.device, q, r);
  }

  lemma ParamsAre(cfg: C.KVCacheConfig, ks: seq<real>, vs: seq<real>, table: seq<int>, q: Query, r: Request)
    requires C.ValidConfig(cfg) && |q.dims| == 4
    ensures var p := LaunchParams(cfg, ks, vs, table, q, r);
            && p.k == ks && p.v == vs && p.kStride == p.vStride == Strides(0, q.dims[3], cfg.numKvHeads * q.dims[3])
            && p.headDim == q.dims[3] && p.dtype == q.dtype
            && p.numHeads == q.dims[1] && p.numKvHeads == cfg.numKvHeads
            && p.batch == q.dims[0] && p.scale == EffectiveScale(r) && p.seqLens == r.seqLens
            && p.seqKv == cfg.numBlocks * cfg.blockSize
  {
  }

  function KvStrides(cfg: C.KVCacheConfig): Strides
    requires C.ValidConfig(cfg)
  {
    Strides(0, cfg.headDim, cfg.numKvHeads * cfg.headDim)
  }

  lemma KvRowStart(cfg: C.KVCacheConfig, b: nat, hkv: nat, slot: nat)
    requires C.ValidConfig(cfg)
    ensures RowStart(KvStrides(cfg), b, hkv, slot) == hkv * cfg.headDim + slot * PerSlot(cfg)
  {
  }

  /** While the revisions agree, the kernel finds position j of sequence s in the slot
      that holds it. */
  lemma RowIsHeldSlot(c: Cache, s: nat, j: nat)
    requires Inv(c) && c.synced == c.revision && s < c.cfg.maxNumSeqs && j < c.lens[s]
    ensures Backed(c, s, j) && j / c.cfg.blockSize < c.cfg.numBlocks
    ensures s * c.cfg.numBlocks + j / c.cfg.blockSize < |c.device|
    ensures PageTableRow(c.device, s, j, c.cfg.blockSize, c.cfg.numBlocks, c.cfg.numBlocks)
            == SlotOf(c.owned, c.cfg.blockSize, s, j)
  {
    CacheFacts.MirrorSafety(c, s, j);
    RowElement(c.device, c.cfg.numBlocks, c.cfg.maxNumSeqs, s, j / c.cfg.blockSize);
  }

  /** Layer l of the cache shows exactly the tokens of sequence s. */
  ghost predicate ShowsSequence(c: Cache, a: Tokens, l: int, s: nat) {
    && Inv(c) && 0 <= l < c.cfg.numLayers && s < |a| == c.cfg.maxNumSeqs && |a[s]| == c.lens[s]
    && forall i :: 0 <= i < |a[s]| ==> Shows(c, a, l, s, i)
  }

  lemma TokenIsStored(c: Cache, a: Tokens, toFloat: seq<byte> -> real, kBytes: seq<byte>, vBytes: seq<byte>, q: Query,
                      r: Request, p: DecodeFwdParams, s: nat, h: nat, j: nat)
    requires ShowsSequence(c, a, r.layer, s) && c.synced == c.revision
    requires LaunchOn(c, toFloat, kBytes, vBytes, q, r, p) && SameFormat(c.cfg, p) && HeadMapped(c.cfg, p, h)
    requires Readable(p) && s < p.batch && h < p.numHeads && j < c.lens[s] && j < SeqLen(p, s)
    ensures EntrySized(c.cfg, r.layer, a[s][j])
    ensures TableReadable(p, s, j) && RowReadable(p, s, h, j) && TokenRow(p, s, j) >= 0
    ensures TokenAt(p, s, h, j)
         == PlainEntry(c.cfg, toFloat, Slice(p.q, QStart(p, s, h), p.headDim), KvHead(p, h), p.scale, r.layer, a[s][j])
  {
    hide PoolInv, Ownership, RowAgrees, MirrorRow, SlotOf, TokenAt, PlainToken, KvHead, QStart, LayerElements;
    RowIsHeldSlot(c, s, j);
    assert Shows(c, a, r.layer, s, j);
    RowWidth(c.cfg);
    assert RowReadable(p, s, h, j);
    TokenOfSlot(c, toFloat, kBytes, vBytes, q, r, p, s, h, j);
  }

  /** The first n tokens the kernel sees are the first n tokens of the sequence. */
  lemma {:induction false} VisibleIsPlain(c: Cache, a: Tokens, toFloat: seq<byte> -> real, kBytes: seq<byte>,
                                          vBytes: seq<byte>, q: Query, r: Request, p: DecodeFwdParams, s: nat, h: nat,
                                          n: nat)
    requires ShowsSequence(c, a, r.layer, s) && c.synced == c.revision
    requires LaunchOn(c, toFloat, kBytes, vBytes, q, r, p) && SameFormat(c.cfg, p) && HeadMapped(c.cfg, p, h)
    requires Readable(p) && s < p.batch && h < p.numHeads && n <= c.lens[s] && n <= SeqLen(p, s)
    ensures EntriesSized(c.cfg, r.layer, a[s][..n])
    ensures Visible(p, s, h, 0, n)
         == PlainTokens(c.cfg, toFloat, Slice(p.q, QStart(p, s, h), p.headDim), KvHead(p, h), p.scale, r.layer,
                        a[s][..n])
  {
    hide Inv, EntrySized, TokenAt, PlainEntry, KvHead, QStart, LayerElements, Shows, Blank, Live;
    if n > 0 {
      VisibleIsPlain(c, a, toFloat, kBytes, vBytes, q, r, p, s, h, n - 1);
      TokenIsStored(c, a, toFloat, kBytes, vBytes, q, r, p, s, h, n - 1);
      assert a[s][..n][..n - 1] == a[s][..n - 1];
      assert forall i :: 0 <= i < n - 1 ==> a[s][..n][i] == a[s][..n - 1][i];
    }
  }

  // ---------------------------------------------------------------------------
  // End to end
  // ---------------------------------------------------------------------------

  lemma AllVisible(c: Cache, a: Tokens, toFloat: seq<byte> -> real, kBytes: seq<byte>, vBytes: seq<byte>, q: Query,
                   r: Request, p: DecodeFwdParams, s: nat, h: nat)
    requires ShowsSequence(c, a, r.layer, s) && c.synced == c.revision
    requires LaunchOn(c, toFloat, kBytes, vBytes, q, r, p) && SameFormat(c.cfg, p) && HeadMapped(c.cfg, p, h)
    requires Readable(p) && s < p.batch && h < p.numHeads && SeqLen(p, s) == c.lens[s]
    ensures EntriesSized(c.cfg, r.layer, a[s])
    ensures Visible(p, s, h, 0, SeqLen(p, s))
         == PlainTokens(c.cfg, toFloat, Slice(p.q, QStart(p, s, h), p.headDim), KvHead(p, h), p.scale, r.layer, a[s])
  {
    hide Inv, EntrySized, PlainEntry, KvHead, QStart, LayerElements, Shows, Blank, Live, Visible, PlainTokens;
    VisibleIsPlain(c, a, toFloat, kBytes, vBytes, q, r, p, s, h, c.lens[s]);
    assert a[s][..c.lens[s]] == a[s];
  }

  // ---------------------------------------------------------------------------
  // What is promised of an output row, in terms of the query and the request alone
  // ---------------------------------------------------------------------------

  /** Where the row of query head h of sequence s starts, in the query and in the output. */
  function RowOffset(q: Query, s: nat, h: nat): nat
    requires |q.dims| == 4
  {
    (s * q.dims[1] + h) * q.dims[3]
  }

  predicate HasRow(q: Query, s: nat, h: nat) {
    |q.dims| == 4 && s < q.dims[0] && h < q.dims[1] && RowOffset(q, s, h) + q.dims[3] <= |q.data|
  }

  function QueryRow(q: Query, s: nat, h: nat): (row: seq<real>)
    requires HasRow(q, s, h)
    ensures |row| == q.dims[3]
  {
    q.data[RowOffset(q, s, h)..RowOffset(q, s, h) + q.dims[3]]
  }

  function OutputRow(q: Query, s: nat, h: nat, out: seq<real>): (row: seq<real>)
    requires |q.dims| == 4 && RowOffset(q, s, h) + q.dims[3] <= |out|
    ensures |row| == q.dims[3]
  {
    out[RowOffset(q, s, h)..RowOffset(q, s, h) + q.dims[3]]
  }

  /** How many positions of sequence s are decoded. */
  function Length(cfg: C.KVCacheConfig, r: Request, s: nat): nat
    requires C.ValidConfig(cfg) && (r.seqLens.Some? ==> s < |r.seqLens.value|)
  {
    if r.seqLens.Some? then r.seqLens.value[s] else cfg.numBlocks * cfg.blockSize
  }

  /** The query reads the cache's element type and head dimension. */
  predicate QueryMatches(cfg: C.KVCacheConfig, q: Query) {
    |q.dims| == 4 && q.dims[3] == cfg.headDim && q.dtype == cfg.dtype
  }

  /** Query head h of sequence s, which lies in the group of KV head hkv. */
  ghost predicate HeadAt(cfg: C.KVCacheConfig, q: Query, s: nat, h: nat, hkv: nat)
    requires C.ValidConfig(cfg)
  {
    HasRow(q, s, h) && hkv < cfg.numKvHeads && InGroup(q.dims[1], cfg.numKvHeads, h, hkv)
  }

  /** `row` is two-pass softmax attention of the query row of (s, h), with the request's
      scale, over KV head hkv of the entries xs on the request's layer. */
  ghost predicate RowIsPlain(e: real -> real, cfg: C.KVCacheConfig, toFloat: seq<byte> -> real, q: Query, r: Request,
                             xs: seq<Entry>, s: nat, h: nat, hkv: nat, row: seq<real>)
    requires IsExp(e) && C.ValidConfig(cfg)
  {
    && QueryMatches(cfg, q) && HasRow(q, s, h) && hkv < cfg.numKvHeads
    && 0 <= r.layer && EntriesSized(cfg, r.layer, xs)
    && row
       == Attention(e, PlainTokens(cfg, toFloat, QueryRow(q, s, h), hkv, EffectiveScale(r), r.layer, xs), cfg.headDim)
  }

  /** Element x of KV head hkv in the bytes of one token. */
  function HeadElement(cfg: C.KVCacheConfig, toFloat: seq<byte> -> real, hkv: nat, row: Row, x: nat): real
    requires C.ValidConfig(cfg) && hkv < cfg.numKvHeads && x < cfg.headDim && |row| == C.TokenSize(cfg)
  {
    var eb := C.DtypeSize(cfg.dtype);
    ElementBounds(cfg, hkv, x);
    toFloat(row[(hkv * cfg.headDim + x) * eb..(hkv * cfg.headDim + x) * eb + eb])
  }

  lemma ElementBounds(cfg: C.KVCacheConfig, hkv: nat, x: nat)
    requires C.ValidConfig(cfg) && hkv < cfg.numKvHeads && x < cfg.headDim
    ensures hkv * cfg.headDim + x < PerSlot(cfg)
    ensures (hkv * cfg.headDim + x) * C.DtypeSize(cfg.dtype) + C.DtypeSize(cfg.dtype) <= C.TokenSize(cfg)
  {
    RowWidth(cfg);
    RowFits(hkv, cfg.numKvHeads, cfg.headDim);
    RowFits(hkv * cfg.headDim + x, PerSlot(cfg), C.DtypeSize(cfg.dtype));
  }

  /** A token of attention, byte by byte: the value holds the elements of head hkv of the V
      bytes, and the score is the scaled dot product with those of the K bytes. */
  lemma PlainEntryIs(cfg: C.KVCacheConfig, toFloat: seq<byte> -> real, qRow: seq<real>, hkv: nat, scale: real, l: nat,
                     x: Entry, ks: seq<real>)
    requires C.ValidConfig(cfg) && |qRow| == |ks| == cfg.headDim && hkv < cfg.numKvHeads
    requires x.layer == l && |x.k| == |x.v| == C.TokenSize(cfg)
    requires forall d :: 0 <= d < cfg.headDim ==> ks[d] == HeadElement(cfg, toFloat, hkv, x.k, d)
    ensures EntrySized(cfg, l, x)
    ensures var t := PlainEntry(cfg, toFloat, qRow, hkv, scale, l, x);
            && t.score == Dot(qRow, ks, 0, cfg.headDim) * scale
            && |t.value| == cfg.headDim
            && forall d :: 0 <= d < cfg.headDim ==> t.value[d] == HeadElement(cfg, toFloat, hkv, x.v, d)
  {
    hide Dot, C.TokenSize, C.DtypeSize, Elements, HeadElement;
    RowWidth(cfg);
    RowFits(hkv, cfg.numKvHeads, cfg.headDim);
    var eb, first := C.DtypeSize(cfg.dtype), hkv * cfg.headDim;
    var kHead := Slice(Elements(toFloat, eb, x.k, PerSlot(cfg)), first, cfg.headDim);
    var vHead := Slice(Elements(toFloat, eb, x.v, PerSlot(cfg)), first, cfg.headDim);
    forall d | 0 <= d < cfg.headDim
      ensures kHead[d] == HeadElement(cfg, toFloat, hkv, x.k, d)
      ensures vHead[d] == HeadElement(cfg, toFloat, hkv, x.v, d)
    {
      ElementIs(cfg, toFloat, hkv, x.k, d);
      ElementIs(cfg, toFloat, hkv, x.v, d);
    }
    assert kHead == ks;
  }

  lemma ElementIs(cfg: C.KVCacheConfig, toFloat: seq<byte> -> real, hkv: nat, row: Row, d: nat)
    requires C.ValidConfig(cfg) && hkv < cfg.numKvHeads && d < cfg.headDim && |row| == C.TokenSize(cfg)
    ensures |row| == PerSlot(cfg) * C.DtypeSize(cfg.dtype) && hkv * cfg.headDim + d < PerSlot(cfg)
    ensures Elements(toFloat, C.DtypeSize(cfg.dtype), row, PerSlot(cfg))[hkv * cfg.headDim + d]
         == HeadElement(cfg, toFloat, hkv, row, d)
  {
    hide C.TokenSize, PerSlot, C.DtypeSize;
    RowWidth(cfg);
    ElementBounds(cfg, hkv, d);
    var n, eb := hkv * cfg.headDim + d, C.DtypeSize(cfg.dtype);
    RowInside(row, eb, PerSlot(cfg), n);
    assert (n + 1) * eb == n * eb + eb;
    assert RowAt(row, eb, n) == row[n * eb..n * eb + eb];
  }

  /** The wiring of the launch parameters: rows, lengths, scale and head groups are those of
      the query and the request. */
  lemma Wired(cfg: C.KVCacheConfig, ks: seq<real>, vs: seq<real>, table: seq<int>, q: Query, r: Request, s: nat,
              h: nat, hkv: nat)
    requires LaunchSized(cfg, ks, vs, table, q, r) && s < q.dims[0] && h < q.dims[1]
    requires InGroup(q.dims[1], cfg.numKvHeads, h, hkv)
    ensures HasRow(q, s, h)
    ensures var p := LaunchParams(cfg, ks, vs, table, q, r);
            && p.batch == q.dims[0] && p.numHeads == q.dims[1] && p.headDim == q.dims[3] && p.scale == EffectiveScale(r)
            && p.numKvHeads == cfg.numKvHeads && p.numKvHeads <= p.numHeads && KvHead(p, h) == hkv
            && QStart(p, s, h) == OutStart(p, s, h) == RowOffset(q, s, h)
            && QStart(p, s, h) + p.headDim <= |p.q| && Slice(p.q, QStart(p, s, h), p.headDim) == QueryRow(q, s, h)
            && (p.seqLens.Some? ==> s < |p.seqLens.value|) && (r.seqLens.Some? ==> s < |r.seqLens.value|)
            && SeqLen(p, s) == Length(cfg, r, s)
  {
    var p := LaunchParams(cfg, ks, vs, table, q, r);
    hide KvHead;
    KvHeadOfGroup(p, h, hkv);
    QueryRowFits(cfg, ks, vs, table, q, r, s, h);
    OutIsRow(p, s, h);
  }

  /** After any run of appends, resets and syncs, failed ones included, that ends with
      agreeing revisions: split-K decode with the true lengths is plain attention over
      the tokens of the sequence, for every number of splits. */
  lemma EndToEnd(cfg: C.KVCacheConfig, ops: seq<CacheRuns.Op>, e: real -> real, toFloat: seq<byte> -> real,
                 kBytes: seq<byte>, vBytes: seq<byte>, q: Query, r: Request, p: DecodeFwdParams, s: nat, h: nat,
                 hkv: nat)
    requires C.ValidConfig(cfg) && C.SlotsFitInt32(cfg) && CacheRuns.LegalRun(cfg, ops) && IsExp(e)
    requires var c := CacheRuns.Run(cfg, ops).0;
             && c.synced == c.revision
             && LaunchOn(c, toFloat, kBytes, vBytes, q, r, p)
             && QueryMatches(cfg, q) && HeadAt(cfg, q, s, h, hkv)
             && r.seqLens.Some? && r.seqLens.value[s] == c.lens[s]
    ensures Readable(p) && s < p.batch && h < p.numHeads && OutStart(p, s, h) == RowOffset(q, s, h)
    ensures s < |CacheRuns.Run(cfg, ops).1|
    ensures RowIsPlain(e, cfg, toFloat, q, r, CacheRuns.Run(cfg, ops).1[s], s, h, hkv,
                       Normalise(MergeAll(e, SplitPartials(e, p, s, h), p.headDim)))
  {
    hide CacheRuns.Run, IsExp, Inv, Shows, LaunchParams, LayerElements, Readable, RowIsPlain, Normalise, MergeAll,
         SplitPartials, QueryMatches, InGroup, OutStart, Visible, PlainTokens;
    var (c, a) := CacheRuns.Run(cfg, ops);
    RefinedShows(c, a, r.layer, s);
    DecodedIsPlain(e, c, a, toFloat, kBytes, vBytes, q, r, p, s, h, hkv);
  }

  lemma RefinedShows(c: Cache, a: Tokens, l: int, s: nat)
    requires Refines(c, a) && 0 <= l < c.cfg.numLayers && s < c.cfg.maxNumSeqs
    ensures ShowsSequence(c, a, l, s)
  {
    hide Inv, Shows;
  }

  /** What a launch is given for one query head. */
  lemma WiredLaunch(c: Cache, toFloat: seq<byte> -> real, kBytes: seq<byte>, vBytes: seq<byte>, q: Query, r: Request,
                    p: DecodeFwdParams, s: nat, h: nat, hkv: nat)
    requires LaunchOn(c, toFloat, kBytes, vBytes, q, r, p) && QueryMatches(c.cfg, q) && HeadAt(c.cfg, q, s, h, hkv)
    ensures Readable(p) && s < p.batch == q.dims[0] && h < p.numHeads && s < c.cfg.maxNumSeqs
    ensures p.headDim == q.dims[3] && SameFormat(c.cfg, p) && HeadMapped(c.cfg, p, h) && p.seqLens == r.seqLens
    ensures 0 <= r.layer < c.cfg.numLayers && KvHead(p, h) == hkv && p.scale == EffectiveScale(r)
    ensures QStart(p, s, h) + p.headDim <= |p.q| && Slice(p.q, QStart(p, s, h), p.headDim) == QueryRow(q, s, h)
    ensures OutStart(p, s, h) == RowOffset(q, s, h)
    ensures (r.seqLens.Some? ==> s < |r.seqLens.value|) && SeqLen(p, s) == Length(c.cfg, r, s)
  {
    hide KvHead, QStart, OutStart, LayerElements, InGroup, Readable, QueryRow;
    LaunchOnInputs(c, toFloat, kBytes, vBytes, q, r, p);
    Wired(c.cfg, p.k, p.v, c.device, q, r, s, h, hkv);
  }

  /** The same in any state that shows the sequence on the layer. */
  lemma DecodedIsPlain(e: real -> real, c: Cache, a: Tokens, toFloat: seq<byte> -> real, kBytes: seq<byte>,
                       vBytes: seq<byte>, q: Query, r: Request, p: DecodeFwdParams, s: nat, h: nat, hkv: nat)
    requires IsExp(e) && ShowsSequence(c, a, r.layer, s) && c.synced == c.revision
    requires LaunchOn(c, toFloat, kBytes, vBytes, q, r, p) && QueryMatches(c.cfg, q) && HeadAt(c.cfg, q, s, h, hkv)
    requires (r.seqLens.Some? ==> s < |r.seqLens.value|) && Length(c.cfg, r, s) == c.lens[s]
    ensures Readable(p) && s < p.batch && h < p.numHeads && OutStart(p, s, h) == RowOffset(q, s, h)
    ensures s < |a| && EntriesSized(c.cfg, r.layer, a[s])
    ensures Visible(p, s, h, 0, SeqLen(p, s))
         == PlainTokens(c.cfg, toFloat, QueryRow(q, s, h), hkv, EffectiveScale(r), r.layer, a[s])
    ensures RowIsPlain(e, c.cfg, toFloat, q, r, a[s], s, h, hkv,
                       Normalise(MergeAll(e, SplitPartials(e, p, s, h), p.headDim)))
  {
    hide Inv, KvHead, QStart, OutStart, LaunchOn, LayerElements, Shows, Visible, PlainTokens, Normalise, MergeAll,
         SplitPartials, Attention, IsExp, QueryRow, Readable, InGroup, EntriesSized;
    WiredLaunch(c, toFloat, kBytes, vBytes, q, r, p, s, h, hkv);
    AllVisible(c, a, toFloat, kBytes, vBytes, q, r, p, s, h);
    SplitKIsExact(e, p, s, h);
  }

  // ---------------------------------------------------------------------------
  // What any launch reads
  // ---------------------------------------------------------------------------

  /** The row of the pool that the page table gives position j of sequence s, if it does. */
  function PoolRow(cfg: C.KVCacheConfig, table: seq<int>, s: nat, j: nat): Option<nat>
    requires C.ValidConfig(cfg) && |table| == cfg.maxNumSeqs * cfg.numBlocks && s < cfg.maxNumSeqs
  {
    var block := j / cfg.blockSize;
    if block >= cfg.numBlocks then None
    else
      RowFits(s, cfg.maxNumSeqs, cfg.numBlocks);
      var physical := table[s * cfg.numBlocks + block];
      if 0 <= physical < cfg.numBlocks then Some(physical * cfg.blockSize + j % cfg.blockSize) else None
  }

  /** Start of KV head hkv of a row, in heads as wide as the query's. */
  function HeadStart(cfg: C.KVCacheConfig, q: Query, hkv: nat, row: nat): nat
    requires C.ValidConfig(cfg) && |q.dims| == 4
  {
    (row * cfg.numKvHeads + hkv) * q.dims[3]
  }

  /** For a query of the cache's width these are the offsets of the storage layout. */
  lemma HeadStartIsLayout(cfg: C.KVCacheConfig, q: Query, hkv: nat, block: nat, offset: nat, x: nat)
    requires C.ValidConfig(cfg) && QueryMatches(cfg, q)
    ensures HeadStart(cfg, q, hkv, block * cfg.blockSize + offset) + x
         == L.KvOffset(C.ShapeOf(cfg), block, offset, hkv, x)
  {
  }

  /** The first n positions of sequence s lie inside K and V. */
  ghost predicate ReadsInside(cfg: C.KVCacheConfig, ks: seq<real>, vs: seq<real>, table: seq<int>, q: Query, s: nat,
                              hkv: nat, n: nat)
    requires C.ValidConfig(cfg) && |table| == cfg.maxNumSeqs * cfg.numBlocks && s < cfg.maxNumSeqs && |q.dims| == 4
  {
    forall j :: 0 <= j < n && PoolRow(cfg, table, s, j).Some? ==>
      var start := HeadStart(cfg, q, hkv, PoolRow(cfg, table, s, j).value);
      start + q.dims[3] <= |ks| && start + q.dims[3] <= |vs|
  }

  /** The token whose K and V elements start at `start`, as query head h of sequence s sees it. */
  function TokenRead(ks: seq<real>, vs: seq<real>, q: Query, scale: real, s: nat, h: nat, start: nat): (t: Token)
    requires HasRow(q, s, h) && start + q.dims[3] <= |ks| && start + q.dims[3] <= |vs|
    ensures |t.value| == q.dims[3]
  {
    Token(Dot(QueryRow(q, s, h), ks[start..start + q.dims[3]], 0, q.dims[3]) * scale, vs[start..start + q.dims[3]])
  }

  /** The mapped ones of the first n positions of sequence s, as query head h sees them in
      KV head hkv: no launch parameter occurs. */
  ghost function TokensRead(cfg: C.KVCacheConfig, ks: seq<real>, vs: seq<real>, table: seq<int>, q: Query,
                            scale: real, s: nat, h: nat, hkv: nat, n: nat): (ts: seq<Token>)
    requires C.ValidConfig(cfg) && |table| == cfg.maxNumSeqs * cfg.numBlocks && s < cfg.maxNumSeqs && HasRow(q, s, h)
    requires ReadsInside(cfg, ks, vs, table, q, s, hkv, n)
    ensures WellShaped(ts, q.dims[3])
  {
    if n == 0 then []
    else
      var before := TokensRead(cfg, ks, vs, table, q, scale, s, h, hkv, n - 1);
      if PoolRow(cfg, table, s, n - 1).None? then before
      else
        before
        + [TokenRead(ks, vs, q, scale, s, h, HeadStart(cfg, q, hkv, PoolRow(cfg, table, s, n - 1).value))]
  }

  /** The output row of (s, h) is attention over what the page table and the lengths make
      it read. */
  ghost predicate RowRead(e: real -> real, cfg: C.KVCacheConfig, ks: seq<real>, vs: seq<real>, table: seq<int>,
                          q: Query, r: Request, s: nat, h: nat, hkv: nat, out: seq<real>)
    requires IsExp(e) && C.ValidConfig(cfg)
  {
    && |table| == cfg.maxNumSeqs * cfg.numBlocks && s < cfg.maxNumSeqs && HasRow(q, s, h)
    && (r.seqLens.Some? ==> s < |r.seqLens.value|) && RowOffset(q, s, h) + q.dims[3] <= |out|
    && ReadsInside(cfg, ks, vs, table, q, s, hkv, Length(cfg, r, s))
    && OutputRow(q, s, h, out)
       == Attention(e, TokensRead(cfg, ks, vs, table, q, EffectiveScale(r), s, h, hkv, Length(cfg, r, s)), q.dims[3])
  }

  ghost predicate RowsRead(e: real -> real, cfg: C.KVCacheConfig, ks: seq<real>, vs: seq<real>, table: seq<int>,
                           q: Query, r: Request, out: seq<real>)
    requires IsExp(e) && C.ValidConfig(cfg) && |q.dims| == 4
  {
    forall s, h, hkv :: 0 <= s < q.dims[0] && 0 <= h < q.dims[1] && 0 <= hkv
                        && InGroup(q.dims[1], cfg.numKvHeads, h, hkv) ==>
      RowRead(e, cfg, ks, vs, table, q, r, s, h, hkv, out)
  }

  lemma PoolRowIs(cfg: C.KVCacheConfig, ks: seq<real>, vs: seq<real>, table: seq<int>, q: Query, r: Request, s: nat,
                  j: nat)
    requires LaunchSized(cfg, ks, vs, table, q, r) && s < q.dims[0]
    ensures var p := LaunchParams(cfg, ks, vs, table, q, r);
            && TableReadable(p, s, j)
            && TokenRow(p, s, j)
               == if PoolRow(cfg, table, s, j).Some? then PoolRow(cfg, table, s, j).value else -1
  {
    TableFits(cfg, ks, vs, table, q, r, s, j);
  }

  lemma HeadStartIs(cfg: C.KVCacheConfig, ks: seq<real>, vs: seq<real>, table: seq<int>, q: Query, r: Request, s: nat,
                    hkv: nat, row: nat)
    requires C.ValidConfig(cfg) && |q.dims| == 4
    ensures var p := LaunchParams(cfg, ks, vs, table, q, r);
            && s * p.kStride.b + hkv * p.kStride.h + row * p.kStride.s == HeadStart(cfg, q, hkv, row)
            && s * p.vStride.b + hkv * p.vStride.h + row * p.vStride.s == HeadStart(cfg, q, hkv, row)
  {
    var n, d := cfg.numKvHeads, q.dims[3];
    MulAssociates(row, n, d);
    assert (row * n + hkv) * d == row * n * d + hkv * d;
    assert s * 0 == 0;
  }

  /** Position j of a launch, without the launch parameters. */
  lemma TokenIsRead(cfg: C.KVCacheConfig, ks: seq<real>, vs: seq<real>, table: seq<int>, q: Query, r: Request, s: nat,
                    h: nat, hkv: nat, j: nat)
    requires LaunchInputs(cfg, ks, vs, table, q, r) && s < q.dims[0] && h < q.dims[1]
    requires InGroup(q.dims[1], cfg.numKvHeads, h, hkv)
    requires (r.seqLens.Some? ==> s < |r.seqLens.value|) && j < Length(cfg, r, s)
    ensures HasRow(q, s, h)
    ensures var p := LaunchParams(cfg, ks, vs, table, q, r);
            && TableReadable(p, s, j) && 0 < p.numKvHeads <= p.numHeads && RowReadable(p, s, h, j)
            && QStart(p, s, h) + p.headDim <= |p.q|
            && (PoolRow(cfg, table, s, j).None? ==> TokenRow(p, s, j) < 0)
            && (PoolRow(cfg, table, s, j).Some? ==>
                  var start := HeadStart(cfg, q, hkv, PoolRow(cfg, table, s, j).value);
                  && start + q.dims[3] <= |ks| && start + q.dims[3] <= |vs| && TokenRow(p, s, j) >= 0
                  && TokenAt(p, s, h, j) == TokenRead(ks, vs, q, EffectiveScale(r), s, h, start))
  {
    hide KvHead, OutStart, InGroup, PoolRow, HeadStart, TokenAt, Dot, TokenRow;
    var p := LaunchParams(cfg, ks, vs, table, q, r);
    ParamsAre(cfg, ks, vs, table, q, r);
    Wired(cfg, ks, vs, table, q, r, s, h, hkv);
    PoolRowIs(cfg, ks, vs, table, q, r, s, j);
    if PoolRow(cfg, table, s, j).Some? {
      HeadStartIs(cfg, ks, vs, table, q, r, s, hkv, PoolRow(cfg, table, s, j).value);
    }
    hide LaunchParams, LaunchSized;
    assert RowReadable(p, s, h, j);
    if PoolRow(cfg, table, s, j).Some? {
      TokenAtIs(p, s, h, hkv, j);
    }
  }

  lemma ReadNext(cfg: C.KVCacheConfig, ks: seq<real>, vs: seq<real>, table: seq<int>, q: Query, scale: real, s: nat,
                 h: nat, hkv: nat, j: nat)
    requires C.ValidConfig(cfg) && |table| == cfg.maxNumSeqs * cfg.numBlocks && s < cfg.maxNumSeqs && HasRow(q, s, h)
    requires ReadsInside(cfg, ks, vs, table, q, s, hkv, j)
    requires PoolRow(cfg, table, s, j).Some? ==>
               var start := HeadStart(cfg, q, hkv, PoolRow(cfg, table, s, j).value);
               start + q.dims[3] <= |ks| && start + q.dims[3] <= |vs|
    ensures ReadsInside(cfg, ks, vs, table, q, s, hkv, j + 1)
    ensures TokensRead(cfg, ks, vs, table, q, scale, s, h, hkv, j + 1)
         == TokensRead(cfg, ks, vs, table, q, scale, s, h, hkv, j)
            + if PoolRow(cfg, table, s, j).None? then []
              else [TokenRead(ks, vs, q, scale, s, h, HeadStart(cfg, q, hkv, PoolRow(cfg, table, s, j).value))]
  {
    hide PoolRow, HeadStart, TokenRead, HasRow;
    var ts := TokensRead(cfg, ks, vs, table, q, scale, s, h, hkv, j);
    assert ts + [] == ts;
  }

  lemma {:induction false} VisibleIsRead(cfg: C.KVCacheConfig, ks: seq<real>, vs: seq<real>, table: seq<int>, q: Query,
                                         r: Request, s: nat, h: nat, hkv: nat, n: nat)
    requires LaunchInputs(cfg, ks, vs, table, q, r) && s < q.dims[0] && h < q.dims[1]
    requires InGroup(q.dims[1], cfg.numKvHeads, h, hkv)
    requires (r.seqLens.Some? ==> s < |r.seqLens.value|) && n <= Length(cfg, r, s)
    ensures HasRow(q, s, h) && s < cfg.maxNumSeqs && ReadsInside(cfg, ks, vs, table, q, s, hkv, n)
    ensures var p := LaunchParams(cfg, ks, vs, table, q, r);
            && s < p.batch && h < p.numHeads && SeqLen(p, s) == Length(cfg, r, s)
            && Visible(p, s, h, 0, n) == TokensRead(cfg, ks, vs, table, q, EffectiveScale(r), s, h, hkv, n)
  {
    hide *;
    WiredSizes(cfg, ks, vs, table, q, r, s, h, hkv);
    var p := LaunchParams(cfg, ks, vs, table, q, r);
    if n > 0 {
      VisibleIsRead(cfg, ks, vs, table, q, r, s, h, hkv, n - 1);
      TokenIsRead(cfg, ks, vs, table, q, r, s, h, hkv, n - 1);
      VisibleStep(p, s, h, 0, n - 1);
      ReadNext(cfg, ks, vs, table, q, EffectiveScale(r), s, h, hkv, n - 1);
    } else {
      NoneVisible(p, s, h, 0, 0);
      NoneRead(cfg, ks, vs, table, q, EffectiveScale(r), s, h, hkv);
    }
  }

  lemma WiredSizes(cfg: C.KVCacheConfig, ks: seq<real>, vs: seq<real>, table: seq<int>, q: Query, r: Request, s: nat,
                   h: nat, hkv: nat)
    requires LaunchInputs(cfg, ks, vs, table, q, r) && s < q.dims[0] && h < q.dims[1]
    requires InGroup(q.dims[1], cfg.numKvHeads, h, hkv)
    ensures C.ValidConfig(cfg) && |table| == cfg.maxNumSeqs * cfg.numBlocks && s < cfg.maxNumSeqs && HasRow(q, s, h)
    ensures |q.dims| == 4
    ensures var p := LaunchParams(cfg, ks, vs, table, q, r);
            && Readable(p) && s < p.batch && h < p.numHeads && p.headDim == q.dims[3]
            && (p.seqLens.Some? ==> s < |p.seqLens.value|) && (r.seqLens.Some? ==> s < |r.seqLens.value|)
            && SeqLen(p, s) == Length(cfg, r, s)
  {
    hide KvHead, OutStart, QStart, InGroup, Readable;
    Wired(cfg, ks, vs, table, q, r, s, h, hkv);
  }

  lemma NoneRead(cfg: C.KVCacheConfig, ks: seq<real>, vs: seq<real>, table: seq<int>, q: Query, scale: real, s: nat,
                 h: nat, hkv: nat)
    requires C.ValidConfig(cfg) && |table| == cfg.maxNumSeqs * cfg.numBlocks && s < cfg.maxNumSeqs && HasRow(q, s, h)
    ensures ReadsInside(cfg, ks, vs, table, q, s, hkv, 0)
    ensures TokensRead(cfg, ks, vs, table, q, scale, s, h, hkv, 0) == []
  {
  }

  // ---------------------------------------------------------------------------
  // The launch
  // ---------------------------------------------------------------------------

  /** What the workspace and the scheduler must offer a paged launch. */
  ghost predicate CanRun(cfg: C.KVCacheConfig, q: Query, r: Request, scratchSize: nat, partialOrder: seq<nat>,
                         reduceOrder: seq<nat>)
    requires C.ValidConfig(cfg)
  {
    |q.dims| == 4 ==>
      && scratchSize >= PartialElements(q.dims[0], q.dims[1], SplitCount(cfg, r), q.dims[3])
      && RunsEveryBlock(partialOrder, GridFor(q.dims[0] * q.dims[1] * SplitCount(cfg, r)))
      && RunsEveryBlock(reduceOrder, GridFor(q.dims[0] * q.dims[1]))
  }

  /** A launch that leaves every row done leaves attention over what each row reads. */
  lemma DoneIsRead(e: real -> real, cfg: C.KVCacheConfig, ks: seq<real>, vs: seq<real>, table: seq<int>, q: Query,
                   r: Request, p: DecodeFwdParams, out: seq<real>)
    requires IsExp(e) && LaunchInputs(cfg, ks, vs, table, q, r) && p == LaunchParams(cfg, ks, vs, table, q, r)
    requires OutRowsFit(p, |out|) && p.batch == q.dims[0] && p.numHeads == q.dims[1]
    requires forall s, h :: 0 <= s < q.dims[0] && 0 <= h < q.dims[1] ==> RowDone(e, out, p, s, h)
    ensures RowsRead(e, cfg, ks, vs, table, q, r, out)
  {
    hide IsExp, KvHead, OutStart, QStart, InGroup, Attention, Visible, TokensRead, Readable, RowDone, LaunchParams,
         OutRowsFit, RowRead;
    forall s, h, hkv | 0 <= s < q.dims[0] && 0 <= h < q.dims[1] && 0 <= hkv
                       && InGroup(q.dims[1], cfg.numKvHeads, h, hkv)
      ensures RowRead(e, cfg, ks, vs, table, q, r, s, h, hkv, out)
    {
      assert RowDone(e, out, p, s, h);
      RowIsRead(e, cfg, ks, vs, table, q, r, s, h, hkv, out);
    }
  }

  lemma RowIsRead(e: real -> real, cfg: C.KVCacheConfig, ks: seq<real>, vs: seq<real>, table: seq<int>, q: Query,
                  r: Request, s: nat, h: nat, hkv: nat, out: seq<real>)
    requires IsExp(e) && LaunchInputs(cfg, ks, vs, table, q, r) && s < q.dims[0] && h < q.dims[1]
    requires InGroup(q.dims[1], cfg.numKvHeads, h, hkv)
    requires var p := LaunchParams(cfg, ks, vs, table, q, r);
             OutRowsFit(p, |out|) && s < p.batch && h < p.numHeads && RowDone(e, out, p, s, h)
    ensures RowRead(e, cfg, ks, vs, table, q, r, s, h, hkv, out)
  {
    hide IsExp, KvHead, OutStart, QStart, InGroup, Attention, Visible, TokensRead, Readable, ReadsInside;
    Wired(cfg, ks, vs, table, q, r, s, h, hkv);
    VisibleIsRead(cfg, ks, vs, table, q, r, s, h, hkv, Length(cfg, r, s));
    hide LaunchParams;
  }

  /** Launch on the parameters of an accepted request. */
  method LaunchPaged(e: real -> real, cfg: C.KVCacheConfig, ks: seq<real>, vs: seq<real>, table: seq<int>, q: Query,
                     r: Request, scratch: array<Ext>, partialOrder: seq<nat>, reduceOrder: seq<nat>)
    returns (out: array<real>)
    requires IsExp(e) && LaunchInputs(cfg, ks, vs, table, q, r)
    requires CanRun(cfg, q, r, scratch.Length, partialOrder, reduceOrder)
    modifies scratch
    ensures fresh(out) && RowsRead(e, cfg, ks, vs, table, q, r, out[..])
    ensures OutRowsFit(LaunchParams(cfg, ks, vs, table, q, r), out.Length)
    ensures forall s, h :: 0 <= s < q.dims[0] && 0 <= h < q.dims[1] ==>
              RowDone(e, out[..], LaunchParams(cfg, ks, vs, table, q, r), s, h)
  {
    hide IsExp, Readable, OutRowsFit, RowDone, RunsEveryBlock, RowsRead;
    var p := LaunchParams(cfg, ks, vs, table, q, r);
    RegionsDisjoint(cfg, ks, vs, table, q, r);
    OutputRowsFit(cfg, ks, vs, table, q, r);
    out := new real[|q.data|](i => 0.0);
    LaunchDecodeSplitK(e, p, scratch, out, partialOrder, reduceOrder);
    DoneIsRead(e, cfg, ks, vs, table, q, r, p, out[..]);
  }

  /** With a query of the cache's format, every row whose length is that of its sequence is
      plain attention over the sequence's own tokens. */
  ghost predicate RowsPlain(e: real -> real, cfg: C.KVCacheConfig, toFloat: seq<byte> -> real, q: Query, r: Request,
                            a: Tokens, out: seq<real>)
    requires IsExp(e) && C.ValidConfig(cfg) && |q.dims| == 4 && (r.seqLens.Some? ==> |r.seqLens.value| == q.dims[0])
  {
    QueryMatches(cfg, q) ==>
      forall s, h, hkv :: 0 <= s < q.dims[0] && 0 <= h && 0 <= hkv && HeadAt(cfg, q, s, h, hkv) && s < |a|
                          && Length(cfg, r, s) == |a[s]| ==>
        && RowOffset(q, s, h) + q.dims[3] <= |out|
        && RowIsPlain(e, cfg, toFloat, q, r, a[s], s, h, hkv, OutputRow(q, s, h, out))
  }

  lemma PlainRow(e: real -> real, c: Cache, a: Tokens, toFloat: seq<byte> -> real, kBytes: seq<byte>,
                 vBytes: seq<byte>, q: Query, r: Request, p: DecodeFwdParams, out: seq<real>, s: nat, h: nat, hkv: nat)
    requires IsExp(e) && ShowsSequence(c, a, r.layer, s) && c.synced == c.revision
    requires LaunchOn(c, toFloat, kBytes, vBytes, q, r, p) && QueryMatches(c.cfg, q) && HeadAt(c.cfg, q, s, h, hkv)
    requires (r.seqLens.Some? ==> s < |r.seqLens.value|) && Length(c.cfg, r, s) == c.lens[s]
    requires Readable(p) && OutRowsFit(p, |out|) && s < p.batch && h < p.numHeads && RowDone(e, out, p, s, h)
    ensures RowOffset(q, s, h) + q.dims[3] <= |out|
    ensures RowIsPlain(e, c.cfg, toFloat, q, r, a[s], s, h, hkv, OutputRow(q, s, h, out))
  {
    hide IsExp, Inv, LayerElements, Shows, Visible, PlainTokens, Attention, OutStart, LaunchParams, HeadAt, Normalise,
         MergeAll, SplitPartials, QueryRow, Readable;
    WidthOf(c, toFloat, kBytes, vBytes, q, r, p);
    DecodedIsPlain(e, c, a, toFloat, kBytes, vBytes, q, r, p, s, h, hkv);
    SplitKIsExact(e, p, s, h);
    hide LaunchOn;
  }

  lemma WidthOf(c: Cache, toFloat: seq<byte> -> real, kBytes: seq<byte>, vBytes: seq<byte>, q: Query, r: Request,
                p: DecodeFwdParams)
    requires LaunchOn(c, toFloat, kBytes, vBytes, q, r, p)
    ensures p.headDim == q.dims[3] && p.batch == q.dims[0] && p.numHeads == q.dims[1]
  {
    hide LayerElements, Readable;
  }

  lemma AllRows(e: real -> real, c: Cache, a: Tokens, toFloat: seq<byte> -> real, kBytes: seq<byte>,
                vBytes: seq<byte>, q: Query, r: Request, p: DecodeFwdParams, out: seq<real>)
    requires IsExp(e) && Refines(c, a) && LaunchOn(c, toFloat, kBytes, vBytes, q, r, p) && c.synced == c.revision
    requires Readable(p) && OutRowsFit(p, |out|)
    requires forall s, h :: 0 <= s < p.batch && 0 <= h < p.numHeads ==> RowDone(e, out, p, s, h)
    ensures RowsPlain(e, c.cfg, toFloat, q, r, a, out)
  {
    hide IsExp, RowDone, RowIsPlain, OutStart, LayerElements, InGroup;
    if QueryMatches(c.cfg, q) {
      WidthOf(c, toFloat, kBytes, vBytes, q, r, p);
      forall s, h, hkv | 0 <= s < q.dims[0] && 0 <= h && 0 <= hkv && HeadAt(c.cfg, q, s, h, hkv) && s < |a|
                         && Length(c.cfg, r, s) == |a[s]|
        ensures RowOffset(q, s, h) + q.dims[3] <= |out|
        ensures RowIsPlain(e, c.cfg, toFloat, q, r, a[s], s, h, hkv, OutputRow(q, s, h, out))
      {
        PlainRow(e, c, a, toFloat, kBytes, vBytes, q, r, p, out, s, h, hkv);
      }
    }
  }

  /** No read of the launch leaves a buffer: what memory safety asks of the caller, because
      the entry point checks neither head groups nor row width. */
  ghost predicate StaysInside(kv: P.PagedCache, q: Query, r: Request, toFloat: seq<byte> -> real)
    requires kv.Valid() && Accepted(kv.cfg, q, r)
    reads kv.Repr()
  {
    Readable(LaunchParams(kv.cfg, KOf(kv, q, r, toFloat), VOf(kv, q, r, toFloat), kv.pageTableDevice[..], q, r))
  }

  /** The elements of the request's layer, its bytes read as the query's type. */
  function KOf(kv: P.PagedCache, q: Query, r: Request, toFloat: seq<byte> -> real): seq<real>
    requires kv.Valid() && Accepted(kv.cfg, q, r)
    reads kv.Repr()
  {
    LayerElements(kv.cfg, toFloat, q.dtype, kv.storage.kLayers[r.layer][..])
  }

  function VOf(kv: P.PagedCache, q: Query, r: Request, toFloat: seq<byte> -> real): seq<real>
    requires kv.Valid() && Accepted(kv.cfg, q, r)
    reads kv.Repr()
  {
    LayerElements(kv.cfg, toFloat, q.dtype, kv.storage.vLayers[r.layer][..])
  }

  /** A fitting query stays inside on every cache. */
  lemma FittingStaysInside(kv: P.PagedCache, q: Query, r: Request, toFloat: seq<byte> -> real)
    requires kv.Valid() && Accepted(kv.cfg, q, r) && QueryShaped(q, r) && QueryFits(kv.cfg, q)
    ensures StaysInside(kv, q, r, toFloat)
  {
    hide LayerElements, Refines;
    LaunchReadable(kv.cfg, KOf(kv, q, r, toFloat), VOf(kv, q, r, toFloat), kv.pageTableDevice[..], q, r);
  }

  /** What an accepted request returns: every row is attention over what it reads; with a
      current mirror, plain attention over the tokens of its sequence. */
  ghost predicate Answered(kv: P.PagedCache, q: Query, r: Request, e: real -> real, toFloat: seq<byte> -> real,
                           out: seq<real>)
    requires kv.Valid() && IsExp(e) && Accepted(kv.cfg, q, r) && QueryShaped(q, r)
    reads kv.Repr()
  {
    && RowsRead(e, kv.cfg, KOf(kv, q, r, toFloat), VOf(kv, q, r, toFloat), kv.pageTableDevice[..], q, r, out)
    && (kv.syncedRevision == kv.revision ==> RowsPlain(e, kv.cfg, toFloat, q, r, kv.tokens, out))
  }

  /** The launch of an accepted request on the cache object. */
  method RunAccepted(kv: P.PagedCache, q: Query, r: Request, e: real -> real, toFloat: seq<byte> -> real,
                     scratch: array<Ext>, partialOrder: seq<nat>, reduceOrder: seq<nat>)
    returns (out: array<real>)
    requires kv.Valid() && IsExp(e) && Accepted(kv.cfg, q, r) && QueryShaped(q, r) && scratch !in kv.Repr()
    requires StaysInside(kv, q, r, toFloat)
    requires CanRun(kv.cfg, q, r, scratch.Length, partialOrder, reduceOrder)
    modifies scratch
    ensures fresh(out) && kv.Valid() && Answered(kv, q, r, e, toFloat, out[..])
  {
    hide IsExp, RowDone, OutRowsFit, Refines, LayerElements, CanRun, RowsRead, RowsPlain, Rows, PoolInv;
    ghost var kBytes, vBytes := kv.storage.kLayers[r.layer][..], kv.storage.vLayers[r.layer][..];
    var ks, vs := KOf(kv, q, r, toFloat), VOf(kv, q, r, toFloat);
    ghost var p := LaunchParams(kv.cfg, ks, vs, kv.pageTableDevice[..], q, r);
    out := LaunchPaged(e, kv.cfg, ks, vs, kv.pageTableDevice[..], q, r, scratch, partialOrder, reduceOrder);
    if kv.syncedRevision == kv.revision {
      AllRows(e, kv.State(), kv.tokens, toFloat, kBytes, vBytes, q, r, p, out[..]);
    }
  }

  /** RunPaged on the cache object: rejected requests and a refused workspace are errors. */
  method RunPaged(kv: P.PagedCache, q: Query, r: Request, e: real -> real, toFloat: seq<byte> -> real,
                  scratch: array?<Ext>, partialOrder: seq<nat>, reduceOrder: seq<nat>)
    returns (res: C.Result<array<real>>)
    requires kv.Valid() && IsExp(e) && QueryShaped(q, r)
    requires Accepted(kv.cfg, q, r) ==> StaysInside(kv, q, r, toFloat)
    requires scratch != null ==>
               scratch !in kv.Repr() && CanRun(kv.cfg, q, r, scratch.Length, partialOrder, reduceOrder)
    modifies if scratch != null then {scratch} else {}
    ensures res.Success? <==>
              && |q.dims| == 4 && q.dims[2] == 1 && 1 <= q.dims[0] <= kv.cfg.maxNumSeqs
              && 0 <= r.layer < kv.cfg.numLayers && q.dtype in {C.Float32, C.Float16, C.BFloat16}
              && q.dims[3] in {32, 64, 96, 128, 160, 192, 256} && scratch != null
    ensures kv.Valid()
    ensures res.Success? ==>
              fresh(res.value) && Accepted(kv.cfg, q, r) && Answered(kv, q, r, e, toFloat, res.value[..])
  {
    hide IsExp, Answered, CanRun, QueryShaped, StaysInside;
    if |q.dims| != 4 { return C.Failure(C.ShapeMismatch); }
    if q.dims[2] != 1 { return C.Failure(C.UnsupportedFeature); }
    if q.dims[0] <= 0 || q.dims[0] > kv.cfg.maxNumSeqs { return C.Failure(C.ShapeMismatch); }
    if r.layer < 0 || r.layer >= kv.cfg.numLayers { return C.Failure(C.ShapeMismatch); }
    if !C.IsSupportedComputeDtype(q.dtype) { return C.Failure(C.UnsupportedDtype); }
    if q.dims[3] !in {32, 64, 96, 128, 160, 192, 256} { return C.Failure(C.UnsupportedHeadDim); }
    if scratch == null { return C.Failure(C.WorkspaceExceeded); }
    var out := RunAccepted(kv, q, r, e, toFloat, scratch, partialOrder, reduceOrder);
    res := C.Success(out);
  }
}
