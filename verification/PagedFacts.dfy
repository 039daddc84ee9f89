/** Where paged decode and its promise part: tokens of other layers, lengths that are left
    out, and exactly when the output is still the promised one. */
module PagedFacts {
  import opened Arith
  import opened Softmax
  import opened OnlineSoftmax
  import opened SplitMerge
  import opened ZeroTokens
  import opened DecodeGeometry
  import opened DecodeModel
  import opened KvKernels
  import opened SlotRows
  import opened BlockPool
  import opened CacheModel
  import opened CacheInvariant
  import opened CacheRefinement
  import opened PagedAttention

  // ---------------------------------------------------------------------------
  // Zero rows are zero tokens
  // ---------------------------------------------------------------------------

  /** An element of zero bytes reads as the number zero, as in all three formats. */
  ghost predicate ZeroReadsZero(cfg: C.KVCacheConfig, toFloat: seq<byte> -> real) {
    toFloat(ZeroRow(C.DtypeSize(cfg.dtype))) == 0.0
  }

  lemma {:induction false} DotZero(x: seq<real>, y: seq<real>, lo: nat, hi: nat)
    requires lo <= hi <= |x| && hi <= |y| && forall i :: lo <= i < hi ==> y[i] == 0.0
    ensures Dot(x, y, lo, hi) == 0.0
  {
    if lo < hi {
      DotZero(x, y, lo, hi - 1);
      assert y[hi - 1] == 0.0;
    }
  }

  lemma ZeroElements(cfg: C.KVCacheConfig, toFloat: seq<byte> -> real, n: nat)
    requires ZeroReadsZero(cfg, toFloat)
    ensures |ZeroRow(n * C.DtypeSize(cfg.dtype))| == n * C.DtypeSize(cfg.dtype)
    ensures forall i :: 0 <= i < n ==>
              Elements(toFloat, C.DtypeSize(cfg.dtype), ZeroRow(n * C.DtypeSize(cfg.dtype)), n)[i] == 0.0
  {
    var eb := C.DtypeSize(cfg.dtype);
    forall i | 0 <= i < n ensures Elements(toFloat, eb, ZeroRow(n * eb), n)[i] == 0.0 {
      RowInside(ZeroRow(n * eb), eb, n, i);
      assert RowAt(ZeroRow(n * eb), eb, i) == ZeroRow(eb);
    }
  }

  /** A slot whose K and V bytes are zero is a zero token for every query. */
  lemma BlankIsZero(cfg: C.KVCacheConfig, toFloat: seq<byte> -> real, qRow: seq<real>, hkv: nat, scale: real)
    requires C.ValidConfig(cfg) && |qRow| == cfg.headDim && hkv < cfg.numKvHeads && ZeroReadsZero(cfg, toFloat)
    ensures C.TokenSize(cfg) == PerSlot(cfg) * C.DtypeSize(cfg.dtype)
    ensures IsZero(PlainToken(cfg, toFloat, qRow, hkv, scale, ZeroRow(C.TokenSize(cfg)), ZeroRow(C.TokenSize(cfg))))
  {
    RowWidth(cfg);
    ZeroElements(cfg, toFloat, PerSlot(cfg));
    RowFits(hkv, cfg.numKvHeads, cfg.headDim);
    hide Elements, Dot;
    var xs := Elements(toFloat, C.DtypeSize(cfg.dtype), ZeroRow(C.TokenSize(cfg)), PerSlot(cfg));
    var zs := Slice(xs, hkv * cfg.headDim, cfg.headDim);
    assert forall i :: 0 <= i < cfg.headDim ==> zs[i] == xs[hkv * cfg.headDim + i];
    DotZero(qRow, zs, 0, cfg.headDim);
  }

  // ---------------------------------------------------------------------------
  // Tokens of other layers
  // ---------------------------------------------------------------------------

  /** The entries appended on layer l. */
  function OnLayer(xs: seq<Entry>, l: nat): (ys: seq<Entry>)
    ensures |ys| <= |xs|
    ensures forall i :: 0 <= i < |ys| ==> ys[i].layer == l && ys[i] in xs
  {
    if xs == [] then []
    else
      var init := OnLayer(xs[..|xs| - 1], l);
      if xs[|xs| - 1].layer == l then init + [xs[|xs| - 1]] else init
  }

  ghost predicate AllOn(xs: seq<Entry>, l: nat) { forall i :: 0 <= i < |xs| ==> xs[i].layer == l }

  lemma AllOnSnoc(init: seq<Entry>, last: Entry, l: nat)
    ensures AllOn(init + [last], l) <==> AllOn(init, l) && last.layer == l
  {
    if AllOn(init + [last], l) {
      assert (init + [last])[|init|] == last;
      assert forall i :: 0 <= i < |init| ==> init[i] == (init + [last])[i];
    }
  }

  lemma OnLayerSnoc(init: seq<Entry>, last: Entry, l: nat)
    ensures OnLayer(init + [last], l) == if last.layer == l then OnLayer(init, l) + [last] else OnLayer(init, l)
    ensures |OnLayer(init, l)| <= |init|
  {
    assert (init + [last])[..|init|] == init;
  }

  lemma {:induction false} OnLayerExact(xs: seq<Entry>, l: nat)
    ensures AllOn(xs, l) ==> OnLayer(xs, l) == xs
    ensures |OnLayer(xs, l)| == |xs| <==> AllOn(xs, l)
  {
    if xs != [] {
      hide OnLayer, AllOn;
      var init, last := xs[..|xs| - 1], xs[|xs| - 1];
      OnLayerExact(init, l);
      assert xs == init + [last];
      AllOnSnoc(init, last, l);
      OnLayerSnoc(init, last, l);
    }
  }

  function LayerMask(xs: seq<Entry>, l: nat): (keep: seq<bool>)
    ensures |keep| == |xs|
    ensures forall i :: 0 <= i < |xs| ==> keep[i] == (xs[i].layer == l)
  {
    seq(|xs|, i requires 0 <= i < |xs| => xs[i].layer == l)
  }

  /** Plain attention over the layer's own tokens is attention over the kept ones. */
  lemma {:induction false} KeptPlain(cfg: C.KVCacheConfig, toFloat: seq<byte> -> real, qRow: seq<real>, hkv: nat,
                                     scale: real, l: nat, xs: seq<Entry>)
    requires C.ValidConfig(cfg) && |qRow| == cfg.headDim && hkv < cfg.numKvHeads && EntriesSized(cfg, l, xs)
    ensures EntriesSized(cfg, l, OnLayer(xs, l))
    ensures Kept(PlainTokens(cfg, toFloat, qRow, hkv, scale, l, xs), LayerMask(xs, l))
         == PlainTokens(cfg, toFloat, qRow, hkv, scale, l, OnLayer(xs, l))
  {
    hide PlainEntry, EntrySized;
    if xs != [] {
      var n := |xs| - 1;
      var ts := PlainTokens(cfg, toFloat, qRow, hkv, scale, l, xs);
      KeptPlain(cfg, toFloat, qRow, hkv, scale, l, xs[..n]);
      assert ts[..n] == PlainTokens(cfg, toFloat, qRow, hkv, scale, l, xs[..n]);
      assert LayerMask(xs, l)[..n] == LayerMask(xs[..n], l);
    }
  }

  /** A token of another layer is a zero token. */
  lemma ForeignIsZero(cfg: C.KVCacheConfig, toFloat: seq<byte> -> real, qRow: seq<real>, hkv: nat, scale: real,
                      l: nat, xs: seq<Entry>)
    requires C.ValidConfig(cfg) && |qRow| == cfg.headDim && hkv < cfg.numKvHeads && EntriesSized(cfg, l, xs)
    requires ZeroReadsZero(cfg, toFloat)
    ensures OthersZero(PlainTokens(cfg, toFloat, qRow, hkv, scale, l, xs), LayerMask(xs, l))
  {
    hide PlainToken, IsZero;
    BlankIsZero(cfg, toFloat, qRow, hkv, scale);
    forall i | 0 <= i < |xs| && xs[i].layer != l ensures IsZero(PlainEntry(cfg, toFloat, qRow, hkv, scale, l, xs[i])) {
      assert EntrySized(cfg, l, xs[i]);
    }
  }

  /** Plain attention on layer l over the tokens appended on layer l only. */
  ghost function OwnAttention(e: real -> real, cfg: C.KVCacheConfig, toFloat: seq<byte> -> real, qRow: seq<real>,
                              hkv: nat, scale: real, l: nat, xs: seq<Entry>): (out: seq<real>)
    requires IsExp(e)
    requires C.ValidConfig(cfg) && |qRow| == cfg.headDim && hkv < cfg.numKvHeads && EntriesSized(cfg, l, xs)
    ensures |out| == cfg.headDim
  {
    KeptPlain(cfg, toFloat, qRow, hkv, scale, l, xs);
    Attention(e, PlainTokens(cfg, toFloat, qRow, hkv, scale, l, OnLayer(xs, l)), cfg.headDim)
  }

  lemma AllOnMask(xs: seq<Entry>, l: nat)
    ensures Dropped(LayerMask(xs, l)) == 0 <==> AllOn(xs, l)
  {
    DroppedNone(LayerMask(xs, l));
    assert forall i :: 0 <= i < |xs| ==> LayerMask(xs, l)[i] == (xs[i].layer == l);
  }

  /** Because one length serves all layers, attention on layer l runs over every token of
      the sequence.  An output coordinate is that of the layer's own tokens if and only if
      all tokens were appended on the layer, or the coordinate is zero anyway. */
  lemma LayerAttentionExactly(e: real -> real, cfg: C.KVCacheConfig, toFloat: seq<byte> -> real, qRow: seq<real>,
                              hkv: nat, scale: real, l: nat, xs: seq<Entry>, d: nat)
    requires IsExp(e) && ZeroReadsZero(cfg, toFloat)
    requires C.ValidConfig(cfg) && |qRow| == cfg.headDim && hkv < cfg.numKvHeads && EntriesSized(cfg, l, xs)
    requires d < cfg.headDim
    ensures Attention(e, PlainTokens(cfg, toFloat, qRow, hkv, scale, l, xs), cfg.headDim)[d]
              == OwnAttention(e, cfg, toFloat, qRow, hkv, scale, l, xs)[d]
       <==> AllOn(xs, l) || OwnAttention(e, cfg, toFloat, qRow, hkv, scale, l, xs)[d] == 0.0
  {
    var ts := PlainTokens(cfg, toFloat, qRow, hkv, scale, l, xs);
    KeptPlain(cfg, toFloat, qRow, hkv, scale, l, xs);
    ForeignIsZero(cfg, toFloat, qRow, hkv, scale, l, xs);
    ZeroTokensExactly(e, ts, LayerMask(xs, l), cfg.headDim, d);
    AllOnMask(xs, l);
  }

  /** The same of the decoded output, after any run from a new cache that ends with equal
      revisions. */
  lemma LayerOutputExactly(cfg: C.KVCacheConfig, ops: seq<CacheRuns.Op>, e: real -> real, toFloat: seq<byte> -> real,
                           kBytes: seq<byte>, vBytes: seq<byte>, q: Query, r: Request, p: DecodeFwdParams, s: nat,
                           h: nat, hkv: nat, d: nat)
    requires C.ValidConfig(cfg) && C.SlotsFitInt32(cfg) && CacheRuns.LegalRun(cfg, ops) && IsExp(e)
    requires ZeroReadsZero(cfg, toFloat)
    requires var c := CacheRuns.Run(cfg, ops).0;
             && c.synced == c.revision
             && LaunchOn(c, toFloat, kBytes, vBytes, q, r, p)
             && QueryMatches(cfg, q) && HeadAt(cfg, q, s, h, hkv) && d < cfg.headDim
             && r.seqLens.Some? && r.seqLens.value[s] == c.lens[s]
    ensures Readable(p) && s < p.batch && h < p.numHeads && 0 <= r.layer
    ensures var xs := CacheRuns.Run(cfg, ops).1[s];
            && EntriesSized(cfg, r.layer, xs)
            && var own := OwnAttention(e, cfg, toFloat, QueryRow(q, s, h), hkv, EffectiveScale(r), r.layer, xs)[d];
            Normalise(MergeAll(e, SplitPartials(e, p, s, h), p.headDim))[d] == own <==> AllOn(xs, r.layer) || own == 0.0
  {
    hide IsExp, CacheRuns.Run, Readable, LaunchOn, Normalise, MergeAll, SplitPartials, Attention, OwnAttention,
         PlainTokens, InGroup, QueryRow;
    EndToEnd(cfg, ops, e, toFloat, kBytes, vBytes, q, r, p, s, h, hkv);
    LayerAttentionExactly(e, cfg, toFloat, QueryRow(q, s, h), hkv, EffectiveScale(r), r.layer,
                          CacheRuns.Run(cfg, ops).1[s], d);
  }

  // ---------------------------------------------------------------------------
  // Lengths that are left out
  // ---------------------------------------------------------------------------

  /** Position j is mapped exactly when it lies in the n blocks the device row lists. */
  lemma MappedExactly(c: Cache, s: nat, n: nat, j: nat)
    requires Inv(c) && s < c.cfg.maxNumSeqs && MirrorAt(c, s, n)
    ensures j / c.cfg.blockSize < c.cfg.numBlocks ==> s * c.cfg.numBlocks + j / c.cfg.blockSize < |c.device|
    ensures PageTableRow(c.device, s, j, c.cfg.blockSize, c.cfg.numBlocks, c.cfg.numBlocks) >= 0
            <==> j < n * c.cfg.blockSize
  {
    var b := j / c.cfg.blockSize;
    if b < c.cfg.numBlocks {
      RowElement(c.device, c.cfg.numBlocks, c.cfg.maxNumSeqs, s, b);
    }
    if j < n * c.cfg.blockSize {
      DivBelow(j, n, c.cfg.blockSize);
      RowFits(c.owned[s][b], c.cfg.numBlocks, c.cfg.blockSize);
    } else {
      GroupOverflow(j, c.cfg.blockSize, n);
    }
  }

  lemma {:induction false} VisibleCount(c: Cache, toFloat: seq<byte> -> real, kBytes: seq<byte>, vBytes: seq<byte>,
                                        q: Query, r: Request, p: DecodeFwdParams, s: nat, h: nat, n: nat, j: nat)
    requires Inv(c) && LaunchOn(c, toFloat, kBytes, vBytes, q, r, p) && Readable(p) && s < p.batch && h < p.numHeads
    requires s < c.cfg.maxNumSeqs && MirrorAt(c, s, n) && j <= SeqLen(p, s)
    ensures |Visible(p, s, h, 0, j)| == if j < n * c.cfg.blockSize then j else n * c.cfg.blockSize
  {
    hide Inv, TokenAt, QStart, KvHead, LayerElements, PageTableRow;
    if j > 0 {
      VisibleCount(c, toFloat, kBytes, vBytes, q, r, p, s, h, n, j - 1);
      MappedExactly(c, s, n, j - 1);
      assert RowReadable(p, s, h, j - 1);
    } else {
      MulMono(0, n, c.cfg.blockSize);
    }
  }

  /** Blocks listed in row s of the device table. */
  function MappedBlocks(c: Cache, s: nat): nat
    requires Sized(c) && s < c.cfg.maxNumSeqs
  {
    LeadingUsed(PageRow(c, c.device, s))
  }

  lemma MappedIs(c: Cache, s: nat)
    requires Inv(c) && c.synced == c.revision && s < c.cfg.maxNumSeqs
    ensures MirrorAt(c, s, MappedBlocks(c, s)) && MappedBlocks(c, s) <= |c.owned[s]|
    ensures c.lens[s] <= MappedBlocks(c, s) * c.cfg.blockSize <= c.cfg.numBlocks * c.cfg.blockSize
  {
    hide PoolInv, RowAgrees, PageRow, PaddedRow, LeadingUsed;
    assert MirrorRow(c, s);
    var n :| 0 <= n && MirrorAt(c, s, n);
    OwnedMapped(c, s);
    PaddedLeading(c.owned[s][..n], c.cfg.numBlocks);
    MulMono(n, c.cfg.numBlocks, c.cfg.blockSize);
  }

  /** Positions past the length, but inside the mapped blocks, lie in slots no token holds. */
  lemma TailIsBlank(c: Cache, a: Tokens, l: nat, s: nat, j: nat)
    requires Refines(c, a) && l < c.cfg.numLayers && s < c.cfg.maxNumSeqs && Backed(c, s, j) && j >= c.lens[s]
    ensures var slot := SlotOf(c.owned, c.cfg.blockSize, s, j); 0 <= slot < C.SlotCount(c.cfg) && Blank(c, l, slot)
  {
    hide PoolInv, Ownership, RowAgrees, MirrorRow, SlotOf, Blank, Shows;
    SlotInRange(c, s, j);
    var slot := SlotOf(c.owned, c.cfg.blockSize, s, j);
    if Live(c, slot) {
      var s', i :| LiveAt(c, slot, s', i);
      SlotInjective(c, s, j, s', i);
    }
  }

  lemma RowOfMapped(c: Cache, s: nat, n: nat, j: nat)
    requires Inv(c) && s < c.cfg.maxNumSeqs && MirrorAt(c, s, n) && j < n * c.cfg.blockSize
    ensures Backed(c, s, j) && j / c.cfg.blockSize < c.cfg.numBlocks
    ensures s * c.cfg.numBlocks + j / c.cfg.blockSize < |c.device|
    ensures PageTableRow(c.device, s, j, c.cfg.blockSize, c.cfg.numBlocks, c.cfg.numBlocks)
            == SlotOf(c.owned, c.cfg.blockSize, s, j)
  {
    DivBelow(j, n, c.cfg.blockSize);
    RowElement(c.device, c.cfg.numBlocks, c.cfg.maxNumSeqs, s, j / c.cfg.blockSize);
  }

  /** A mapped position past the length is a zero token. */
  lemma TailTokenIsZero(c: Cache, a: Tokens, toFloat: seq<byte> -> real, kBytes: seq<byte>, vBytes: seq<byte>,
                        q: Query, r: Request, p: DecodeFwdParams, s: nat, h: nat, n: nat, j: nat)
    requires Refines(c, a) && LaunchOn(c, toFloat, kBytes, vBytes, q, r, p) && Readable(p)
    requires SameFormat(c.cfg, p) && HeadMapped(c.cfg, p, h)
    requires ZeroReadsZero(c.cfg, toFloat) && s < p.batch && h < p.numHeads && s < c.cfg.maxNumSeqs && MirrorAt(c, s, n)
    requires c.lens[s] <= j < n * c.cfg.blockSize && j < SeqLen(p, s)
    ensures TableReadable(p, s, j) && RowReadable(p, s, h, j) && TokenRow(p, s, j) >= 0 && IsZero(TokenAt(p, s, h, j))
  {
    hide PoolInv, Ownership, RowAgrees, MirrorRow, SlotOf, TokenAt, PlainToken, KvHead, QStart, LayerElements, IsZero,
         Shows;
    assert TableReadable(p, s, j) && RowReadable(p, s, h, j) && QStart(p, s, h) + p.headDim <= |p.q|;
    RowOfMapped(c, s, n, j);
    TailIsBlank(c, a, r.layer, s, j);
    TokenOfSlot(c, toFloat, kBytes, vBytes, q, r, p, s, h, j);
    BlankIsZero(c.cfg, toFloat, Slice(p.q, QStart(p, s, h), p.headDim), KvHead(p, h), p.scale);
  }

  /** Position j is unmapped or a zero token. */
  ghost predicate ZeroAt(p: DecodeFwdParams, b: nat, h: nat, j: nat)
    requires Readable(p) && b < p.batch && h < p.numHeads && j < SeqLen(p, b)
  {
    assert RowReadable(p, b, h, j);
    TokenRow(p, b, j) >= 0 ==> IsZero(TokenAt(p, b, h, j))
  }

  lemma {:induction false} ZeroPositions(p: DecodeFwdParams, b: nat, h: nat, lo: nat, hi: nat)
    requires Readable(p) && b < p.batch && h < p.numHeads && hi <= SeqLen(p, b)
    requires forall j :: lo <= j < hi ==> ZeroAt(p, b, h, j)
    ensures forall i :: 0 <= i < |Visible(p, b, h, lo, hi)| ==> IsZero(Visible(p, b, h, lo, hi)[i])
  {
    if lo < hi {
      hide Readable, TokenAt, IsZero, Visible, TokenRow;
      ZeroPositions(p, b, h, lo, hi - 1);
      VisibleStep(p, b, h, lo, hi - 1);
      assert ZeroAt(p, b, h, hi - 1);
    } else {
      NoneVisible(p, b, h, lo, hi);
    }
  }

  lemma MappedOnDevice(c: Cache, toFloat: seq<byte> -> real, kBytes: seq<byte>, vBytes: seq<byte>, q: Query,
                       r: Request, p: DecodeFwdParams, s: nat, n: nat, j: nat)
    requires Inv(c) && LaunchOn(c, toFloat, kBytes, vBytes, q, r, p) && Readable(p) && s < p.batch
    requires s < c.cfg.maxNumSeqs
    requires MirrorAt(c, s, n) && j < SeqLen(p, s)
    ensures TableReadable(p, s, j) && (TokenRow(p, s, j) >= 0 <==> j < n * c.cfg.blockSize)
  {
    hide LayerElements, PageTableRow, Inv;
    MappedExactly(c, s, n, j);
  }

  /** Without seq_lens the kernel runs over every mapped position: the sequence's tokens,
      then zero tokens up to the end of its last block. */
  lemma NullLengthsSeen(c: Cache, a: Tokens, toFloat: seq<byte> -> real, kBytes: seq<byte>, vBytes: seq<byte>,
                        q: Query, r: Request, p: DecodeFwdParams, s: nat, h: nat, hkv: nat)
    requires Refines(c, a) && c.synced == c.revision && LaunchOn(c, toFloat, kBytes, vBytes, q, r, p)
    requires QueryMatches(c.cfg, q) && HeadAt(c.cfg, q, s, h, hkv) && ZeroReadsZero(c.cfg, toFloat) && r.seqLens.None?
    ensures Readable(p) && s < p.batch && h < p.numHeads && p.headDim == c.cfg.headDim
    ensures s < |a| && 0 <= r.layer && EntriesSized(c.cfg, r.layer, a[s])
    ensures var us := Visible(p, s, h, 0, SeqLen(p, s));
            && c.lens[s] <= |us| == MappedBlocks(c, s) * c.cfg.blockSize
            && us[..c.lens[s]] == PlainTokens(c.cfg, toFloat, QueryRow(q, s, h), hkv, EffectiveScale(r), r.layer, a[s])
            && forall i :: c.lens[s] <= i < |us| ==> IsZero(us[i])
  {
    WiredLaunch(c, toFloat, kBytes, vBytes, q, r, p, s, h, hkv);
    RefinedShows(c, a, r.layer, s);
    hide Refines, Inv, LaunchOn, Readable, TokenAt, PlainEntry, Visible, KvHead, QStart, IsZero, MirrorAt,
         PlainTokens, MappedBlocks, TokenRow, QueryRow, HeadAt, ShowsSequence, LaunchInputs, LaunchParams;
    SeenWithoutLengths(c, a, toFloat, kBytes, vBytes, q, r, p, s, h);
  }

  lemma SeenWithoutLengths(c: Cache, a: Tokens, toFloat: seq<byte> -> real, kBytes: seq<byte>, vBytes: seq<byte>,
                           q: Query, r: Request, p: DecodeFwdParams, s: nat, h: nat)
    requires Refines(c, a) && ShowsSequence(c, a, r.layer, s) && c.synced == c.revision
    requires LaunchOn(c, toFloat, kBytes, vBytes, q, r, p) && Readable(p)
    requires SameFormat(c.cfg, p) && HeadMapped(c.cfg, p, h) && ZeroReadsZero(c.cfg, toFloat)
    requires s < p.batch && h < p.numHeads && s < c.cfg.maxNumSeqs && r.seqLens.None? && p.seqLens.None?
    requires SeqLen(p, s) == c.cfg.numBlocks * c.cfg.blockSize && QStart(p, s, h) + p.headDim <= |p.q|
    ensures EntriesSized(c.cfg, r.layer, a[s])
    ensures var us := Visible(p, s, h, 0, SeqLen(p, s));
            && c.lens[s] <= |us| == MappedBlocks(c, s) * c.cfg.blockSize
            && us[..c.lens[s]]
                 == PlainTokens(c.cfg, toFloat, Slice(p.q, QStart(p, s, h), p.headDim), KvHead(p, h), p.scale,
                                r.layer, a[s])
            && forall i :: c.lens[s] <= i < |us| ==> IsZero(us[i])
  {
    var n, len, total := MappedBlocks(c, s), c.lens[s], c.cfg.numBlocks * c.cfg.blockSize;
    MappedIs(c, s);
    hide Refines, Inv, LaunchOn, Readable, TokenAt, PlainEntry, Visible, KvHead, QStart, IsZero, MirrorAt,
         PlainTokens, MappedBlocks, TokenRow;
    VisibleCount(c, toFloat, kBytes, vBytes, q, r, p, s, h, n, total);
    VisibleCount(c, toFloat, kBytes, vBytes, q, r, p, s, h, n, len);
    VisibleSplits(p, s, h, 0, len, total);
    VisibleIsPlain(c, a, toFloat, kBytes, vBytes, q, r, p, s, h, len);
    assert a[s][..len] == a[s];
    forall j | len <= j < total ensures ZeroAt(p, s, h, j) {
      MappedOnDevice(c, toFloat, kBytes, vBytes, q, r, p, s, n, j);
      if TokenRow(p, s, j) >= 0 {
        TailTokenIsZero(c, a, toFloat, kBytes, vBytes, q, r, p, s, h, n, j);
      }
    }
    ZeroPositions(p, s, h, len, total);
  }

  /** Hence, without seq_lens, an output coordinate is that of plain attention if and only
      if the mapped blocks are exactly full, or the coordinate is zero anyway. */
  lemma NullLengthsExactly(e: real -> real, c: Cache, a: Tokens, toFloat: seq<byte> -> real, kBytes: seq<byte>,
                           vBytes: seq<byte>, q: Query, r: Request, p: DecodeFwdParams, s: nat, h: nat, hkv: nat,
                           d: nat, row: seq<real>)
    requires IsExp(e) && Refines(c, a) && c.synced == c.revision && LaunchOn(c, toFloat, kBytes, vBytes, q, r, p)
    requires ZeroReadsZero(c.cfg, toFloat) && HeadAt(c.cfg, q, s, h, hkv) && s < |a| && r.seqLens.None?
    requires RowIsPlain(e, c.cfg, toFloat, q, r, a[s], s, h, hkv, row) && d < c.cfg.headDim
    ensures Readable(p) && s < p.batch && h < p.numHeads && |row| == p.headDim == c.cfg.headDim
    ensures Normalise(MergeAll(e, SplitPartials(e, p, s, h), p.headDim))[d] == row[d]
       <==> c.lens[s] == MappedBlocks(c, s) * c.cfg.blockSize || row[d] == 0.0
  {
    NullLengthsSeen(c, a, toFloat, kBytes, vBytes, q, r, p, s, h, hkv);
    hide Refines, LaunchOn, Readable, Visible, Attention, Normalise, MergeAll, SplitPartials, PlainTokens,
         MappedBlocks, IsZero, IsExp, QueryRow, HeadAt;
    SplitKIsExact(e, p, s, h);
    ZeroTailExactly(e, Visible(p, s, h, 0, SeqLen(p, s)), c.lens[s], p.headDim, d);
  }
}
