/** One layer of KV storage over any run of scatters and resets, read back by a gather. */
module StorageRuns {
  import opened Arith
  import opened KvKernels
  import opened KvConfig
  import opened SlotRows
  import opened KvCache

  /** A storage operation on one layer: tokens scattered to slots, or blocks zeroed. */
  datatype LayerOp = Scatter(src: seq<byte>, slots: seq<int>) | Zero(ids: seq<int>)

  ghost predicate GoodOp(cfg: KVCacheConfig, op: LayerOp)
    requires ValidConfig(cfg)
  {
    op.Scatter? ==> |op.src| == |op.slots| * TokenSize(cfg) && DistinctBelow(op.slots, SlotCount(cfg))
  }

  /** What Storage.Append and Storage.Reset promise about one layer's buffer. */
  ghost predicate Follows(cfg: KVCacheConfig, before: seq<byte>, after: seq<byte>, op: LayerOp)
    requires ValidConfig(cfg) && GoodOp(cfg, op)
  {
    && |before| == |after| == SlotCount(cfg) * TokenSize(cfg)
    && match op
       case Scatter(src, slots) => Scattered(before, after, src, slots, TokenSize(cfg))
       case Zero(ids) =>
         Rows(after, TokenSize(cfg), SlotCount(cfg))
           == ZeroBlocks(Rows(before, TokenSize(cfg), SlotCount(cfg)), ids, cfg.blockSize, TokenSize(cfg))
  }

  /** bufs[i] is the buffer after the first i operations, starting from zeros. */
  ghost predicate LayerRun(cfg: KVCacheConfig, bufs: seq<seq<byte>>, ops: seq<LayerOp>)
    requires ValidConfig(cfg)
  {
    && |bufs| == |ops| + 1
    && bufs[0] == ZeroRow(SlotCount(cfg) * TokenSize(cfg))
    && forall i :: 0 <= i < |ops| ==> GoodOp(cfg, ops[i]) && Follows(cfg, bufs[i], bufs[i + 1], ops[i])
  }

  /** The operation writes slot s. */
  ghost predicate Touches(cfg: KVCacheConfig, op: LayerOp, s: nat)
    requires ValidConfig(cfg)
  {
    match op
    case Scatter(_, slots) => s in slots
    case Zero(ids) => s / cfg.blockSize in ids
  }

  /** `row` is what the operation wrote to slot s: the token mapped to it, or zeros. */
  ghost predicate Wrote(cfg: KVCacheConfig, op: LayerOp, s: nat, row: Row)
    requires ValidConfig(cfg) && GoodOp(cfg, op)
  {
    match op
    case Scatter(src, slots) =>
      exists t :: 0 <= t < |slots| && slots[t] == s && row == Rows(src, TokenSize(cfg), |slots|)[t]
    case Zero(ids) => row == ZeroRow(TokenSize(cfg))
  }

  lemma OneOp(cfg: KVCacheConfig, before: seq<byte>, after: seq<byte>, op: LayerOp, s: nat)
    requires ValidConfig(cfg) && GoodOp(cfg, op) && Follows(cfg, before, after, op) && s < SlotCount(cfg)
    ensures var w, n := TokenSize(cfg), SlotCount(cfg);
            if Touches(cfg, op, s) then Wrote(cfg, op, s, Rows(after, w, n)[s])
            else Rows(after, w, n)[s] == Rows(before, w, n)[s]
  {
    var w, n := TokenSize(cfg), SlotCount(cfg);
    match op
    case Scatter(src, slots) =>
      ScatterIsPutRows(before, after, src, slots, w, n);
      hide Rows, TokenSize, SlotCount, Scattered;
      if s in slots {
        assert slots[FirstIndex(slots, s)] == s;
      }
    case Zero(ids) =>
  }

  /** After any run, slot s holds what the last operation that touched it wrote, and
      zeros when none did.  `last` counts the operations up to and including that one. */
  lemma {:induction false} SlotAfterRun(cfg: KVCacheConfig, bufs: seq<seq<byte>>, ops: seq<LayerOp>, s: nat, last: nat)
    requires ValidConfig(cfg) && LayerRun(cfg, bufs, ops) && s < SlotCount(cfg) && last <= |ops|
    requires forall i :: last <= i < |ops| ==> !Touches(cfg, ops[i], s)
    requires last > 0 ==> Touches(cfg, ops[last - 1], s)
    ensures |bufs[|ops|]| == SlotCount(cfg) * TokenSize(cfg)
    ensures var row := Rows(bufs[|ops|], TokenSize(cfg), SlotCount(cfg))[s];
            if last == 0 then row == ZeroRow(TokenSize(cfg)) else Wrote(cfg, ops[last - 1], s, row)
  {
    hide Rows, TokenSize, SlotCount, Follows, Touches, Wrote, GoodOp, ZeroRow;
    if |ops| == 0 {
      ZeroedRows(SlotCount(cfg), TokenSize(cfg));
    } else {
      var n := |ops| - 1;
      FollowsLength(cfg, bufs[n], bufs[n + 1], ops[n]);
      OneOp(cfg, bufs[n], bufs[n + 1], ops[n], s);
      if last <= n {
        SlotAfterRun(cfg, bufs[..|ops|], ops[..n], s, last);
      }
    }
  }

  lemma FollowsLength(cfg: KVCacheConfig, before: seq<byte>, after: seq<byte>, op: LayerOp)
    requires ValidConfig(cfg) && GoodOp(cfg, op) && Follows(cfg, before, after, op)
    ensures |before| == |after| == SlotCount(cfg) * TokenSize(cfg)
  {
  }

  // ---------------------------------------------------------------------------
  // Gather
  // ---------------------------------------------------------------------------

  /** What Storage.Gather returns for the block list `ids`. */
  ghost predicate Gathered(cfg: KVCacheConfig, src: seq<byte>, ids: seq<int>, out: seq<byte>)
    requires ValidConfig(cfg)
  {
    var blockBytes := BlockBytes(ShapeOf(cfg), DtypeSize(cfg.dtype));
    && blockBytes > 0
    && |src| == cfg.numBlocks * blockBytes
    && |out| == |ids| * blockBytes
    && forall n :: 0 <= n < |out| ==> out[n] == GatheredByte(ShapeOf(cfg), blockBytes, src, ids, n)
  }

  lemma GatherSizes(cfg: KVCacheConfig, src: seq<byte>, ids: seq<int>, out: seq<byte>)
    requires ValidConfig(cfg) && Gathered(cfg, src, ids, out)
    ensures |src| == SlotCount(cfg) * TokenSize(cfg)
    ensures |out| == (|ids| * cfg.blockSize) * TokenSize(cfg)
  {
    hide GatheredByte;
    MulAssociates(cfg.numBlocks, cfg.blockSize, TokenSize(cfg));
    MulAssociates(|ids|, cfg.blockSize, TokenSize(cfg));
  }

  /** Row j * blockSize + o of a gather is slot o of block ids[j], or zeros when that id is
      not a block. */
  lemma GatherRow(cfg: KVCacheConfig, src: seq<byte>, ids: seq<int>, out: seq<byte>, j: nat, o: nat)
    requires ValidConfig(cfg) && Gathered(cfg, src, ids, out) && j < |ids| && o < cfg.blockSize
    ensures |src| == SlotCount(cfg) * TokenSize(cfg) && |out| == (|ids| * cfg.blockSize) * TokenSize(cfg)
    ensures j * cfg.blockSize + o < |ids| * cfg.blockSize
    ensures 0 <= ids[j] < cfg.numBlocks ==> 0 <= ids[j] * cfg.blockSize + o < SlotCount(cfg)
    ensures Rows(out, TokenSize(cfg), |ids| * cfg.blockSize)[j * cfg.blockSize + o]
         == if 0 <= ids[j] < cfg.numBlocks then Rows(src, TokenSize(cfg), SlotCount(cfg))[ids[j] * cfg.blockSize + o]
            else ZeroRow(TokenSize(cfg))
  {
    GatherSizes(cfg, src, ids, out);
    RowFits(j, |ids|, cfg.blockSize);
    var w, b := TokenSize(cfg), cfg.blockSize;
    if 0 <= ids[j] < cfg.numBlocks {
      RowFits(ids[j], cfg.numBlocks, b);
    }
    var got := Rows(out, w, |ids| * b)[j * b + o];
    var want := if 0 <= ids[j] < cfg.numBlocks then Rows(src, w, SlotCount(cfg))[ids[j] * b + o] else ZeroRow(w);
    forall i | 0 <= i < w ensures got[i] == want[i] {
      GatherRowByte(cfg, src, ids, out, j, o, i);
    }
  }

  lemma GatherRowByte(cfg: KVCacheConfig, src: seq<byte>, ids: seq<int>, out: seq<byte>, j: nat, o: nat, i: nat)
    requires ValidConfig(cfg) && Gathered(cfg, src, ids, out) && j < |ids| && o < cfg.blockSize && i < TokenSize(cfg)
    requires |src| == SlotCount(cfg) * TokenSize(cfg) && |out| == (|ids| * cfg.blockSize) * TokenSize(cfg)
    requires j * cfg.blockSize + o < |ids| * cfg.blockSize
    requires 0 <= ids[j] < cfg.numBlocks ==> 0 <= ids[j] * cfg.blockSize + o < SlotCount(cfg)
    ensures Rows(out, TokenSize(cfg), |ids| * cfg.blockSize)[j * cfg.blockSize + o][i]
         == if 0 <= ids[j] < cfg.numBlocks
            then Rows(src, TokenSize(cfg), SlotCount(cfg))[ids[j] * cfg.blockSize + o][i] else 0
  {
    hide Rows;
    var w, b := TokenSize(cfg), cfg.blockSize;
    RowsByte(out, w, |ids| * b, j * b + o, i);
    InBlock(o, b, i, w);
    Regroup(j, b, o, w, i);
    DivModIs((j * b + o) * w + i, b * w, j, o * w + i);
    if 0 <= ids[j] < cfg.numBlocks {
      RowsByte(src, w, SlotCount(cfg), ids[j] * b + o, i);
      Regroup(ids[j], b, o, w, i);
    }
  }

  lemma InBlock(o: nat, b: nat, i: nat, w: nat)
    requires o < b && i < w
    ensures 0 <= o * w + i < b * w
  {
    RowFits(o, b, w);
  }

  lemma Regroup(j: nat, b: nat, o: nat, w: nat, i: nat)
    ensures (j * b + o) * w + i == j * (b * w) + (o * w + i)
  {
  }

  /** Scatter/gather round trip: whatever was run on a zeroed layer, gathering any list of
      ids returns for each slot of each block the row last written to it, zeros where
      nothing was written since a reset, and zeros for ids outside the pool. */
  lemma GatherAfterRun(cfg: KVCacheConfig, bufs: seq<seq<byte>>, ops: seq<LayerOp>, ids: seq<int>, out: seq<byte>,
                       j: nat, o: nat, last: nat)
    requires ValidConfig(cfg) && LayerRun(cfg, bufs, ops) && Gathered(cfg, bufs[|ops|], ids, out)
    requires j < |ids| && o < cfg.blockSize && last <= |ops|
    requires 0 <= ids[j] < cfg.numBlocks ==>
               && (forall i :: last <= i < |ops| ==> !Touches(cfg, ops[i], ids[j] * cfg.blockSize + o))
               && (last > 0 ==> Touches(cfg, ops[last - 1], ids[j] * cfg.blockSize + o))
    ensures |out| == (|ids| * cfg.blockSize) * TokenSize(cfg) && j * cfg.blockSize + o < |ids| * cfg.blockSize
    ensures var row := Rows(out, TokenSize(cfg), |ids| * cfg.blockSize)[j * cfg.blockSize + o];
            if 0 <= ids[j] < cfg.numBlocks && last > 0 then Wrote(cfg, ops[last - 1], ids[j] * cfg.blockSize + o, row)
            else row == ZeroRow(TokenSize(cfg))
  {
    hide Rows, TokenSize, SlotCount, Follows, Touches, Wrote, GoodOp, Gathered, ZeroRow;
    GatherRow(cfg, bufs[|ops|], ids, out, j, o);
    if 0 <= ids[j] < cfg.numBlocks {
      SlotAfterRun(cfg, bufs, ops, ids[j] * cfg.blockSize + o, last);
    }
  }
}
