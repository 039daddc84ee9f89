/** Addresses and index arithmetic of the split-K decode kernels: page-table
    lookup, the flat warp index, the split ranges and the partials workspace. */
module DecodeGeometry {
  import opened Arith

  datatype Option<+T> = None | Some(value: T)

  const TOKENS_PER_SPLIT := 512
  const MAX_SPLITS := 16

  /** Split count chosen from the cache length and the number of multiprocessors. */
  function SplitsFor(seqKv: int, smCount: int): (splits: int)
    ensures 1 <= splits <= 16
    ensures splits > 1 ==> (splits - 1) * 512 < seqKv
    ensures smCount > 0 ==> splits <= 2 * smCount
    ensures seqKv <= splits * 512 || splits == 16 || (smCount > 0 && splits == 2 * smCount)
  {
    if seqKv <= 0 then 1
    else
      var want := (seqKv + TOKENS_PER_SPLIT - 1) / TOKENS_PER_SPLIT;
      var cap := if smCount > 0 then smCount * 2 else MAX_SPLITS;
      var a := if want > cap then cap else want;
      var b := if a > MAX_SPLITS then MAX_SPLITS else a;
      if b < 1 then 1 else b
  }

  /** FP32 elements of workspace for the partials of one request batch. */
  function PartialElements(batch: nat, headsQ: nat, numSplits: nat, headDim: nat): nat {
    batch * headsQ * numSplits * (2 + headDim)
  }

  // ---------------------------------------------------------------------------
  // Page table
  // ---------------------------------------------------------------------------

  /** Physical block of a token position, or -1 past the end of the row. */
  function PageTableLookup(table: seq<int>, seqId: nat, token: nat, blockSize: nat, width: nat): int
    requires blockSize > 0
    requires token / blockSize < width ==> seqId * width + token / blockSize < |table|
  {
    var logical := token / blockSize;
    if logical >= width then -1 else table[seqId * width + logical]
  }

  /** Physical row of a token position, or -1 when its block is not mapped. */
  function PageTableRow(table: seq<int>, seqId: nat, token: nat, blockSize: nat, width: nat, numKvBlocks: nat): int
    requires blockSize > 0
    requires token / blockSize < width ==> seqId * width + token / blockSize < |table|
  {
    var physical := PageTableLookup(table, seqId, token, blockSize, width);
    if physical < 0 || physical >= numKvBlocks then -1
    else physical * blockSize + token % blockSize
  }

  // ---------------------------------------------------------------------------
  // Split ranges
  // ---------------------------------------------------------------------------

  function Chunk(seqLen: nat, numSplits: nat): nat
    requires numSplits > 0
  {
    (seqLen + numSplits - 1) / numSplits
  }

  function SplitBegin(seqLen: nat, numSplits: nat, split: nat): nat
    requires numSplits > 0
  {
    split * Chunk(seqLen, numSplits)
  }

  function SplitEnd(seqLen: nat, numSplits: nat, split: nat): nat
    requires numSplits > 0
  {
    var begin := SplitBegin(seqLen, numSplits, split);
    if begin + Chunk(seqLen, numSplits) < seqLen then begin + Chunk(seqLen, numSplits) else seqLen
  }

  /** Consecutive splits meet: a split that is not the last one that reaches the end
      stops where the next one starts, and the last split reaches the end. */
  lemma SplitsMeet(seqLen: nat, numSplits: nat, split: nat)
    requires split < numSplits
    ensures var next := SplitBegin(seqLen, numSplits, split + 1);
            SplitEnd(seqLen, numSplits, split) == if next < seqLen then next else seqLen
    ensures split + 1 == numSplits ==> SplitEnd(seqLen, numSplits, split) == seqLen
  {
    var c := Chunk(seqLen, numSplits);
    assert (split + 1) * c == split * c + c;
    CeilDivIs(seqLen, numSplits);
    assert numSplits * c == c * numSplits;
  }

  /** The split ranges partition the positions: every position below the length is
      in exactly one of them, and nothing else is. */
  lemma SplitsPartition(seqLen: nat, numSplits: nat, j: nat)
    requires numSplits > 0
    ensures j < seqLen ==>
              exists s :: 0 <= s < numSplits && SplitBegin(seqLen, numSplits, s) <= j < SplitEnd(seqLen, numSplits, s)
    ensures forall s, t |
              && 0 <= s < numSplits && 0 <= t < numSplits
              && SplitBegin(seqLen, numSplits, s) <= j < SplitEnd(seqLen, numSplits, s)
              && SplitBegin(seqLen, numSplits, t) <= j < SplitEnd(seqLen, numSplits, t)
              :: s == t
    ensures forall s :: 0 <= s < numSplits && j >= seqLen ==> j >= SplitEnd(seqLen, numSplits, s)
  {
    var c := Chunk(seqLen, numSplits);
    CeilDivIs(seqLen, numSplits);
    if j < seqLen {
      var s := j / c;
      DivModOf(j, c);
      DivBelow(j, numSplits, c);
      assert SplitBegin(seqLen, numSplits, s) <= j < SplitEnd(seqLen, numSplits, s);
    }
    forall s, t |
      && 0 <= s < numSplits && 0 <= t < numSplits
      && SplitBegin(seqLen, numSplits, s) <= j < SplitEnd(seqLen, numSplits, s)
      && SplitBegin(seqLen, numSplits, t) <= j < SplitEnd(seqLen, numSplits, t)
      ensures s == t
    {
      DivModIs(j, c, s, j - s * c);
      DivModIs(j, c, t, j - t * c);
    }
  }

  // ---------------------------------------------------------------------------
  // The flat warp index and the workspace cells
  // ---------------------------------------------------------------------------

  function SplitOf(flat: nat, numHeads: nat, numSplits: nat): nat
    requires numSplits > 0
  {
    flat % numSplits
  }

  function HeadOf(flat: nat, numHeads: nat, numSplits: nat): nat
    requires numHeads > 0 && numSplits > 0
  {
    (flat / numSplits) % numHeads
  }

  function BatchOf(flat: nat, numHeads: nat, numSplits: nat): nat
    requires numHeads > 0 && numSplits > 0
  {
    assert numSplits * numHeads > 0;
    flat / (numSplits * numHeads)
  }

  function FlatOf(batch: nat, head: nat, split: nat, numHeads: nat, numSplits: nat): nat {
    (batch * numHeads + head) * numSplits + split
  }

  /** Encoding then decoding. */
  lemma FlatDecodes(batch: nat, head: nat, split: nat, numBatch: nat, numHeads: nat, numSplits: nat)
    requires batch < numBatch && head < numHeads && split < numSplits
    ensures var flat := FlatOf(batch, head, split, numHeads, numSplits);
            && flat < numBatch * numHeads * numSplits
            && SplitOf(flat, numHeads, numSplits) == split
            && HeadOf(flat, numHeads, numSplits) == head
            && BatchOf(flat, numHeads, numSplits) == batch
  {
    var pair := batch * numHeads + head;
    var flat := FlatOf(batch, head, split, numHeads, numSplits);
    RowFits(batch, numBatch, numHeads);
    RowFits(pair, numBatch * numHeads, numSplits);
    DivModIs(flat, numSplits, pair, split);
    DivModIs(pair, numHeads, batch, head);
    RowFits(head, numHeads, numSplits);
    assert pair * numSplits == batch * (numSplits * numHeads) + head * numSplits;
    DivModIs(flat, numSplits * numHeads, batch, head * numSplits + split);
  }

  /** Decoding then encoding: with FlatDecodes, flat warp indices and
      (batch, head, split) triples correspond one to one. */
  lemma FlatEncodes(flat: nat, numBatch: nat, numHeads: nat, numSplits: nat)
    requires flat < numBatch * numHeads * numSplits && numHeads > 0 && numSplits > 0
    ensures var b, h, s := BatchOf(flat, numHeads, numSplits), HeadOf(flat, numHeads, numSplits),
        SplitOf(flat, numHeads, numSplits);
            && b < numBatch && h < numHeads && s < numSplits
            && flat == FlatOf(b, h, s, numHeads, numSplits)
  {
    var pair, s := flat / numSplits, flat % numSplits;
    DivModOf(flat, numSplits);
    DivBelow(flat, numBatch * numHeads, numSplits);
    var b, h := pair / numHeads, pair % numHeads;
    DivModOf(pair, numHeads);
    DivBelow(pair, numBatch, numHeads);
    FlatDecodes(b, h, s, numBatch, numHeads, numSplits);
  }

  /** Two O rows of the workspace never share a cell. */
  lemma RowsApart(r: nat, r': nat, dim: nat, d: nat, d': nat)
    requires r != r' && d < dim && d' < dim
    ensures r * dim + d != r' * dim + d'
  {
    if r * dim + d == r' * dim + d' {
      DivModIs(r * dim + d, dim, r, d);
      DivModIs(r' * dim + d', dim, r', d');
    }
  }
}
