/** Address arithmetic of the block-major KV storage. */
module Layout {
  import opened Arith

  datatype KVCacheShape = KVCacheShape(numBlocks: nat, blockSize: nat, numKvHeads: nat, headDim: nat)

  ghost predicate Positive(shape: KVCacheShape) {
    shape.blockSize > 0 && shape.numKvHeads > 0 && shape.headDim > 0
  }

  /** Element offset of (block, offset in block, head, dim) inside one layer. */
  function KvOffset(shape: KVCacheShape, block: nat, offset: nat, head: nat, d: nat): nat {
    ((block * shape.blockSize + offset) * shape.numKvHeads + head) * shape.headDim + d
  }

  function KvLayerElements(shape: KVCacheShape): nat {
    shape.numBlocks * shape.blockSize * shape.numKvHeads * shape.headDim
  }

  datatype Coords = Coords(block: nat, offset: nat, head: nat, d: nat)

  ghost predicate InShape(shape: KVCacheShape, c: Coords) {
    c.block < shape.numBlocks && c.offset < shape.blockSize && c.head < shape.numKvHeads && c.d < shape.headDim
  }

  /** The coordinates stored at element n, by peeling off one radix at a time. */
  function CoordsOf(shape: KVCacheShape, n: nat): Coords
    requires Positive(shape)
  {
    DivisionOfNat(n, shape.headDim);
    var row := n / shape.headDim;
    DivisionOfNat(row, shape.numKvHeads);
    var slot := row / shape.numKvHeads;
    DivisionOfNat(slot, shape.blockSize);
    Coords(slot / shape.blockSize, slot % shape.blockSize, row % shape.numKvHeads, n % shape.headDim)
  }

  /** Every coordinate has its own offset, inside the layer. */
  lemma KvOffsetInjects(shape: KVCacheShape, c: Coords)
    requires Positive(shape) && InShape(shape, c)
    ensures KvOffset(shape, c.block, c.offset, c.head, c.d) < KvLayerElements(shape)
    ensures CoordsOf(shape, KvOffset(shape, c.block, c.offset, c.head, c.d)) == c
  {
    var slot := c.block * shape.blockSize + c.offset;
    var row := slot * shape.numKvHeads + c.head;
    RowFits(c.block, shape.numBlocks, shape.blockSize);
    RowFits(slot, shape.numBlocks * shape.blockSize, shape.numKvHeads);
    RowFits(row, shape.numBlocks * shape.blockSize * shape.numKvHeads, shape.headDim);
    DivModIs(row * shape.headDim + c.d, shape.headDim, row, c.d);
    DivModIs(row, shape.numKvHeads, slot, c.head);
    DivModIs(slot, shape.blockSize, c.block, c.offset);
  }

  /** Every offset of the layer is the offset of a coordinate. */
  lemma KvOffsetCovers(shape: KVCacheShape, n: nat)
    requires Positive(shape) && n < KvLayerElements(shape)
    ensures var c := CoordsOf(shape, n);
            InShape(shape, c) && KvOffset(shape, c.block, c.offset, c.head, c.d) == n
  {
    var row := n / shape.headDim;
    var slot := row / shape.numKvHeads;
    DivModOf(n, shape.headDim);
    DivBelow(n, shape.numBlocks * shape.blockSize * shape.numKvHeads, shape.headDim);
    DivModOf(row, shape.numKvHeads);
    DivBelow(row, shape.numBlocks * shape.blockSize, shape.numKvHeads);
    DivModOf(slot, shape.blockSize);
    DivBelow(slot, shape.numBlocks, shape.blockSize);
  }
}
