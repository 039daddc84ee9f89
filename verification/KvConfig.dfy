/** Configuration, tensors and status values shared by the KV cache modules. */
module KvConfig {
  import opened KvKernels
  import opened Layout

  datatype DType = Float32 | Float16 | BFloat16 | Int8 | Int32 | Int64 | Bool | Float64 | UInt8

  predicate IsSupportedComputeDtype(t: DType) { t.Float32? || t.Float16? || t.BFloat16? }

  function DtypeSize(t: DType): (n: nat)
    ensures n > 0
    ensures IsSupportedComputeDtype(t) ==> n == 2 || n == 4
  {
    match t
    case Float32 => 4
    case Float16 => 2
    case BFloat16 => 2
    case Int8 => 1
    case Int32 => 4
    case Int64 => 8
    case Bool => 1
    case Float64 => 8
    case UInt8 => 1
  }

  datatype Code =
    | ShapeMismatch | KVCapacityExceeded | WorkspaceExceeded
    | UnsupportedDtype | UnsupportedHeadDim | UnsupportedFeature
    | LaunchFailed

  datatype Status = Ok | Err(code: Code)

  datatype Result<+T> = Success(value: T) | Failure(code: Code)

  datatype KVCacheConfig = KVCacheConfig(
    numLayers: int, numKvHeads: int, headDim: int, blockSize: int, numBlocks: int, maxNumSeqs: int, dtype: DType)

  /** What Create accepts. */
  predicate ValidConfig(cfg: KVCacheConfig) {
    && cfg.numLayers > 0
    && cfg.numKvHeads > 0
    && cfg.headDim in {32, 64, 96, 128, 160, 192, 256}
    && cfg.blockSize in {1, 8, 16, 32, 64}
    && cfg.numBlocks > 0
    && cfg.maxNumSeqs > 0
    && IsSupportedComputeDtype(cfg.dtype)
  }

  /** The checks in the order of the code; the block-major layout is the only one there is. */
  function ValidateConfig(cfg: KVCacheConfig): (st: Status)
    ensures st.Ok? <==> ValidConfig(cfg)
    ensures st.Ok? <==> && cfg.numLayers >= 1 && cfg.numKvHeads >= 1 && cfg.numBlocks >= 1 && cfg.maxNumSeqs >= 1
                        && cfg.headDim % 32 == 0 && 1 <= cfg.headDim / 32 <= 8 && cfg.headDim / 32 != 7
                        && (cfg.blockSize == 1 || cfg.blockSize in {8, 16, 32, 64})
                        && cfg.dtype in {Float32, Float16, BFloat16}
  {
    if cfg.numLayers <= 0 then Err(ShapeMismatch)
    else if cfg.numKvHeads <= 0 then Err(ShapeMismatch)
    else if cfg.headDim !in {32, 64, 96, 128, 160, 192, 256} then Err(UnsupportedHeadDim)
    else if cfg.blockSize !in {1, 8, 16, 32, 64} then Err(ShapeMismatch)
    else if cfg.numBlocks <= 0 then Err(ShapeMismatch)
    else if cfg.maxNumSeqs <= 0 then Err(ShapeMismatch)
    else if !IsSupportedComputeDtype(cfg.dtype) then Err(UnsupportedDtype)
    else Ok
  }

  const INT32_LIMIT := 0x8000_0000

  /** Every slot number of the pool is an int32. */
  predicate SlotsFitInt32(cfg: KVCacheConfig) { cfg.numBlocks * cfg.blockSize <= INT32_LIMIT }

  /** No slot number of the pool is changed by the cast exactly then. */
  lemma SlotsExactly(cfg: KVCacheConfig)
    requires ValidConfig(cfg)
    ensures (forall slot :: 0 <= slot < SlotCount(cfg) ==> ToInt32(slot) == slot) <==> SlotsFitInt32(cfg)
  {
    if !SlotsFitInt32(cfg) {
      assert ToInt32(INT32_LIMIT) != INT32_LIMIT && INT32_LIMIT < SlotCount(cfg);
    }
  }

  /** static_cast<int32_t>: the low 32 bits read as two's complement. */
  function ToInt32(x: int): (r: int)
    ensures -INT32_LIMIT <= r < INT32_LIMIT
    ensures r == x <==> -INT32_LIMIT <= x < INT32_LIMIT
  {
    var low := x % (2 * INT32_LIMIT);
    if low < INT32_LIMIT then low else low - 2 * INT32_LIMIT
  }

  function ShapeOf(cfg: KVCacheConfig): (shape: KVCacheShape)
    requires ValidConfig(cfg)
    ensures Positive(shape)
  {
    KVCacheShape(cfg.numBlocks, cfg.blockSize, cfg.numKvHeads, cfg.headDim)
  }

  /** Bytes of one token (all heads) in one layer of K or V. */
  function TokenSize(cfg: KVCacheConfig): (tb: nat)
    requires ValidConfig(cfg)
    ensures tb > 0
  {
    SizesPositive(ShapeOf(cfg), DtypeSize(cfg.dtype));
    TokenBytes(ShapeOf(cfg), DtypeSize(cfg.dtype))
  }

  function SlotCount(cfg: KVCacheConfig): nat
    requires ValidConfig(cfg)
  {
    NumSlots(ShapeOf(cfg))
  }

  /** A tensor on the device: dimensions, element type and bytes. */
  datatype Tensor = Tensor(dims: seq<nat>, dtype: DType, data: seq<byte>)

  /** The bytes are as many as the dimensions and the element type say. */
  ghost predicate WellFormed(t: Tensor) {
    |t.dims| == 3 ==> |t.data| == t.dims[0] * (t.dims[1] * (t.dims[2] * DtypeSize(t.dtype)))
  }
}
