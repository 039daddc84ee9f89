/** A concrete input for every promise that the code does not keep, most of them runs from a
    new cache. */
module Counterexamples {
  import opened Arith
  import opened Softmax
  import opened OnlineSoftmax
  import opened SplitMerge
  import opened ZeroTokens
  import opened DecodeGeometry
  import opened DecodeModel
  import opened KvKernels
  import opened KvConfig
  import opened SlotRows
  import opened KvCache
  import opened BlockPool
  import opened CacheModel
  import opened CacheInvariant
  import opened CacheRefinement
  import opened CacheRuns
  import opened CacheFacts
  import PA = PagedAttention
  import PF = PagedFacts
  import NA = NaiveAttention
  import FT = FlashTiles

  // ---------------------------------------------------------------------------
  // Small runs
  // ---------------------------------------------------------------------------

  lemma RunStart(cfg: KVCacheConfig)
    requires ValidConfig(cfg) && SlotsFitInt32(cfg)
    ensures LegalRun(cfg, []) && Run(cfg, []) == (Fresh(cfg), NoTokens(cfg))
  {
  }

  lemma RunNext(cfg: KVCacheConfig, ops: seq<Op>, op: Op)
    requires ValidConfig(cfg) && SlotsFitInt32(cfg) && LegalRun(cfg, ops) && LegalOp(cfg, op)
    ensures LegalRun(cfg, ops + [op])
    ensures var (c, a) := Run(cfg, ops);
            Run(cfg, ops + [op]) == (Step(c, op).0, SpecStep(cfg, a, op, Step(c, op).1))
  {
    assert (ops + [op])[..|ops + [op]| - 1] == ops;
  }

  /** An append whose blocks are available goes through exactly when environment and
      tensors allow it. */
  lemma AppendOutcome(c: Cache, a: Tokens, op: Op)
    requires Refines(c, a) && op.AppendOp? && LegalOp(c.cfg, op)
    requires ArgumentCheck(c.cfg, op.s, op.layer, op.kNew, op.vNew).Ok?
    requires BlocksNeeded(c.lens[op.s] + NumNew(op.kNew), c.cfg.blockSize) - |c.owned[op.s]| <= |c.pool.free|
    ensures Admitted(c, op.s, op.layer, op.kNew, op.vNew)
    ensures Step(c, op).1.Ok? <==> WriteAccepted(c, op.layer, op.kNew, op.vNew, op.env)
    ensures var (c', g) := (Step(c, op).0, GrowSlotBuffer(c, NumNew(op.kNew), op.env.bufferOk).0);
            && c'.slotBuffer == g.slotBuffer && c'.slotCapacity == g.slotCapacity
            && c'.cfg == c.cfg && c'.synced == c.synced
            && c'.revision == c.revision + if Step(c, op).1.Ok? then 1 else 0
  {
    hide PoolInv, Ownership, RowAgrees, MirrorRow, Attach, AppendTokens, WriteAccepted, Admitted, Prepared;
    RefusedExactly(c, a, op);
    AdmittedEffect(c, a, op.s, op.layer, op.kNew, op.vNew, op.env);
    BufferAfter(c, a, op);
    if Step(c, op).1.Ok? {
      CommitBumps(c, a, op);
    } else {
      FailedState(c, a, op);
    }
  }

  // ---------------------------------------------------------------------------
  // The stale mirror
  // ---------------------------------------------------------------------------

  function OtherDtype(t: DType): DType { if t.Float32? then Float16 else Float32 }

  function ZeroTensor(cfg: KVCacheConfig, n: nat, t: DType): (x: Tensor)
    requires ValidConfig(cfg)
    ensures WellFormed(x)
  {
    Tensor([n, cfg.numKvHeads, cfg.headDim], t, ZeroRow(n * (cfg.numKvHeads * (cfg.headDim * DtypeSize(t)))))
  }

  /** One token of the wrong dtype for sequence 0. */
  function WrongDtype(cfg: KVCacheConfig): Op
    requires ValidConfig(cfg)
  {
    var x := ZeroTensor(cfg, 1, OtherDtype(cfg.dtype));
    AppendOp(0, 0, x, x, Env(true, true))
  }

  /** On every configuration: after one append of the wrong dtype to a new cache, and a
      SyncPageTable after it, the revisions agree and the tables do not. */
  lemma StaleMirrorRun(cfg: KVCacheConfig)
    requires ValidConfig(cfg) && SlotsFitInt32(cfg)
    ensures LegalRun(cfg, [WrongDtype(cfg)] + [SyncOp])
    ensures !WholeMirror(Run(cfg, [WrongDtype(cfg)] + [SyncOp]).0)
  {
    var op, c, a := WrongDtype(cfg), Fresh(cfg), NoTokens(cfg);
    RunStart(cfg);
    assert LegalOp(cfg, op);
    RunNext(cfg, [], op);
    assert [] + [op] == [op];
    RunNext(cfg, [op], SyncOp);
    OneBlock(cfg.blockSize);
    hide Run;
    AppendOutcome(c, a, op);
    WholeMirrorStep(c, a, op);
  }

  lemma OneBlock(blockSize: nat)
    requires blockSize > 0
    ensures BlocksNeeded(1, blockSize) == 1
  {
    DivModIs(blockSize, blockSize, 1, 0);
  }

  // ---------------------------------------------------------------------------
  // The stuck slot buffer
  // ---------------------------------------------------------------------------

  /** Two layers, one KV head of dimension 32, 20 blocks of 64 slots, one sequence. */
  const SMALL := KVCacheConfig(2, 1, 32, 64, 20, 1, Float32)

  lemma SmallIsValid()
    ensures ValidConfig(SMALL) && SlotsFitInt32(SMALL) && SlotCount(SMALL) == 1280 && TokenSize(SMALL) == 128
  {
  }

  function OneZeroToken(): Op {
    var x := Tensor([1, 1, 32], Float32, ZeroRow(128));
    AppendOp(0, 0, x, x, Env(true, true))
  }

  /** 1025 tokens, more than the first buffer holds, with the larger buffer refused. */
  function RefusedGrowth(): Op {
    var x := Tensor([1025, 1, 32], Float32, ZeroRow(1025 * 128));
    AppendOp(0, 0, x, x, Env(false, true))
  }

  /** A sequence alone on the cache misses at most what is free. */
  lemma AloneFits(c: Cache, len: nat)
    requires Inv(c) && c.cfg.maxNumSeqs == 1 && len <= c.cfg.numBlocks * c.cfg.blockSize
    ensures BlocksNeeded(len, c.cfg.blockSize) - |c.owned[0]| <= |c.pool.free|
  {
    BlocksConserved(c);
    assert c.owned == [c.owned[0]] && OwnedTotal([]) == 0;
    assert OwnedTotal(c.owned) == |c.owned[0]|;
    EnoughBlocks(len, c.cfg.numBlocks, c.cfg.blockSize);
  }

  /** After one successful append, a failed larger one and a successful reset of the
      sequence, the append that worked on the new cache fails. */
  lemma StuckRun()
    ensures ValidConfig(SMALL) && SlotsFitInt32(SMALL)
    ensures LegalRun(SMALL, [OneZeroToken()] + [RefusedGrowth()] + [ResetOp(0, 2)]) && LegalOp(SMALL, OneZeroToken())
    ensures var c := Run(SMALL, [OneZeroToken()] + [RefusedGrowth()] + [ResetOp(0, 2)]).0;
            Stuck(c) && Step(c, OneZeroToken()).1.Err?
  {
    SmallIsValid();
    var op1, op2, op3 := OneZeroToken(), RefusedGrowth(), ResetOp(0, 2);
    RunStart(SMALL);
    RunNext(SMALL, [], op1);
    assert [] + [op1] == [op1];
    RunNext(SMALL, [op1], op2);
    RunNext(SMALL, [op1] + [op2], op3);
    var (c1, a1) := Run(SMALL, [op1]);
    var (c2, a2) := Run(SMALL, [op1] + [op2]);
    var (c3, a3) := Run(SMALL, [op1] + [op2] + [op3]);
    hide Run;
    FirstAppend(Fresh(SMALL), NoTokens(SMALL), op1);
    hide Refines, Inv, Step, SpecStep, WriteAccepted;
    SecondGrowth(c1, a1, op2);
    StuckStep(c2, a2, op3);
    StuckStep(c3, a3, op1);
  }

  lemma FirstAppend(c: Cache, a: Tokens, op: Op)
    requires ValidConfig(SMALL) && SlotsFitInt32(SMALL) && c == Fresh(SMALL) && Refines(c, a) && op == OneZeroToken()
    ensures LegalOp(c.cfg, op) && Step(c, op).1.Ok?
    ensures Step(c, op).0.slotBuffer && Step(c, op).0.slotCapacity == 1024 && Step(c, op).0.lens == [1]
  {
    SmallIsValid();
    AloneFits(c, 1);
    hide PoolInv, Inv, Step, AppendTokens;
    AppendOutcome(c, a, op);
    StepRefines(c, a, op);
  }

  lemma SecondGrowth(c: Cache, a: Tokens, op: Op)
    requires c.cfg == SMALL && Refines(c, a) && op == RefusedGrowth() && c.lens == [1] && c.slotCapacity == 1024
    ensures LegalOp(c.cfg, op) && Stuck(Step(c, op).0) && Step(c, op).0.slotCapacity == 1024
  {
    SmallIsValid();
    AloneFits(c, 1026);
    hide PoolInv, Inv, Step, AppendTokens;
    AppendOutcome(c, a, op);
    FailedGrowthSticks(c, a, op);
  }

  // ---------------------------------------------------------------------------
  // Two layers, and lengths that are left out
  // ---------------------------------------------------------------------------

  /** 1.0f, little-endian. */
  const ONE: seq<byte> := [0, 0, 128, 63]

  function Ones(n: nat): (bytes: seq<byte>)
    ensures |bytes| == 4 * n
    ensures forall i :: 0 <= i < 4 * n ==> bytes[i] == ONE[i % 4]
  {
    seq(4 * n, i requires 0 <= i < 4 * n => ONE[i % 4])
  }

  /** The formats read four zero bytes as 0 and these four as 1. */
  ghost predicate ReadsFloats(toFloat: seq<byte> -> real) {
    toFloat(ZeroRow(4)) == 0.0 && toFloat(ONE) == 1.0
  }

  /** One token on a layer: a zero key, and a value row of ones. */
  function OnesToken(layer: nat): Op {
    AppendOp(0, layer, Tensor([1, 1, 32], Float32, ZeroRow(128)), Tensor([1, 1, 32], Float32, Ones(32)),
             Env(true, true))
  }

  function OnesEntry(layer: nat): Entry { Entry(layer, ZeroRow(128), Ones(32)) }

  lemma OnesEntrySized(l: nat, layer: nat)
    ensures ValidConfig(SMALL) && PA.EntrySized(SMALL, l, OnesEntry(layer))
  {
    SmallIsValid();
  }

  lemma OneRow(bytes: seq<byte>)
    requires |bytes| == 128
    ensures Rows(bytes, 128, 1) == [bytes]
  {
    RowInside(bytes, 128, 1, 0);
    assert RowAt(bytes, 128, 0) == bytes;
  }

  /** The append of a ones token onto a sequence with room adds its entry. */
  lemma OnesAppend(c: Cache, a: Tokens, layer: nat)
    requires c.cfg == SMALL && Refines(c, a) && layer < 2 && c.lens[0] < 1280
    requires c.slotCapacity == 0 || (c.slotBuffer && c.slotCapacity >= 1)
    ensures LegalOp(c.cfg, OnesToken(layer)) && Step(c, OnesToken(layer)).1.Ok?
    ensures SpecStep(c.cfg, a, OnesToken(layer), Ok) == a[0 := a[0] + [OnesEntry(layer)]]
    ensures var c' := Step(c, OnesToken(layer)).0;
            c'.cfg == SMALL && c'.slotBuffer && c'.slotCapacity >= 1
  {
    SmallIsValid();
    var op := OnesToken(layer);
    AloneFits(c, c.lens[0] + 1);
    OneRow(op.kNew.data);
    OneRow(op.vNew.data);
    assert ValueBytes(op.kNew, op.vNew) == op.vNew.data;
    assert Appended(c.cfg, layer, op.kNew, op.vNew) == [OnesEntry(layer)];
    hide PoolInv, Inv, Step, AppendTokens, Appended, Ones;
    AppendOutcome(c, a, op);
  }

  /** A value row of ones reads as ones. */
  lemma OnesRead(toFloat: seq<byte> -> real, qRow: seq<real>, scale: real, l: nat, d: nat)
    requires ReadsFloats(toFloat) && |qRow| == 32 && d < 32
    ensures ValidConfig(SMALL) && PA.EntrySized(SMALL, l, OnesEntry(l))
    ensures PA.PlainEntry(SMALL, toFloat, qRow, 0, scale, l, OnesEntry(l)).value[d] == 1.0
  {
    OnesEntrySized(l, l);
    RowInside(Ones(32), 4, 32, d);
    assert RowAt(Ones(32), 4, d) == ONE;
  }

  /** The tokens after a run that only appended, and a usable slot buffer. */
  ghost predicate Appending(ops: seq<Op>, xs: seq<Entry>) {
    && ValidConfig(SMALL) && SlotsFitInt32(SMALL) && LegalRun(SMALL, ops)
    && var (c, a) := Run(SMALL, ops);
    a == [xs] && |xs| < 1280 && (c.slotCapacity == 0 || (c.slotBuffer && c.slotCapacity >= 1))
  }

  lemma NothingAppended()
    ensures Appending([], [])
  {
    SmallIsValid();
    RunStart(SMALL);
  }

  lemma OneMore(ops: seq<Op>, xs: seq<Entry>, layer: nat)
    requires Appending(ops, xs) && layer < 2 && |xs| < 1279
    ensures Appending(ops + [OnesToken(layer)], xs + [OnesEntry(layer)])
  {
    SmallIsValid();
    var (c, a) := Run(SMALL, ops);
    assert |a[0]| == c.lens[0];
    hide Run, Refines, Inv, Step, SpecStep, OnesToken, OnesEntry;
    OnesAppend(c, a, layer);
    RunNext(SMALL, ops, OnesToken(layer));
    assert a[0 := a[0] + [OnesEntry(layer)]] == [xs + [OnesEntry(layer)]];
  }

  /** A run followed by a sync. */
  lemma ThenSync(ops: seq<Op>, xs: seq<Entry>)
    requires Appending(ops, xs)
    ensures LegalRun(SMALL, ops + [SyncOp])
    ensures var (c, a) := Run(SMALL, ops + [SyncOp]); c.synced == c.revision && a == [xs] && c.lens == [|xs|]
  {
    RunNext(SMALL, ops, SyncOp);
    var (c, a) := Run(SMALL, ops + [SyncOp]);
    assert |a[0]| == c.lens[0] && |c.lens| == 1;
  }

  function TwoLayers(): seq<Op> { [] + [OnesToken(0)] + [OnesToken(1)] + [SyncOp] }

  /** The run appends one token on each layer and ends in sync. */
  lemma TwoLayersRun()
    ensures ValidConfig(SMALL) && SlotsFitInt32(SMALL) && LegalRun(SMALL, TwoLayers())
    ensures var (c, a) := Run(SMALL, TwoLayers());
            c.synced == c.revision && a == [[OnesEntry(0), OnesEntry(1)]] && c.lens == [2]
  {
    hide Appending, Run, OnesToken, OnesEntry;
    SmallIsValid();
    NothingAppended();
    OneMore([], [], 0);
    OneMore([] + [OnesToken(0)], [] + [OnesEntry(0)], 1);
    ThenSync([] + [OnesToken(0)] + [OnesToken(1)], [] + [OnesEntry(0)] + [OnesEntry(1)]);
    assert [] + [OnesEntry(0)] + [OnesEntry(1)] == [OnesEntry(0), OnesEntry(1)];
  }

  /** After it, every coordinate that decode returns on layer 0 differs from attention
      over the token of layer 0, for every query, launch and split count. */
  lemma TwoLayersDilute(e: real -> real, toFloat: seq<byte> -> real, kBytes: seq<byte>, vBytes: seq<byte>,
                        q: PA.Query, r: PA.Request, p: DecodeFwdParams, h: nat, d: nat)
    requires IsExp(e) && ReadsFloats(toFloat) && ValidConfig(SMALL) && SlotsFitInt32(SMALL)
    requires LegalRun(SMALL, TwoLayers())
    requires var c := Run(SMALL, TwoLayers()).0;
             && PA.LaunchOn(c, toFloat, kBytes, vBytes, q, r, p) && r.layer == 0
             && PA.QueryMatches(SMALL, q) && PA.HeadAt(SMALL, q, 0, h, 0) && d < 32
             && r.seqLens == Some([2])
    ensures Readable(p) && 0 < p.batch && h < p.numHeads
    ensures PA.EntriesSized(SMALL, 0, [OnesEntry(0), OnesEntry(1)])
    ensures Normalise(MergeAll(e, SplitPartials(e, p, 0, h), p.headDim))[d]
         != PF.OwnAttention(e, SMALL, toFloat, PA.QueryRow(q, 0, h), 0, PA.EffectiveScale(r), 0,
                            [OnesEntry(0), OnesEntry(1)])[d]
  {
    TwoLayersRun();
    SmallIsValid();
    hide Run, PA.LaunchOn, Readable, IsExp, SplitPartials, MergeAll, Normalise, TwoLayers, PA.QueryRow, InGroup;
    PF.LayerOutputExactly(SMALL, TwoLayers(), e, toFloat, kBytes, vBytes, q, r, p, 0, h, 0, d);
    OwnIsOne(e, toFloat, PA.QueryRow(q, 0, h), PA.EffectiveScale(r), d);
    assert !PF.AllOn([OnesEntry(0), OnesEntry(1)], 0) by { assert [OnesEntry(0), OnesEntry(1)][1].layer == 1; }
  }

  lemma OwnIsOne(e: real -> real, toFloat: seq<byte> -> real, qRow: seq<real>, scale: real, d: nat)
    requires IsExp(e) && ReadsFloats(toFloat) && |qRow| == 32 && d < 32
    ensures ValidConfig(SMALL) && PA.EntriesSized(SMALL, 0, [OnesEntry(0), OnesEntry(1)])
    ensures PF.OwnAttention(e, SMALL, toFloat, qRow, 0, scale, 0, [OnesEntry(0), OnesEntry(1)])[d] == 1.0
  {
    OnesEntrySized(0, 0);
    OnesEntrySized(0, 1);
    OnesRead(toFloat, qRow, scale, 0, d);
    hide Attention, PA.PlainEntry, PF.OnLayer, IsExp, OnesEntry, PA.EntrySized;
    FirstOnly();
    var ts := PA.PlainTokens(SMALL, toFloat, qRow, 0, scale, 0, [OnesEntry(0)]);
    assert ts == [ts[0]];
    OneTokenAttention(e, ts[0], 32, d);
  }

  lemma FirstOnly()
    ensures PF.OnLayer([OnesEntry(0), OnesEntry(1)], 0) == [OnesEntry(0)]
  {
    PF.OnLayerSnoc([OnesEntry(0)], OnesEntry(1), 0);
    PF.OnLayerSnoc([], OnesEntry(0), 0);
    assert [OnesEntry(0)] + [OnesEntry(1)] == [OnesEntry(0), OnesEntry(1)] && [] + [OnesEntry(0)] == [OnesEntry(0)];
    assert PF.OnLayer([], 0) == [];
  }

  function OneOfMany(): seq<Op> { [] + [OnesToken(0)] + [SyncOp] }

  /** One token in a block of 64 slots, in sync. */
  lemma OneOfManyRun()
    ensures ValidConfig(SMALL) && SlotsFitInt32(SMALL) && LegalRun(SMALL, OneOfMany())
    ensures var (c, a) := Run(SMALL, OneOfMany());
            c.synced == c.revision && c.lens == [1] && a == [[OnesEntry(0)]]
  {
    hide Appending, Run, OnesToken, OnesEntry;
    SmallIsValid();
    NothingAppended();
    OneMore([], [], 0);
    ThenSync([] + [OnesToken(0)], [] + [OnesEntry(0)]);
    assert [] + [OnesEntry(0)] == [OnesEntry(0)];
  }

  /** After it, decode without seq_lens differs in every coordinate from plain attention
      over the one token. */
  lemma NullLengthsDilute(e: real -> real, toFloat: seq<byte> -> real, kBytes: seq<byte>, vBytes: seq<byte>,
                          q: PA.Query, r: PA.Request, p: DecodeFwdParams, h: nat, d: nat, row: seq<real>)
    requires IsExp(e) && ReadsFloats(toFloat) && ValidConfig(SMALL) && SlotsFitInt32(SMALL)
    requires LegalRun(SMALL, OneOfMany())
    requires var (c, a) := Run(SMALL, OneOfMany());
             && PA.LaunchOn(c, toFloat, kBytes, vBytes, q, r, p) && r.layer == 0 && r.seqLens.None?
             && PA.HeadAt(SMALL, q, 0, h, 0) && d < 32
             && PA.RowIsPlain(e, SMALL, toFloat, q, r, a[0], 0, h, 0, row)
    ensures Readable(p) && 0 < p.batch && h < p.numHeads && |row| == p.headDim == 32 && row[d] == 1.0
    ensures Normalise(MergeAll(e, SplitPartials(e, p, 0, h), p.headDim))[d] != row[d]
  {
    OneOfManyRun();
    SmallIsValid();
    var (c, a) := Run(SMALL, OneOfMany());
    hide Run, Refines, PA.LaunchOn, Readable, IsExp, SplitPartials, MergeAll, Normalise, OneOfMany, PA.HeadAt,
         PF.MappedBlocks, PA.RowIsPlain;
    PF.NullLengthsExactly(e, c, a, toFloat, kBytes, vBytes, q, r, p, 0, h, 0, d, row);
    PlainIsOne(e, toFloat, q, r, h, d, row);
  }

  lemma PlainIsOne(e: real -> real, toFloat: seq<byte> -> real, q: PA.Query, r: PA.Request, h: nat, d: nat,
                   row: seq<real>)
    requires IsExp(e) && ReadsFloats(toFloat) && ValidConfig(SMALL) && r.layer == 0 && d < 32
    requires PA.RowIsPlain(e, SMALL, toFloat, q, r, [OnesEntry(0)], 0, h, 0, row)
    ensures |row| == 32 && row[d] == 1.0
  {
    hide Attention, PA.PlainEntry, IsExp, PA.QueryRow;
    OnesRead(toFloat, PA.QueryRow(q, 0, h), PA.EffectiveScale(r), 0, d);
    var ts := PA.PlainTokens(SMALL, toFloat, PA.QueryRow(q, 0, h), 0, PA.EffectiveScale(r), 0, [OnesEntry(0)]);
    assert ts == [ts[0]];
    OneTokenAttention(e, ts[0], 32, d);
  }

  // ---------------------------------------------------------------------------
  // Values laid out by other dimensions than the keys
  // ---------------------------------------------------------------------------

  /** One layer, two KV heads of dimension 32, 20 blocks of 64 slots, one sequence. */
  const PAIR := KVCacheConfig(1, 2, 32, 64, 20, 1, Float32)

  lemma PairIsValid()
    ensures ValidConfig(PAIR) && SlotsFitInt32(PAIR) && SlotCount(PAIR) == 1280 && TokenSize(PAIR) == 256
  {
  }

  function ZeroKeys(n: nat): (x: Tensor)
    ensures WellFormed(x) && |x.data| == n * 256
  {
    Tensor([n, 2, 32], Float32, ZeroRow(n * 256))
  }

  function PairAppend(kNew: Tensor, vNew: Tensor): Op { AppendOp(0, 0, kNew, vNew, Env(true, true)) }

  lemma FreshStep(n: nat, vNew: Tensor, c: Cache, a: Tokens, op: Op)
    requires 0 < n <= 2 && |vNew.dims| == 3 && vNew.dims[0] == n && vNew.dtype == Float32 && |vNew.data| >= n * 256
    requires ValidConfig(PAIR) && SlotsFitInt32(PAIR) && c == Fresh(PAIR) && a == NoTokens(PAIR) && Refines(c, a)
    requires op == PairAppend(ZeroKeys(n), vNew)
    ensures LegalOp(PAIR, op) && Step(c, op).1.Ok?
    ensures SpecStep(PAIR, a, op, Ok) == [Appended(PAIR, 0, ZeroKeys(n), vNew)]
  {
    hide Refines, Inv, Step, AppendTokens, Appended, Rows, Admitted, WriteAccepted, FreshLayers, FreshPool, ZeroRow;
    PairIsValid();
    AloneFits(c, n) by { RefinesInv(c, a); }
    PairAccepted(n, vNew, c, op);
    AppendOutcome(c, a, op);
    var xs := Appended(PAIR, 0, ZeroKeys(n), vNew);
    assert a == [[]] && [] + xs == xs;
    assert a[0 := a[0] + xs] == [xs];
  }

  lemma RefinesInv(c: Cache, a: Tokens)
    requires Refines(c, a)
    ensures Inv(c)
  {
  }

  lemma PairAccepted(n: nat, vNew: Tensor, c: Cache, op: Op)
    requires 0 < n <= 2 && |vNew.dims| == 3 && vNew.dims[0] == n && vNew.dtype == Float32 && |vNew.data| >= n * 256
    requires c.cfg == PAIR && c.slotCapacity == 0 && op == PairAppend(ZeroKeys(n), vNew)
    ensures LegalOp(PAIR, op) && ArgumentCheck(PAIR, op.s, op.layer, op.kNew, op.vNew).Ok?
    ensures WriteAccepted(c, op.layer, op.kNew, op.vNew, op.env)
  {
  }

  /** A new cache takes keys of its own dimensions with any values of as many bytes. */
  lemma FreshTakes(n: nat, vNew: Tensor)
    requires 0 < n <= 2 && |vNew.dims| == 3 && vNew.dims[0] == n && vNew.dtype == Float32 && |vNew.data| >= n * 256
    ensures ValidConfig(PAIR) && SlotsFitInt32(PAIR)
    ensures LegalRun(PAIR, [PairAppend(ZeroKeys(n), vNew)])
    ensures Statuses(PAIR, [PairAppend(ZeroKeys(n), vNew)]) == [Ok]
    ensures Run(PAIR, [PairAppend(ZeroKeys(n), vNew)]).1 == [Appended(PAIR, 0, ZeroKeys(n), vNew)]
  {
    hide Refines, Inv, Step, SpecStep, Appended, PairAppend, ValidConfig, SlotsFitInt32, Fresh, NoTokens, AppendInputs;
    PairIsValid();
    var op := PairAppend(ZeroKeys(n), vNew);
    RunStart(PAIR);
    FreshStep(n, vNew, Fresh(PAIR), NoTokens(PAIR), op);
    RunNext(PAIR, [], op);
    assert [] + [op] == [op] && [op][..0] == [];
  }

  /** Four heads of values, the last two all ones. */
  function FourHeads(): (x: Tensor)
    ensures WellFormed(x)
  {
    Tensor([1, 4, 32], Float32, ZeroRow(256) + Ones(64))
  }

  /** One token with two heads of keys and four of values is accepted; its token keeps the
      first two heads of the values, all zeros. */
  lemma ValuesCutOff()
    ensures ValidConfig(PAIR) && SlotsFitInt32(PAIR) && LegalRun(PAIR, [PairAppend(ZeroKeys(1), FourHeads())])
    ensures Statuses(PAIR, [PairAppend(ZeroKeys(1), FourHeads())]) == [Ok]
    ensures Run(PAIR, [PairAppend(ZeroKeys(1), FourHeads())]).1 == [[Entry(0, ZeroRow(256), ZeroRow(256))]]
    ensures InDims(FourHeads().dims, 0, 2, 0) && !ReadInPlace(ZeroKeys(1), FourHeads(), 0, 2, 0)
  {
    hide *;
    CutOffEntry();
    FreshTakes(1, FourHeads());
  }

  lemma CutOffEntry()
    ensures ValidConfig(PAIR) && |ZeroKeys(1).dims| == |FourHeads().dims| == 3 && FourHeads().dims[0] == 1
    ensures FourHeads().dtype == Float32 && |FourHeads().data| == 512
    ensures |ZeroKeys(1).data| == NumNew(ZeroKeys(1)) * TokenSize(PAIR) == 256
    ensures Appended(PAIR, 0, ZeroKeys(1), FourHeads()) == [Entry(0, ZeroRow(256), ZeroRow(256))]
    ensures InDims(FourHeads().dims, 0, 2, 0) && !ReadInPlace(ZeroKeys(1), FourHeads(), 0, 2, 0)
  {
    PairIsValid();
    assert ValueBytes(ZeroKeys(1), FourHeads()) == ZeroRow(256);
    OneZeroRow(256);
  }

  lemma OneZeroRow(w: nat)
    ensures Rows(ZeroRow(w), w, 1) == [ZeroRow(w)]
  {
    RowInside(ZeroRow(w), w, 1, 0);
    assert RowAt(ZeroRow(w), w, 0) == ZeroRow(w);
  }

  /** Two tokens with two heads of 32 keys and one head of 64 values, as many bytes: byte i
      of element d of the stored head 1 is that of element 32 + d of the caller's only head. */
  lemma HeadSplitInTwo(v: Tensor, t: nat, d: nat, i: nat)
    requires v.dims == [2, 1, 64] && v.dtype == Float32 && WellFormed(v) && t < 2 && d < 32 && i < 4
    ensures |v.data| == |ZeroKeys(2).data|
    ensures ValidConfig(PAIR) && SlotsFitInt32(PAIR) && LegalRun(PAIR, [PairAppend(ZeroKeys(2), v)])
    ensures Statuses(PAIR, [PairAppend(ZeroKeys(2), v)]) == [Ok]
    ensures var a := Run(PAIR, [PairAppend(ZeroKeys(2), v)]).1;
            && |a| == 1 && |a[0]| == 2 && |a[0][t].v| == 256
            && a[0][t].v[(1 * 32 + d) * 4 + i] == v.data[ElementIndex(v.dims, t, 0, 32 + d) * 4 + i]
  {
    PairIsValid();
    FreshTakes(2, v);
    hide Run, Statuses, Rows;
    StoredValueByte(PAIR, ZeroKeys(2), v, t, 1, d, i);
  }

  // ---------------------------------------------------------------------------
  // Queries of another width or type, uneven head groups
  // ---------------------------------------------------------------------------

  /** One KV head of dimension 64. */
  const WIDE := KVCacheConfig(1, 1, 64, 64, 20, 1, Float32)

  function QueryOf(heads: nat, dim: nat, t: DType): PA.Query {
    PA.Query([1, heads, 1, dim], t, seq(heads * dim, i => 0.0))
  }

  /** A query of dimension 32 is accepted on the cache of dimension 64, and the launch stays
      inside its buffers; but it looks for slot 1 at element 32, where slot 0 still is. */
  lemma NarrowQuery(ks: seq<real>, vs: seq<real>, table: seq<int>, r: PA.Request)
    requires r.layer == 0
    ensures ValidConfig(WIDE) && PA.Accepted(WIDE, QueryOf(1, 32, Float32), r)
    ensures PA.QueryFits(WIDE, QueryOf(1, 32, Float32))
    ensures RowStart(PA.LaunchParams(WIDE, ks, vs, table, QueryOf(1, 32, Float32), r).kStride, 0, 0, 1) == 32
    ensures RowStart(PA.KvStrides(WIDE), 0, 0, 1) == 64
  {
  }

  /** A half-precision query of the cache's width is accepted on the float cache, and does
      not read the elements where they are stored. */
  lemma HalfQuery(ks: seq<real>, vs: seq<real>, table: seq<int>, r: PA.Request)
    requires r.layer == 0
    ensures ValidConfig(WIDE) && PA.Accepted(WIDE, QueryOf(1, 64, Float16), r)
    ensures PA.QueryFits(WIDE, QueryOf(1, 64, Float16))
    ensures !PA.AllReadWhereStored(WIDE, PA.LaunchParams(WIDE, ks, vs, table, QueryOf(1, 64, Float16), r))
  {
    PA.StridesMatchExactly(WIDE, ks, vs, table, QueryOf(1, 64, Float16), r);
  }

  /** Three query heads over two KV heads are accepted; head 2 asks for KV head 2 of a slot,
      which is head 0 of the next slot.  One query head over two is accepted too, and the
      size of its head group is zero. */
  lemma UnevenHeads(ks: seq<real>, vs: seq<real>, table: seq<int>, r: PA.Request)
    requires r.layer == 0
    ensures ValidConfig(PAIR) && PA.Accepted(PAIR, QueryOf(3, 32, Float32), r)
    ensures var p := PA.LaunchParams(PAIR, ks, vs, table, QueryOf(3, 32, Float32), r);
            && p.numKvHeads <= p.numHeads == 3 && KvHead(p, 2) == 2 && !PA.HeadMapped(PAIR, p, 2)
            && RowStart(p.kStride, 0, KvHead(p, 2), 0) == RowStart(p.kStride, 0, 0, 1)
    ensures PA.Accepted(PAIR, QueryOf(1, 32, Float32), r)
    ensures var p := PA.LaunchParams(PAIR, ks, vs, table, QueryOf(1, 32, Float32), r);
            p.numHeads == 1 && p.numHeads / p.numKvHeads == 0
  {
  }

  // ---------------------------------------------------------------------------
  // The rows of the naive kernels
  // ---------------------------------------------------------------------------

  /** Two queries over one key: the first row sees nothing, so the naive kernels leave NaN
      in each of its coordinates. */
  lemma MaskedFirstRow(score: real, value: seq<real>)
    ensures FT.SeenTokens(NA.RowOf(0, 2, true, [score], [value]), 1) == []
  {
    NA.NothingSeenExactly(NA.RowOf(0, 2, true, [score], [value]), 1);
  }

  /** n rows of one column each, every score zero. */
  method ZeroScores(n: nat) returns (rows: seq<array<NA.Cell>>)
    ensures |rows| == n && fresh(set row | row in rows)
    ensures forall i, j :: 0 <= i < j < n ==> rows[i] != rows[j]
    ensures forall i :: 0 <= i < n ==> NA.ScoresOf(NA.ONE_ZERO_SCORE, rows[i], [Fin(0.0)])
  {
    rows := [];
    for k := 0 to n
      invariant |rows| == k && forall i :: 0 <= i < k ==> fresh(rows[i])
      invariant forall i, j :: 0 <= i < j < k ==> rows[i] != rows[j]
      invariant forall i :: 0 <= i < k ==> NA.ScoresOf(NA.ONE_ZERO_SCORE, rows[i], [Fin(0.0)])
    {
      var row := new NA.Cell[1](i => NA.Of(Fin(0.0)));
      rows := rows + [row];
    }
  }

  /** The softmax launch over one row more than the cap leaves the last row's score 0 where
      its probability 1 should be. */
  method RowBeyondTheCap(e: real -> real, numWarps: nat) returns (rows: seq<array<NA.Cell>>)
    requires IsExp(e) && 1 <= numWarps <= 32
    ensures |rows| == NA.MAX_ROW_BLOCKS + 1
    ensures var last := rows[NA.MAX_ROW_BLOCKS][..];
            && last == [NA.Of(Fin(0.0))]
            && !NA.SoftmaxDone(e, last, [Fin(0.0)], FT.SeenTokens(NA.ONE_ZERO_SCORE, 1))
  {
    hide IsExp, NA.SoftmaxDone, FT.IsFragment, FT.SeenTokens;
    var n := NA.MAX_ROW_BLOCKS + 1;
    rows := ZeroScores(n);
    NA.LaunchRowSoftmax(e, rows, seq(n, i => [Fin(0.0)]), seq(n, i => NA.ONE_ZERO_SCORE), numWarps);
    assert NA.RowLeft(e, n, n - 1, NA.ONE_ZERO_SCORE, [Fin(0.0)], rows[n - 1][..]);
    assert rows[n - 1][..] == [NA.Of(Fin(0.0))];
    NA.ZeroScoreStays(e, n, n - 1);
  }
}
