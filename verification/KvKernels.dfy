/** The scatter, zero and gather kernels of the KV cache over flat byte buffers. */
module KvKernels {
  import opened Arith
  import opened Layout
  import opened ThreadGrid

  newtype byte = x: int | 0 <= x < 256

  /** Bytes of one head of one token, of one token, and of one block. */
  function RowBytes(shape: KVCacheShape, elemBytes: nat): nat { shape.headDim * elemBytes }

  function TokenBytes(shape: KVCacheShape, elemBytes: nat): nat { shape.numKvHeads * RowBytes(shape, elemBytes) }

  function BlockBytes(shape: KVCacheShape, elemBytes: nat): nat { shape.blockSize * TokenBytes(shape, elemBytes) }

  function NumSlots(shape: KVCacheShape): nat { shape.numBlocks * shape.blockSize }

  ghost predicate Launchable(shape: KVCacheShape, elemBytes: nat) {
    Positive(shape) && elemBytes > 0
  }

  lemma SizesPositive(shape: KVCacheShape, elemBytes: nat)
    requires Launchable(shape, elemBytes)
    ensures RowBytes(shape, elemBytes) > 0 && TokenBytes(shape, elemBytes) > 0 && BlockBytes(shape, elemBytes) > 0
  {
    MulMono(1, elemBytes, shape.headDim);
    assert RowBytes(shape, elemBytes) == elemBytes * shape.headDim;
    MulMono(1, shape.numKvHeads, RowBytes(shape, elemBytes));
    MulMono(1, shape.blockSize, TokenBytes(shape, elemBytes));
  }

  // ---------------------------------------------------------------------------
  // Append: dst[slot, head, :] = src[token, head, :]
  // ---------------------------------------------------------------------------

  /** The byte store of step n: byte `n % rowBytes` of row `n / rowBytes`, a row being one
      head of one token.  Negative and out-of-range slots store nothing. */
  function AppendStore(shape: KVCacheShape, elemBytes: nat, src: seq<byte>, slots: seq<int>, n: nat): Store<byte>
    requires Launchable(shape, elemBytes) && |src| == |slots| * TokenBytes(shape, elemBytes) && n < |src|
  {
    SizesPositive(shape, elemBytes);
    StepRow(shape, elemBytes, |slots|, n);
    var rowBytes := RowBytes(shape, elemBytes);
    var row, b := n / rowBytes, n % rowBytes;
    var token, head := row / shape.numKvHeads, row % shape.numKvHeads;
    var slot := slots[token];
    if slot < 0 then Skip
    else
      var block, offset := slot / shape.blockSize, slot % shape.blockSize;
      if block >= shape.numBlocks then Skip
      else At(KvOffset(shape, block, offset, head, 0) * elemBytes + b,
              src[(token * shape.numKvHeads + head) * rowBytes + b])
  }

  /** Where step n sits: its row and token exist, and it reads source byte n. */
  lemma StepRow(shape: KVCacheShape, elemBytes: nat, numTokens: nat, n: nat)
    requires Launchable(shape, elemBytes) && n < numTokens * TokenBytes(shape, elemBytes)
    ensures RowBytes(shape, elemBytes) > 0 && TokenBytes(shape, elemBytes) > 0
    ensures var rowBytes := RowBytes(shape, elemBytes);
            var row := n / rowBytes;
            var token, head := row / shape.numKvHeads, row % shape.numKvHeads;
            && row < numTokens * shape.numKvHeads
            && token < numTokens
            && (token * shape.numKvHeads + head) * rowBytes + n % rowBytes == n
            && token == n / TokenBytes(shape, elemBytes)
            && head * rowBytes + n % rowBytes == n % TokenBytes(shape, elemBytes)
  {
    SizesPositive(shape, elemBytes);
    var rowBytes := RowBytes(shape, elemBytes);
    var row := n / rowBytes;
    assert numTokens * TokenBytes(shape, elemBytes) == (numTokens * shape.numKvHeads) * rowBytes;
    DivModOf(n, rowBytes);
    DivBelow(n, numTokens * shape.numKvHeads, rowBytes);
    var token, head := row / shape.numKvHeads, row % shape.numKvHeads;
    DivModOf(row, shape.numKvHeads);
    DivBelow(row, numTokens, shape.numKvHeads);
    RowFits(head, shape.numKvHeads, rowBytes);
    assert row * rowBytes == token * TokenBytes(shape, elemBytes) + head * rowBytes;
    DivModIs(n, TokenBytes(shape, elemBytes), token, head * rowBytes + n % rowBytes);
  }

  /** The scatter seen per byte: source byte n goes to the same place inside the
      slot of its token. */
  lemma AppendStoreIs(shape: KVCacheShape, elemBytes: nat, src: seq<byte>, slots: seq<int>, n: nat)
    requires Launchable(shape, elemBytes) && |src| == |slots| * TokenBytes(shape, elemBytes) && n < |src|
    ensures TokenBytes(shape, elemBytes) > 0 && n / TokenBytes(shape, elemBytes) < |slots|
    ensures var tb := TokenBytes(shape, elemBytes);
            var slot := slots[n / tb];
            AppendStore(shape, elemBytes, src, slots, n)
              == if 0 <= slot < NumSlots(shape) then At(slot * tb + n % tb, src[n]) else Skip
  {
    StepRow(shape, elemBytes, |slots|, n);
    var tb, rowBytes := TokenBytes(shape, elemBytes), RowBytes(shape, elemBytes);
    var slot := slots[n / tb];
    if slot >= 0 {
      SlotInPool(shape, slot);
      var head := (n / rowBytes) % shape.numKvHeads;
      SlotAddress(shape, elemBytes, slot, head);
    }
  }

  lemma SlotInPool(shape: KVCacheShape, slot: nat)
    requires shape.blockSize > 0
    ensures slot / shape.blockSize < shape.numBlocks <==> slot < NumSlots(shape)
  {
    DivModOf(slot, shape.blockSize);
    if slot < NumSlots(shape) {
      DivBelow(slot, shape.numBlocks, shape.blockSize);
    } else if slot / shape.blockSize < shape.numBlocks {
      RowFits(slot / shape.blockSize, shape.numBlocks, shape.blockSize);
    }
  }

  lemma SlotAddress(shape: KVCacheShape, elemBytes: nat, slot: nat, head: nat)
    requires shape.blockSize > 0
    ensures KvOffset(shape, slot / shape.blockSize, slot % shape.blockSize, head, 0) * elemBytes
         == slot * TokenBytes(shape, elemBytes) + head * RowBytes(shape, elemBytes)
  {
    DivModOf(slot, shape.blockSize);
    var rowBytes := RowBytes(shape, elemBytes);
    assert ((slot * shape.numKvHeads + head) * shape.headDim) * elemBytes
           == (slot * shape.numKvHeads + head) * rowBytes;
    assert (slot * shape.numKvHeads + head) * rowBytes == slot * (shape.numKvHeads * rowBytes) + head * rowBytes;
  }

  function AppendStores(shape: KVCacheShape, elemBytes: nat, src: seq<byte>, slots: seq<int>): nat -> Store<byte>
    requires Launchable(shape, elemBytes) && |src| == |slots| * TokenBytes(shape, elemBytes)
  {
    (n: nat) => if n < |src| then AppendStore(shape, elemBytes, src, slots, n) else Skip
  }

  /** Byte a after a scatter: a byte of some token mapped to its slot, or as before
      when no token is. */
  ghost predicate ScatteredAt(before: seq<byte>, after: seq<byte>, src: seq<byte>, slots: seq<int>, tb: nat, a: nat)
    requires tb > 0 && |src| == |slots| * tb && |after| == |before| && a < |before|
  {
    || (exists t :: FromToken(after, src, slots, tb, a, t))
    || (a / tb !in slots && after[a] == before[a])
  }

  ghost predicate FromToken(after: seq<byte>, src: seq<byte>, slots: seq<int>, tb: nat, a: nat, t: nat)
    requires tb > 0 && |src| == |slots| * tb && a < |after|
  {
    && t < |slots| && slots[t] == a / tb
    && t * tb + a % tb < |src| && after[a] == src[t * tb + a % tb]
  }

  ghost predicate Scattered(before: seq<byte>, after: seq<byte>, src: seq<byte>, slots: seq<int>, tb: nat)
    requires tb > 0 && |src| == |slots| * tb
  {
    |after| == |before| && forall a :: 0 <= a < |before| ==> ScatteredAt(before, after, src, slots, tb, a)
  }

  lemma ScatteredByte(shape: KVCacheShape, elemBytes: nat, buf: seq<byte>, src: seq<byte>, slots: seq<int>,
                      order: seq<nat>, a: nat)
    requires Launchable(shape, elemBytes) && |src| == |slots| * TokenBytes(shape, elemBytes)
    requires TokenBytes(shape, elemBytes) > 0
    requires |buf| == NumSlots(shape) * TokenBytes(shape, elemBytes) && a < |buf|
    requires Schedule(order, |src|)
    ensures ScatteredAt(buf, Replay(buf, AppendStores(shape, elemBytes, src, slots), order), src, slots,
                        TokenBytes(shape, elemBytes), a)
  {
    hide AppendStores, AppendStore, TokenBytes, NumSlots, Replay;
    var tb, f := TokenBytes(shape, elemBytes), AppendStores(shape, elemBytes, src, slots);
    var after := Replay(buf, f, order);
    if a / tb in slots {
      MappedByteIsWritten(shape, elemBytes, src, slots, order, a);
    }
    ReplayAt(buf, f, order, a);
    if i :| 0 <= i < |order| && WritesTo(f, order[i], a) && after[a] == f(order[i]).value {
      StepReads(shape, elemBytes, src, slots, order[i], a);
      assert FromToken(after, src, slots, tb, a, order[i] / tb);
    }
  }

  lemma MappedByteIsWritten(shape: KVCacheShape, elemBytes: nat, src: seq<byte>, slots: seq<int>, order: seq<nat>,
                            a: nat)
    requires Launchable(shape, elemBytes) && |src| == |slots| * TokenBytes(shape, elemBytes)
    requires TokenBytes(shape, elemBytes) > 0
    requires a < NumSlots(shape) * TokenBytes(shape, elemBytes) && Schedule(order, |src|)
    requires a / TokenBytes(shape, elemBytes) in slots
    ensures exists i :: 0 <= i < |order| && WritesTo(AppendStores(shape, elemBytes, src, slots), order[i], a)
  {
    hide AppendStores;
    var tb := TokenBytes(shape, elemBytes);
    var t :| 0 <= t < |slots| && slots[t] == a / tb;
    StepWrites(shape, elemBytes, src, slots, a, t);
    var n := t * tb + a % tb;
    assert n in order;
  }

  /** A step that writes byte a copies it from the same place of a token mapped to a's slot. */
  lemma StepReads(shape: KVCacheShape, elemBytes: nat, src: seq<byte>, slots: seq<int>, n: nat, a: nat)
    requires Launchable(shape, elemBytes) && |src| == |slots| * TokenBytes(shape, elemBytes)
    requires n < |src| && WritesTo(AppendStores(shape, elemBytes, src, slots), n, a)
    ensures var tb := TokenBytes(shape, elemBytes);
            && tb > 0 && n / tb < |slots| && slots[n / tb] == a / tb
            && (n / tb) * tb + a % tb == n
            && AppendStores(shape, elemBytes, src, slots)(n).value == src[n]
  {
    AppendStoreIs(shape, elemBytes, src, slots, n);
    var tb := TokenBytes(shape, elemBytes);
    DivModOf(n, tb);
    DivModIs(a, tb, slots[n / tb], n % tb);
  }

  /** Every interleaving of the append kernel's byte stores is a scatter, even when
      several tokens name the same slot. */
  lemma AnyScheduleScatters(shape: KVCacheShape, elemBytes: nat, buf: seq<byte>, src: seq<byte>, slots: seq<int>,
                            order: seq<nat>)
    requires Launchable(shape, elemBytes) && |src| == |slots| * TokenBytes(shape, elemBytes)
    requires |buf| == NumSlots(shape) * TokenBytes(shape, elemBytes)
    requires Schedule(order, |src|)
    ensures TokenBytes(shape, elemBytes) > 0
    ensures Scattered(buf, Replay(buf, AppendStores(shape, elemBytes, src, slots), order), src, slots,
                      TokenBytes(shape, elemBytes))
  {
    SizesPositive(shape, elemBytes);
    forall a | 0 <= a < |buf|
      ensures ScatteredAt(buf, Replay(buf, AppendStores(shape, elemBytes, src, slots), order), src, slots,
                          TokenBytes(shape, elemBytes), a)
    {
      ScatteredByte(shape, elemBytes, buf, src, slots, order, a);
    }
  }

  /** Some step of token t writes byte a of its slot. */
  lemma StepWrites(shape: KVCacheShape, elemBytes: nat, src: seq<byte>, slots: seq<int>, a: nat, t: nat)
    requires Launchable(shape, elemBytes) && |src| == |slots| * TokenBytes(shape, elemBytes)
    requires TokenBytes(shape, elemBytes) > 0
    requires a < NumSlots(shape) * TokenBytes(shape, elemBytes)
    requires t < |slots| && slots[t] == a / TokenBytes(shape, elemBytes)
    ensures var n := t * TokenBytes(shape, elemBytes) + a % TokenBytes(shape, elemBytes);
            n < |src| && WritesTo(AppendStores(shape, elemBytes, src, slots), n, a)
  {
    var tb := TokenBytes(shape, elemBytes);
    var n := t * tb + a % tb;
    RowFits(t, |slots|, tb);
    DivModIs(n, tb, t, a % tb);
    DivModOf(a, tb);
    DivBelow(a, NumSlots(shape), tb);
    AppendStoreIs(shape, elemBytes, src, slots, n);
  }

  /** No two tokens are mapped to the same slot of the pool. */
  ghost predicate DistinctSlots(shape: KVCacheShape, slots: seq<int>) {
    forall t, u :: 0 <= t < u < |slots| && 0 <= slots[t] < NumSlots(shape) ==> slots[t] != slots[u]
  }

  /** With distinct slots no two steps write the same byte: every interleaving of the
      threads leaves the same buffer. */
  lemma AppendIsRaceFree(shape: KVCacheShape, elemBytes: nat, src: seq<byte>, slots: seq<int>)
    requires Launchable(shape, elemBytes) && |src| == |slots| * TokenBytes(shape, elemBytes)
    requires DistinctSlots(shape, slots)
    ensures SingleWriter(AppendStores(shape, elemBytes, src, slots), |src|)
    ensures RaceFree(AppendStores(shape, elemBytes, src, slots), |src|)
  {
    var f := AppendStores(shape, elemBytes, src, slots);
    forall n: nat, n': nat, a: nat | n < |src| && n' < |src| && WritesTo(f, n, a) && WritesTo(f, n', a)
      ensures n == n'
    {
      OneWriter(shape, elemBytes, src, slots, n, n', a);
    }
  }

  lemma OneWriter(shape: KVCacheShape, elemBytes: nat, src: seq<byte>, slots: seq<int>, n: nat, n': nat, a: nat)
    requires Launchable(shape, elemBytes) && |src| == |slots| * TokenBytes(shape, elemBytes)
    requires DistinctSlots(shape, slots)
    requires n < |src| && WritesTo(AppendStores(shape, elemBytes, src, slots), n, a)
    requires n' < |src| && WritesTo(AppendStores(shape, elemBytes, src, slots), n', a)
    ensures n == n'
  {
    StepReads(shape, elemBytes, src, slots, n, a);
    StepReads(shape, elemBytes, src, slots, n', a);
    AppendStoreIs(shape, elemBytes, src, slots, n);
    AppendStoreIs(shape, elemBytes, src, slots, n');
  }

  // ---------------------------------------------------------------------------
  // Grid-stride loops
  // ---------------------------------------------------------------------------

  /** Each item of the work is visited by exactly one thread, in exactly one round, whatever
      the numbers of blocks and of threads per block. */
  lemma GridStrideVisitsOnce(gridDim: nat, blockDim: nat, n: nat, thread: nat, round: nat)
    requires thread < gridDim * blockDim
    ensures thread + round * (gridDim * blockDim) == n
       <==> thread == n % (gridDim * blockDim) && round == n / (gridDim * blockDim)
  {
    var stride := gridDim * blockDim;
    DivModOf(n, stride);
    if thread + round * stride == n {
      DivModIs(n, stride, round, thread);
    }
  }

  /** The steps of row `row` up to byte `b`. */
  function RowSteps(row: nat, rowBytes: nat, b: nat): (s: seq<nat>)
    ensures |s| == b
    ensures forall i :: 0 <= i < b ==> s[i] == row * rowBytes + i
  {
    seq(b, i requires 0 <= i < b => row * rowBytes + i)
  }

  lemma RowStepsSnoc(row: nat, rowBytes: nat, b: nat)
    ensures RowSteps(row, rowBytes, b + 1) == RowSteps(row, rowBytes, b) + [row * rowBytes + b]
  {
  }

  /** Steps that store nothing can be dropped. */
  lemma {:induction false} SkipSteps(buf: seq<byte>, f: nat -> Store<byte>, order: seq<nat>, more: seq<nat>)
    requires forall i :: 0 <= i < |more| ==> f(more[i]).Skip?
    ensures Replay(buf, f, order + more) == Replay(buf, f, order)
  {
    if more == [] {
      assert order + more == order;
    } else {
      var init := more[..|more| - 1];
      SkipSteps(buf, f, order, init);
      ReplaySnoc(buf, f, order + init, more[|more| - 1]);
      assert order + init + [more[|more| - 1]] == order + more;
    }
  }

  /** What a launch of the append kernel needs of its arguments. */
  ghost predicate AppendArgs(shape: KVCacheShape, elemBytes: nat, k: array<byte>, v: array<byte>, kNew: seq<byte>,
                             vNew: seq<byte>, slots: seq<int>) {
    && Launchable(shape, elemBytes) && k != v
    && |kNew| == |vNew| == |slots| * TokenBytes(shape, elemBytes)
    && k.Length == v.Length == NumSlots(shape) * TokenBytes(shape, elemBytes)
  }

  /** Destination and source of a row that is stored. */
  lemma RowAddresses(shape: KVCacheShape, elemBytes: nat, slots: seq<int>, row: nat)
    requires Launchable(shape, elemBytes) && row < |slots| * shape.numKvHeads
    ensures RowBytes(shape, elemBytes) > 0
    ensures row / shape.numKvHeads < |slots|
    ensures var rowBytes, tb := RowBytes(shape, elemBytes), TokenBytes(shape, elemBytes);
            var token, head := row / shape.numKvHeads, row % shape.numKvHeads;
            && row * rowBytes + rowBytes <= |slots| * tb
            && token * shape.numKvHeads + head == row
            && var block, offset := slots[token] / shape.blockSize, slots[token] % shape.blockSize;
               slots[token] >= 0 && block < shape.numBlocks ==>
                 KvOffset(shape, block, offset, head, 0) * elemBytes + rowBytes <= NumSlots(shape) * tb
  {
    SizesPositive(shape, elemBytes);
    var rowBytes, tb := RowBytes(shape, elemBytes), TokenBytes(shape, elemBytes);
    RowFits(row, |slots| * shape.numKvHeads, rowBytes);
    assert (|slots| * shape.numKvHeads) * rowBytes == |slots| * tb;
    DivModOf(row, shape.numKvHeads);
    DivBelow(row, |slots|, shape.numKvHeads);
    var token, head := row / shape.numKvHeads, row % shape.numKvHeads;
    if slots[token] >= 0 && slots[token] / shape.blockSize < shape.numBlocks {
      SlotInPool(shape, slots[token]);
      SlotAddress(shape, elemBytes, slots[token], head);
      RowFits(head, shape.numKvHeads, rowBytes);
      RowFits(slots[token], NumSlots(shape), tb);
    }
  }

  /** Step (row, b), decoded. */
  lemma RowStep(shape: KVCacheShape, elemBytes: nat, src: seq<byte>, slots: seq<int>, row: nat, b: nat)
    requires Launchable(shape, elemBytes) && |src| == |slots| * TokenBytes(shape, elemBytes)
    requires row < |slots| * shape.numKvHeads && b < RowBytes(shape, elemBytes)
    ensures row / shape.numKvHeads < |slots|
    ensures var rowBytes := RowBytes(shape, elemBytes);
            var token, head := row / shape.numKvHeads, row % shape.numKvHeads;
            var slot := slots[token];
            && row * rowBytes + b < |src|
            && AppendStores(shape, elemBytes, src, slots)(row * rowBytes + b)
               == if slot < 0 || slot / shape.blockSize >= shape.numBlocks then Skip
                  else At(KvOffset(shape, slot / shape.blockSize, slot % shape.blockSize, head, 0) * elemBytes + b,
                          src[row * rowBytes + b])
  {
    RowAddresses(shape, elemBytes, slots, row);
    DivModIs(row * RowBytes(shape, elemBytes) + b, RowBytes(shape, elemBytes), row, b);
  }

  /** One row of the grid-stride loop of kv_append_kernel. */
  method AppendRow(k: array<byte>, v: array<byte>, kNew: seq<byte>, vNew: seq<byte>, slots: seq<int>,
                   shape: KVCacheShape, elemBytes: nat, row: nat, ghost kBuf: seq<byte>, ghost vBuf: seq<byte>,
                   ghost trace: seq<nat>)
    requires AppendArgs(shape, elemBytes, k, v, kNew, vNew, slots) && row < |slots| * shape.numKvHeads
    requires k[..] == Replay(kBuf, AppendStores(shape, elemBytes, kNew, slots), trace)
    requires v[..] == Replay(vBuf, AppendStores(shape, elemBytes, vNew, slots), trace)
    modifies k, v
    ensures var done := trace + RowSteps(row, RowBytes(shape, elemBytes), RowBytes(shape, elemBytes));
            && k[..] == Replay(kBuf, AppendStores(shape, elemBytes, kNew, slots), done)
            && v[..] == Replay(vBuf, AppendStores(shape, elemBytes, vNew, slots), done)
  {
    hide AppendStores, Replay, KvOffset, TokenBytes, NumSlots;
    RowAddresses(shape, elemBytes, slots, row);
    var rowBytes := RowBytes(shape, elemBytes);
    var token, head := row / shape.numKvHeads, row % shape.numKvHeads;
    var slot := slots[token];
    ghost var fK, fV := AppendStores(shape, elemBytes, kNew, slots), AppendStores(shape, elemBytes, vNew, slots);
    if slot < 0 || slot / shape.blockSize >= shape.numBlocks {
      ghost var steps := RowSteps(row, rowBytes, rowBytes);
      forall b | 0 <= b < rowBytes ensures fK(steps[b]).Skip? && fV(steps[b]).Skip? {
        RowStep(shape, elemBytes, kNew, slots, row, b);
        RowStep(shape, elemBytes, vNew, slots, row, b);
      }
      SkipSteps(kBuf, fK, trace, steps);
      SkipSteps(vBuf, fV, trace, steps);
      return;
    }
    var dst := KvOffset(shape, slot / shape.blockSize, slot % shape.blockSize, head, 0) * elemBytes;
    var src := row * rowBytes;
    assert trace + RowSteps(row, rowBytes, 0) == trace;
    for b := 0 to rowBytes
      invariant k[..] == Replay(kBuf, fK, trace + RowSteps(row, rowBytes, b))
      invariant v[..] == Replay(vBuf, fV, trace + RowSteps(row, rowBytes, b))
    {
      RowStep(shape, elemBytes, kNew, slots, row, b);
      RowStep(shape, elemBytes, vNew, slots, row, b);
      RowStepsSnoc(row, rowBytes, b);
      ghost var steps := trace + RowSteps(row, rowBytes, b);
      assert trace + RowSteps(row, rowBytes, b + 1) == steps + [src + b];
      ReplaySnoc(kBuf, fK, steps, src + b);
      ReplaySnoc(vBuf, fV, steps, src + b);
      k[dst + b] := kNew[src + b];
      v[dst + b] := vNew[src + b];
    }
  }

  /** All steps of a row occur in the trace. */
  ghost predicate RowVisited(trace: seq<nat>, rowBytes: nat, row: nat) {
    forall b :: 0 <= b < rowBytes ==> VisitedStep(trace, rowBytes, row, b)
  }

  ghost predicate VisitedStep(trace: seq<nat>, rowBytes: nat, row: nat, b: nat) { row * rowBytes + b in trace }

  ghost predicate StepsBelow(trace: seq<nat>, total: nat) { forall i :: 0 <= i < |trace| ==> trace[i] < total }

  lemma AddRow(trace: seq<nat>, row: nat, rowBytes: nat, rows: nat)
    requires row < rows && StepsBelow(trace, rows * rowBytes)
    ensures var more := trace + RowSteps(row, rowBytes, rowBytes);
            && RowVisited(more, rowBytes, row)
            && StepsBelow(more, rows * rowBytes)
            && forall r :: RowVisited(trace, rowBytes, r) ==> RowVisited(more, rowBytes, r)
  {
    var steps := RowSteps(row, rowBytes, rowBytes);
    var more := trace + steps;
    RowFits(row, rows, rowBytes);
    forall b | 0 <= b < rowBytes ensures VisitedStep(more, rowBytes, row, b) {
      assert more[|trace| + b] == row * rowBytes + b;
    }
    forall r: nat | RowVisited(trace, rowBytes, r) ensures RowVisited(more, rowBytes, r) {
      forall b | 0 <= b < rowBytes ensures VisitedStep(more, rowBytes, r, b) {
        assert VisitedStep(trace, rowBytes, r, b);
      }
    }
  }

  /** Rows of one residue class that are not below `row` but below the next one. */
  lemma NextInClass(r: nat, row: nat, stride: nat)
    requires stride > 0 && r % stride == row % stride && row <= r < row + stride
    ensures r == row
  {
    DivModOf(r, stride);
    DivModOf(row, stride);
    if r != row {
      var q := r / stride - row / stride;
      assert q * stride == r - row;
      if q <= 0 { MulMono(q, 0, stride); } else { MulMono(1, q, stride); }
    }
  }

  lemma ClassStep(row: nat, stride: nat)
    requires stride > 0
    ensures (row + stride) % stride == row % stride
  {
    DivModOf(row, stride);
    DivModIs(row + stride, stride, row / stride + 1, row % stride);
  }

  /** The grid-stride loop of one thread of kv_append_kernel. */
  method KvAppendThread(k: array<byte>, v: array<byte>, kNew: seq<byte>, vNew: seq<byte>, slots: seq<int>,
                        shape: KVCacheShape, elemBytes: nat, thread: nat, stride: nat, ghost kBuf: seq<byte>,
                        ghost vBuf: seq<byte>, ghost before: seq<nat>)
    returns (ghost trace: seq<nat>)
    requires AppendArgs(shape, elemBytes, k, v, kNew, vNew, slots) && thread < stride
    requires k[..] == Replay(kBuf, AppendStores(shape, elemBytes, kNew, slots), before)
    requires v[..] == Replay(vBuf, AppendStores(shape, elemBytes, vNew, slots), before)
    requires StepsBelow(before, (|slots| * shape.numKvHeads) * RowBytes(shape, elemBytes))
    modifies k, v
    ensures k[..] == Replay(kBuf, AppendStores(shape, elemBytes, kNew, slots), trace)
    ensures v[..] == Replay(vBuf, AppendStores(shape, elemBytes, vNew, slots), trace)
    ensures StepsBelow(trace, (|slots| * shape.numKvHeads) * RowBytes(shape, elemBytes))
    ensures forall r ::
              0 <= r < |slots| * shape.numKvHeads
              && (r % stride == thread || RowVisited(before, RowBytes(shape, elemBytes), r))
              ==> RowVisited(trace, RowBytes(shape, elemBytes), r)
  {
    hide AppendStores, Replay, TokenBytes, NumSlots, RowVisited, StepsBelow;
    ghost var rowBytes := RowBytes(shape, elemBytes);
    hide RowBytes;
    trace := before;
    var totalRows := |slots| * shape.numKvHeads;
    var row := thread;
    DivModIs(thread, stride, 0, thread);
    while row < totalRows
      invariant row % stride == thread
      invariant k[..] == Replay(kBuf, AppendStores(shape, elemBytes, kNew, slots), trace)
      invariant v[..] == Replay(vBuf, AppendStores(shape, elemBytes, vNew, slots), trace)
      invariant StepsBelow(trace, totalRows * rowBytes)
      invariant forall r ::
                  0 <= r < totalRows && ((r % stride == thread && r < row) || RowVisited(before, rowBytes, r)) ==>
                    RowVisited(trace, rowBytes, r)
      decreases totalRows - row
    {
      AppendRow(k, v, kNew, vNew, slots, shape, elemBytes, row, kBuf, vBuf, trace);
      AddRow(trace, row, rowBytes, totalRows);
      forall r | 0 <= r < totalRows && r % stride == thread && row <= r < row + stride ensures r == row {
        NextInClass(r, row, stride);
      }
      trace := trace + RowSteps(row, rowBytes, rowBytes);
      ClassStep(row, stride);
      row := row + stride;
    }
  }

  /** All steps below rows * rowBytes are steps of some row. */
  lemma RowsAreSchedule(trace: seq<nat>, rows: nat, rowBytes: nat)
    requires StepsBelow(trace, rows * rowBytes) && rowBytes > 0
    requires forall r :: 0 <= r < rows ==> RowVisited(trace, rowBytes, r)
    ensures Schedule(trace, rows * rowBytes)
  {
    forall n | 0 <= n < rows * rowBytes ensures n in trace {
      DivModOf(n, rowBytes);
      DivBelow(n, rows, rowBytes);
      assert RowVisited(trace, rowBytes, n / rowBytes);
      assert VisitedStep(trace, rowBytes, n / rowBytes, n % rowBytes);
    }
  }

  /** LaunchKvAppend: one thread after the other; the outcome is the one every
      interleaving has. */
  method LaunchKvAppend(k: array<byte>, v: array<byte>, kNew: seq<byte>, vNew: seq<byte>, slots: seq<int>,
                        shape: KVCacheShape, elemBytes: nat)
    requires AppendArgs(shape, elemBytes, k, v, kNew, vNew, slots)
    modifies k, v
    ensures TokenBytes(shape, elemBytes) > 0
    ensures Scattered(old(k[..]), k[..], kNew, slots, TokenBytes(shape, elemBytes))
    ensures Scattered(old(v[..]), v[..], vNew, slots, TokenBytes(shape, elemBytes))
  {
    hide AppendStores, Replay, RowVisited, Scattered, NumSlots;
    SizesPositive(shape, elemBytes);
    ghost var kBuf, vBuf := k[..], v[..];
    ghost var trace: seq<nat> := [];
    EmptyReplay(kBuf, AppendStores(shape, elemBytes, kNew, slots));
    EmptyReplay(vBuf, AppendStores(shape, elemBytes, vNew, slots));
    var rows := |slots| * shape.numKvHeads;
    ghost var rowBytes := RowBytes(shape, elemBytes);
    assert |kNew| == rows * rowBytes;
    var stride := Stride(rows);
    hide TokenBytes, Stride;
    for thread := 0 to stride
      invariant k[..] == Replay(kBuf, AppendStores(shape, elemBytes, kNew, slots), trace)
      invariant v[..] == Replay(vBuf, AppendStores(shape, elemBytes, vNew, slots), trace)
      invariant StepsBelow(trace, rows * rowBytes)
      invariant forall r :: 0 <= r < rows && r % stride < thread ==> RowVisited(trace, rowBytes, r)
    {
      trace := KvAppendThread(k, v, kNew, vNew, slots, shape, elemBytes, thread, stride, kBuf, vBuf, trace);
    }
    RowsAreSchedule(trace, rows, rowBytes);
    AnyScheduleScatters(shape, elemBytes, kBuf, kNew, slots, trace);
    AnyScheduleScatters(shape, elemBytes, vBuf, vNew, slots, trace);
  }

  lemma EmptyReplay(buf: seq<byte>, f: nat -> Store<byte>)
    ensures Replay(buf, f, []) == buf
  {
  }

  // ---------------------------------------------------------------------------
  // Reset and gather: grid-stride loops over single bytes
  // ---------------------------------------------------------------------------

  /** The grid-stride loop of one thread whose step n performs the store f(n). */
  method StoreThread(buf: array<byte>, f: nat -> Store<byte>, total: nat, thread: nat, stride: nat,
                     ghost start: seq<byte>, ghost before: seq<nat>) returns (ghost trace: seq<nat>)
    requires thread < stride
    requires forall n :: 0 <= n < total && f(n).At? ==> f(n).addr < buf.Length
    requires buf[..] == Replay(start, f, before) && StepsBelow(before, total)
    modifies buf
    ensures buf[..] == Replay(start, f, trace) && StepsBelow(trace, total)
    ensures forall n :: 0 <= n < total && (n % stride == thread || n in before) ==> n in trace
  {
    hide Replay;
    trace := before;
    var n := thread;
    DivModIs(thread, stride, 0, thread);
    while n < total
      invariant n % stride == thread
      invariant buf[..] == Replay(start, f, trace) && StepsBelow(trace, total)
      invariant forall x :: 0 <= x < total && ((x % stride == thread && x < n) || x in before) ==> x in trace
      decreases total - n
    {
      var st := f(n);
      if st.At? {
        buf[st.addr] := st.value;
      }
      ReplaySnoc(start, f, trace, n);
      forall x | 0 <= x < total && x % stride == thread && n <= x < n + stride ensures x == n {
        NextInClass(x, n, stride);
      }
      trace := trace + [n];
      ClassStep(n, stride);
      n := n + stride;
    }
  }

  /** All threads of a launch over `total` single-byte steps. */
  method LaunchStores(buf: array<byte>, f: nat -> Store<byte>, total: nat) returns (ghost order: seq<nat>)
    requires forall n :: 0 <= n < total && f(n).At? ==> f(n).addr < buf.Length
    modifies buf
    ensures Schedule(order, total) && buf[..] == Replay(old(buf[..]), f, order)
  {
    hide Replay;
    ghost var start := buf[..];
    order := [];
    EmptyReplay(start, f);
    var stride := Stride(total);
    hide Stride;
    for thread := 0 to stride
      invariant buf[..] == Replay(start, f, order) && StepsBelow(order, total)
      invariant forall n :: 0 <= n < total && n % stride < thread ==> n in order
    {
      order := StoreThread(buf, f, total, thread, stride, start, order);
    }
  }

  /** Step n of kv_reset_kernel: zero one byte of block ids[n / blockBytes]. */
  function ResetStores(shape: KVCacheShape, blockBytes: nat, ids: seq<int>): nat -> Store<byte>
    requires blockBytes > 0
  {
    (n: nat) =>
      if n / blockBytes >= |ids| then Skip
      else
        var physical := ids[n / blockBytes];
        if physical < 0 || physical >= shape.numBlocks then Skip
        else At(physical * blockBytes + n % blockBytes, 0)
  }

  /** Byte a of a buffer after the blocks `ids` were zeroed. */
  function ZeroedByte(before: seq<byte>, ids: seq<int>, blockBytes: nat, a: nat): byte
    requires blockBytes > 0 && a < |before|
  {
    if a / blockBytes in ids then 0 else before[a]
  }

  /** Every interleaving of the reset kernel zeroes exactly the listed blocks of the
      pool; duplicate, negative and out-of-range ids are harmless. */
  lemma AnyScheduleZeroes(shape: KVCacheShape, blockBytes: nat, buf: seq<byte>, ids: seq<int>, order: seq<nat>, a: nat)
    requires blockBytes > 0 && |buf| == shape.numBlocks * blockBytes && a < |buf|
    requires Schedule(order, |ids| * blockBytes)
    ensures Replay(buf, ResetStores(shape, blockBytes, ids), order)[a] == ZeroedByte(buf, ids, blockBytes, a)
  {
    var f := ResetStores(shape, blockBytes, ids);
    ReplayAt(buf, f, order, a);
    DivModOf(a, blockBytes);
    if a / blockBytes in ids {
      var t :| 0 <= t < |ids| && ids[t] == a / blockBytes;
      DivBelow(a, shape.numBlocks, blockBytes);
      var n := t * blockBytes + a % blockBytes;
      RowFits(t, |ids|, blockBytes);
      DivModIs(n, blockBytes, t, a % blockBytes);
      assert n in order && WritesTo(f, n, a);
    } else {
      forall i | 0 <= i < |order| ensures !WritesTo(f, order[i], a) {
        ResetMisses(shape, blockBytes, ids, order[i], a);
      }
    }
  }

  lemma ResetMisses(shape: KVCacheShape, blockBytes: nat, ids: seq<int>, n: nat, a: nat)
    requires blockBytes > 0 && a / blockBytes !in ids
    ensures !WritesTo(ResetStores(shape, blockBytes, ids), n, a)
  {
    if WritesTo(ResetStores(shape, blockBytes, ids), n, a) {
      DivModIs(a, blockBytes, ids[n / blockBytes], n % blockBytes);
    }
  }

  lemma ResetInside(shape: KVCacheShape, blockBytes: nat, ids: seq<int>, n: nat)
    requires blockBytes > 0 && ResetStores(shape, blockBytes, ids)(n).At?
    ensures ResetStores(shape, blockBytes, ids)(n).addr < shape.numBlocks * blockBytes
  {
    RowFits(ids[n / blockBytes], shape.numBlocks, blockBytes);
  }

  /** LaunchKvResetBlock on one layer. */
  method LaunchKvReset(k: array<byte>, v: array<byte>, ids: seq<int>, shape: KVCacheShape, blockBytes: nat)
    requires blockBytes > 0 && k != v && k.Length == v.Length == shape.numBlocks * blockBytes
    modifies k, v
    ensures forall a :: 0 <= a < k.Length ==> k[a] == ZeroedByte(old(k[..]), ids, blockBytes, a)
    ensures forall a :: 0 <= a < v.Length ==> v[a] == ZeroedByte(old(v[..]), ids, blockBytes, a)
  {
    hide ResetStores, ZeroedByte, Replay;
    var f := ResetStores(shape, blockBytes, ids);
    forall n: nat | f(n).At? ensures f(n).addr < k.Length {
      ResetInside(shape, blockBytes, ids, n);
    }
    ghost var kBuf, vBuf := k[..], v[..];
    ghost var kOrder := LaunchStores(k, f, |ids| * blockBytes);
    ghost var vOrder := LaunchStores(v, f, |ids| * blockBytes);
    forall a | 0 <= a < k.Length
      ensures k[..][a] == ZeroedByte(kBuf, ids, blockBytes, a) && v[..][a] == ZeroedByte(vBuf, ids, blockBytes, a)
    {
      AnyScheduleZeroes(shape, blockBytes, kBuf, ids, kOrder, a);
      AnyScheduleZeroes(shape, blockBytes, vBuf, ids, vOrder, a);
    }
  }

  /** Byte n of a gather of the blocks `ids`: zero for an id outside the pool. */
  function GatheredByte(shape: KVCacheShape, blockBytes: nat, src: seq<byte>, ids: seq<int>, n: nat): byte
    requires blockBytes > 0 && |src| == shape.numBlocks * blockBytes && n < |ids| * blockBytes
  {
    DivBelow(n, |ids|, blockBytes);
    var physical := ids[n / blockBytes];
    if physical < 0 || physical >= shape.numBlocks then 0
    else
      RowFits(physical, shape.numBlocks, blockBytes);
      src[physical * blockBytes + n % blockBytes]
  }

  function GatherStores(shape: KVCacheShape, blockBytes: nat, src: seq<byte>, ids: seq<int>): nat -> Store<byte>
    requires blockBytes > 0 && |src| == shape.numBlocks * blockBytes
  {
    (n: nat) => if n < |ids| * blockBytes then At(n, GatheredByte(shape, blockBytes, src, ids, n)) else Skip
  }

  lemma AnyScheduleGathers(shape: KVCacheShape, blockBytes: nat, src: seq<byte>, ids: seq<int>, out: seq<byte>,
                           order: seq<nat>, n: nat)
    requires blockBytes > 0 && |src| == shape.numBlocks * blockBytes
    requires |out| == |ids| * blockBytes && n < |out| && Schedule(order, |out|)
    ensures Replay(out, GatherStores(shape, blockBytes, src, ids), order)[n]
            == GatheredByte(shape, blockBytes, src, ids, n)
  {
    hide GatheredByte;
    var f := GatherStores(shape, blockBytes, src, ids);
    ReplayAt(out, f, order, n);
    assert n in order && WritesTo(f, n, n);
  }

  /** LaunchKvGather into a fresh tensor. */
  method LaunchKvGather(src: array<byte>, ids: seq<int>, shape: KVCacheShape, blockBytes: nat)
    returns (out: array<byte>)
    requires blockBytes > 0 && src.Length == shape.numBlocks * blockBytes
    ensures fresh(out) && out.Length == |ids| * blockBytes
    ensures forall n :: 0 <= n < out.Length ==> out[n] == GatheredByte(shape, blockBytes, src[..], ids, n)
  {
    hide GatheredByte, Replay;
    out := new byte[|ids| * blockBytes](i => 0);
    ghost var start := out[..];
    var f := GatherStores(shape, blockBytes, src[..], ids);
    ghost var order := LaunchStores(out, f, out.Length);
    forall n | 0 <= n < out.Length ensures out[..][n] == GatheredByte(shape, blockBytes, src[..], ids, n) {
      AnyScheduleGathers(shape, blockBytes, src[..], ids, start, order, n);
    }
  }
}
