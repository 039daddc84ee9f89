/** The two split-K decode kernels, warp by warp, over one float workspace, and the
    launch that runs them for any order of the thread blocks. */
module DecodeKernels {
  import opened Arith
  import opened Softmax
  import opened OnlineSoftmax
  import opened SplitMerge
  import opened Reductions
  import opened DecodeGeometry
  import opened DecodeModel

  function Requests(p: DecodeFwdParams): nat { p.batch * p.numHeads * p.numSplits }

  /** The m, l and O regions follow each other inside the workspace. */
  ghost predicate RegionsFit(p: DecodeFwdParams, n: nat) {
    && p.partialM + Requests(p) <= p.partialL
    && p.partialL + Requests(p) <= p.partialO
    && p.partialO + Requests(p) * p.headDim <= n
  }

  /** Workspace cells of warp r: one m, one l and a row of O. */
  function MCell(p: DecodeFwdParams, r: nat): nat { p.partialM + r }

  function LCell(p: DecodeFwdParams, r: nat): nat { p.partialL + r }

  function OCell(p: DecodeFwdParams, r: nat, d: nat): nat { p.partialO + (r * p.headDim + d) }

  lemma CellsInside(p: DecodeFwdParams, n: nat, r: nat)
    requires RegionsFit(p, n) && r < Requests(p)
    ensures MCell(p, r) < n && LCell(p, r) < n
    ensures forall d :: 0 <= d < p.headDim ==> LCell(p, r) < OCell(p, r, d) < n
    ensures MCell(p, r) < LCell(p, r)
  {
    RowFits(r, Requests(p), p.headDim);
  }

  /** The workspace holds state `x` in the cells of warp r. */
  ghost predicate Holds(sc: seq<Ext>, p: DecodeFwdParams, r: nat, x: Partial)
    requires RegionsFit(p, |sc|) && r < Requests(p)
  {
    CellsInside(p, |sc|, r);
    && |x.o| == p.headDim
    && sc[MCell(p, r)] == x.m
    && sc[LCell(p, r)] == Fin(x.l)
    && forall d :: 0 <= d < p.headDim ==> sc[OCell(p, r, d)] == Fin(x.o[d])
  }

  /** The state warp r is to leave behind. */
  ghost function WarpPartial(e: real -> real, p: DecodeFwdParams, r: nat): (x: Partial)
    requires Readable(p) && r < Requests(p)
    ensures |x.o| == p.headDim
  {
    FlatEncodes(r, p.batch, p.numHeads, p.numSplits);
    SplitPartial(e, p, BatchOf(r, p.numHeads, p.numSplits), HeadOf(r, p.numHeads, p.numSplits),
                 SplitOf(r, p.numHeads, p.numSplits))
  }

  ghost predicate Done(e: real -> real, sc: seq<Ext>, p: DecodeFwdParams, r: nat)
    requires Readable(p) && RegionsFit(p, |sc|) && r < Requests(p)
  {
    Holds(sc, p, r, WarpPartial(e, p, r))
  }

  // ---------------------------------------------------------------------------
  // The dot product, lane by lane
  // ---------------------------------------------------------------------------

  lemma {:induction false} DotSplits(x: seq<real>, y: seq<real>, lo: nat, mid: nat, hi: nat)
    requires lo <= mid <= hi <= |x| && hi <= |y|
    ensures Dot(x, y, lo, hi) == Dot(x, y, lo, mid) + Dot(x, y, mid, hi)
  {
    if mid < hi {
      DotSplits(x, y, lo, mid, hi - 1);
    }
  }

  /** Lane `lane` holds the dot product of its own slice. */
  ghost predicate LaneHolds(x: seq<real>, y: seq<real>, elems: nat, lanes: seq<real>, lane: nat) {
    && lane < |lanes|
    && lane * elems + elems <= |x| == |y|
    && lanes[lane] == Dot(x, y, lane * elems, lane * elems + elems)
  }

  /** The lanes' partial dot products add up to the dot product of the rows. */
  lemma {:induction false} LaneDotsTotal(x: seq<real>, y: seq<real>, elems: nat, lanes: seq<real>, from: nat,
                                         start: nat)
    requires |lanes| == WARP_SIZE && from <= WARP_SIZE && |x| == |y| == WARP_SIZE * elems
    requires forall lane :: 0 <= lane < WARP_SIZE ==> LaneHolds(x, y, elems, lanes, lane)
    requires start == from * elems <= |x|
    ensures StrideFold(Add, 0.0, lanes, from, 1) == Dot(x, y, start, |x|)
    decreases WARP_SIZE - from
  {
    if from < WARP_SIZE {
      hide Dot;
      assert LaneHolds(x, y, elems, lanes, from);
      assert (from + 1) * elems == start + elems;
      LaneDotsTotal(x, y, elems, lanes, from + 1, start + elems);
      DotSplits(x, y, start, start + elems, |x|);
    }
  }

  /** One lane's part of the dot product. */
  method LaneDot(q: seq<real>, k: seq<real>, start: nat, elems: nat) returns (dot: real)
    requires start + elems <= |q| == |k|
    ensures dot == Dot(q, k, start, start + elems)
  {
    dot := 0.0;
    for i := 0 to elems
      invariant dot == Dot(q, k, start, start + i)
    {
      dot := dot + q[start + i] * k[start + i];
    }
  }

  /** Each lane multiplies its slice of the row, then the warp reduction leaves the
      whole dot product in every lane. */
  method WarpDot(q: seq<real>, k: seq<real>, elems: nat) returns (dot: array<real>)
    requires |q| == |k| == WARP_SIZE * elems
    ensures fresh(dot) && dot.Length == WARP_SIZE
    ensures forall lane :: 0 <= lane < WARP_SIZE ==> dot[lane] == Dot(q, k, 0, WARP_SIZE * elems)
  {
    hide Dot;
    dot := new real[WARP_SIZE](i => 0.0);
    for lane := 0 to WARP_SIZE
      invariant forall x :: 0 <= x < lane ==> LaneHolds(q, k, elems, dot[..], x)
    {
      RowFits(lane, WARP_SIZE, elems);
      ghost var before := dot[..];
      dot[lane] := LaneDot(q, k, lane * elems, elems);
      assert LaneHolds(q, k, elems, dot[..], lane);
      forall x | 0 <= x < lane ensures LaneHolds(q, k, elems, dot[..], x) {
        assert LaneHolds(q, k, elems, before, x);
      }
    }
    LaneDotsTotal(q, k, elems, dot[..], 0, 0);
    AddIsMonoid();
    WarpReduce(dot, Add, 0.0);
  }

  /** acc := alpha * acc + pj * v, each lane on its own slice. */
  method Accumulate(acc: array<real>, alpha: real, pj: real, v: seq<real>, elems: nat)
    requires acc.Length == |v| == WARP_SIZE * elems
    modifies acc
    ensures forall d :: 0 <= d < |v| ==> acc[d] == Axpy(alpha, old(acc[d]), pj, v[d])
  {
    hide Axpy;
    ghost var before := acc[..];
    var start := 0;
    for lane := 0 to WARP_SIZE
      invariant start == lane * elems <= |v|
      invariant forall d :: 0 <= d < start ==> acc[d] == Axpy(alpha, before[d], pj, v[d])
      invariant forall d :: start <= d < |v| ==> acc[d] == before[d]
    {
      RowFits(lane, WARP_SIZE, elems);
      for i := 0 to elems
        invariant forall d :: 0 <= d < start + i ==> acc[d] == Axpy(alpha, before[d], pj, v[d])
        invariant forall d :: start + i <= d < |v| ==> acc[d] == before[d]
      {
        acc[start + i] := Axpy(alpha, acc[start + i], pj, v[start + i]);
      }
      start := start + elems;
      assert start == (lane + 1) * elems;
    }
  }

  // ---------------------------------------------------------------------------
  // decode_partial_kernel
  // ---------------------------------------------------------------------------

  /** The rescaling update for one visible token. */
  method OnlineUpdate(e: real -> real, m: Ext, l: real, acc: array<real>, dot: real, v: seq<real>, elems: nat)
    returns (mNew: Ext, lNew: real)
    requires acc.Length == |v| == WARP_SIZE * elems
    modifies acc
    ensures Partial(mNew, lNew, acc[..]) == OnlineStep(e, Partial(m, l, old(acc[..])), Token(dot, v))
  {
    mNew := Max(m, Fin(dot));
    var alpha := if m.NegInf? then 0.0 else FastExp(e, m.r - mNew.r);
    var pj := FastExp(e, dot - mNew.r);
    lNew := alpha * l + pj;
    Accumulate(acc, alpha, pj, v, elems);
    assert pj * 1.0 == pj;
    assert lNew == Axpy(alpha, l, pj, 1.0) == StepSum(e, m, l, dot, 1.0);
    hide Axpy;
    ghost var next := OnlineStep(e, Partial(m, l, old(acc[..])), Token(dot, v)).o;
    forall d | 0 <= d < acc.Length ensures acc[..][d] == next[d] {
      assert acc[d] == Axpy(alpha, old(acc[d]), pj, v[d]);
    }
  }

  /** The online loop of one warp over positions jBegin <= j < jEnd. */
  method ScanSplit(e: real -> real, p: DecodeFwdParams, batch: nat, head: nat, jBegin: nat, jEnd: nat)
    returns (m: Ext, l: real, acc: array<real>)
    requires Readable(p) && batch < p.batch && head < p.numHeads && jEnd <= SeqLen(p, batch)
    ensures fresh(acc) && acc.Length == p.headDim
    ensures Partial(m, l, acc[..]) == OnlineFold(e, Visible(p, batch, head, jBegin, jEnd), p.headDim)
  {
    hide OnlineFold, OnlineStep, Dot, Visible, TokenAt, RowStart, QStart, KvHead, TokenRow;
    var elems := p.headDim / WARP_SIZE;
    var q := Slice(p.q, QStart(p, batch, head), p.headDim);
    m, l := NegInf, 0.0;
    acc := new real[p.headDim](i => 0.0);
    assert acc[..] == Identity(p.headDim).o;
    FoldEmpty(e, p.headDim);
    VisibleEmpty(p, batch, head, jBegin, jEnd);
    var j := jBegin;
    while j < jEnd
      invariant j == jBegin || jBegin <= j <= jEnd
      invariant fresh(acc) && acc.Length == p.headDim
      invariant Partial(m, l, acc[..])
                == OnlineFold(e, Visible(p, batch, head, jBegin, if j <= jEnd then j else jEnd), p.headDim)
    {
      VisibleSnoc(p, batch, head, jBegin, j);
      ghost var before := Visible(p, batch, head, jBegin, j);
      var row := TokenRow(p, batch, j);
      if row >= 0 {
        var k := Slice(p.k, RowStart(p.kStride, batch, KvHead(p, head), row), p.headDim);
        var v := Slice(p.v, RowStart(p.vStride, batch, KvHead(p, head), row), p.headDim);
        var dot := WarpDot(q, k, elems);
        var score := dot[0] * p.scale;
        TokenIs(p, batch, head, j, q, k, v, dot[0]);
        FoldSnoc(e, before, Token(score, v), p.headDim);
        ghost var x0 := Partial(m, l, acc[..]);
        assert TokenAt(p, batch, head, j) == Token(score, v);
        m, l := OnlineUpdate(e, m, l, acc, score, v, elems);
        assert Partial(m, l, acc[..]) == OnlineStep(e, x0, Token(score, v));
        assert Visible(p, batch, head, jBegin, j + 1) == before + [Token(score, v)];
      }
      j := j + 1;
    }
  }

  /** One warp: the online loop over its split, then the partial state into the workspace. */
  method DecodePartialWarp(e: real -> real, p: DecodeFwdParams, scratch: array<Ext>, flat: nat)
    requires Readable(p) && RegionsFit(p, scratch.Length)
    modifies scratch
    ensures flat < Requests(p) ==> Done(e, scratch[..], p, flat)
    ensures forall r :: 0 <= r < Requests(p) && r != flat && Done(e, old(scratch[..]), p, r) ==>
              Done(e, scratch[..], p, r)
  {
    hide OnlineFold, Visible, SplitBegin, SplitEnd, BatchOf, HeadOf, SplitOf;
    if flat >= Requests(p) { return; }
    FlatEncodes(flat, p.batch, p.numHeads, p.numSplits);
    var split := SplitOf(flat, p.numHeads, p.numSplits);
    var head := HeadOf(flat, p.numHeads, p.numSplits);
    var batch := BatchOf(flat, p.numHeads, p.numSplits);
    var seqLen := SeqLen(p, batch);
    var jBegin, jEnd := SplitBegin(seqLen, p.numSplits, split), SplitEnd(seqLen, p.numSplits, split);
    SplitEndBelow(seqLen, p.numSplits, split);
    var m, l, acc := ScanSplit(e, p, batch, head, jBegin, jEnd);
    WritePartial(e, p, scratch, flat, m, l, acc);
  }

  lemma VisibleEmpty(p: DecodeFwdParams, b: nat, h: nat, lo: nat, hi: nat)
    requires Readable(p) && b < p.batch && h < p.numHeads && hi <= SeqLen(p, b)
    ensures hi <= lo ==> Visible(p, b, h, lo, hi) == []
    ensures lo <= hi ==> Visible(p, b, h, lo, lo) == []
  {
  }

  lemma VisibleSnoc(p: DecodeFwdParams, b: nat, h: nat, lo: nat, j: nat)
    requires Readable(p) && b < p.batch && h < p.numHeads && lo <= j < SeqLen(p, b)
    ensures RowReadable(p, b, h, j)
    ensures Visible(p, b, h, lo, j + 1)
         == if TokenRow(p, b, j) < 0 then Visible(p, b, h, lo, j) else Visible(p, b, h, lo, j) + [TokenAt(p, b, h, j)]
  {
  }

  lemma TokenIs(p: DecodeFwdParams, b: nat, h: nat, j: nat, q: seq<real>, k: seq<real>, v: seq<real>, dot: real)
    requires Readable(p) && b < p.batch && h < p.numHeads && j < SeqLen(p, b) && TokenRow(p, b, j) >= 0
    requires RowReadable(p, b, h, j)
    requires q == Slice(p.q, QStart(p, b, h), p.headDim)
    requires k == Slice(p.k, RowStart(p.kStride, b, KvHead(p, h), TokenRow(p, b, j)), p.headDim)
    requires v == Slice(p.v, RowStart(p.vStride, b, KvHead(p, h), TokenRow(p, b, j)), p.headDim)
    requires dot == Dot(q, k, 0, p.headDim)
    ensures TokenAt(p, b, h, j) == Token(dot * p.scale, v)
  {
  }

  lemma FoldEmpty(e: real -> real, dim: nat)
    ensures OnlineFold(e, [], dim) == Identity(dim)
  {
  }

  lemma FoldSnoc(e: real -> real, ts: seq<Token>, t: Token, dim: nat)
    requires WellShaped(ts, dim) && |t.value| == dim
    ensures OnlineFold(e, ts + [t], dim) == OnlineStep(e, OnlineFold(e, ts, dim), t)
  {
    assert (ts + [t])[..|ts + [t]| - 1] == ts;
  }

  /** Cell c belongs to warp r: its m, its l, or one of its first n O cells. */
  predicate CellOf(p: DecodeFwdParams, r: nat, n: nat, c: nat) {
    c == MCell(p, r) || c == LCell(p, r) || OCell(p, r, 0) <= c < OCell(p, r, n)
  }

  /** Lane 0 stores m and l; every lane stores its slice of O. */
  method WritePartial(e: real -> real, p: DecodeFwdParams, scratch: array<Ext>, flat: nat, m: Ext, l: real,
                      acc: array<real>)
    requires Readable(p) && RegionsFit(p, scratch.Length) && flat < Requests(p) && acc.Length == p.headDim
    requires Partial(m, l, acc[..]) == WarpPartial(e, p, flat)
    modifies scratch
    ensures Done(e, scratch[..], p, flat)
    ensures forall r :: 0 <= r < Requests(p) && r != flat && Done(e, old(scratch[..]), p, r) ==>
              Done(e, scratch[..], p, r)
  {
    hide WarpPartial;
    ghost var before := scratch[..];
    CellsInside(p, scratch.Length, flat);
    scratch[MCell(p, flat)] := m;
    scratch[LCell(p, flat)] := Fin(l);
    for d := 0 to p.headDim
      invariant scratch[MCell(p, flat)] == m && scratch[LCell(p, flat)] == Fin(l)
      invariant forall x :: 0 <= x < d ==> scratch[OCell(p, flat, x)] == Fin(acc[x])
      invariant forall c | 0 <= c < scratch.Length && !CellOf(p, flat, d, c) :: scratch[c] == before[c]
    {
      scratch[OCell(p, flat, d)] := Fin(acc[d]);
    }
    forall r | 0 <= r < Requests(p) && r != flat && Done(e, before, p, r)
      ensures Done(e, scratch[..], p, r)
    {
      OtherCells(p, before, scratch[..], flat, r, WarpPartial(e, p, r));
    }
  }

  /** Cells of another warp are outside the cells of `flat`. */
  lemma OtherCells(p: DecodeFwdParams, before: seq<Ext>, after: seq<Ext>, flat: nat, r: nat, x: Partial)
    requires |before| == |after| && RegionsFit(p, |before|) && flat < Requests(p) && r < Requests(p) && r != flat
    requires forall c | 0 <= c < |before| && !CellOf(p, flat, p.headDim, c) :: after[c] == before[c]
    requires Holds(before, p, r, x)
    ensures Holds(after, p, r, x)
  {
    CellsInside(p, |before|, r);
    if r < flat {
      RowFits(r, flat, p.headDim);
    } else {
      RowFits(flat, r, p.headDim);
    }
  }

  // ---------------------------------------------------------------------------
  // decode_reduce_kernel
  // ---------------------------------------------------------------------------

  /** Warp index of split s of (b, h), and the state its cells hold. */
  lemma SplitCells(e: real -> real, sc: seq<Ext>, p: DecodeFwdParams, b: nat, h: nat, s: nat)
    requires Readable(p) && RegionsFit(p, |sc|) && b < p.batch && h < p.numHeads && s < p.numSplits
    requires forall r :: 0 <= r < Requests(p) ==> Done(e, sc, p, r)
    ensures FlatOf(b, h, s, p.numHeads, p.numSplits) < Requests(p)
    ensures Holds(sc, p, FlatOf(b, h, s, p.numHeads, p.numSplits), SplitPartials(e, p, b, h)[s])
  {
    hide SplitPartial, FlatOf, BatchOf, HeadOf, SplitOf;
    FlatDecodes(b, h, s, p.batch, p.numHeads, p.numSplits);
    assert Done(e, sc, p, FlatOf(b, h, s, p.numHeads, p.numSplits));
  }

  /** The maximum over the splits, read back from the workspace. */
  method ReduceMax(p: DecodeFwdParams, scratch: array<Ext>, base: nat, ghost ps: seq<Partial>) returns (mAll: Ext)
    requires |ps| == p.numSplits && MCell(p, base + p.numSplits) <= scratch.Length
    requires forall s :: 0 <= s < |ps| ==> scratch[MCell(p, base + s)] == ps[s].m
    ensures mAll == MaxOf(ps)
  {
    mAll := NegInf;
    for s := 0 to p.numSplits
      invariant mAll == MaxOf(ps[..s])
    {
      mAll := Max(mAll, scratch[MCell(p, base + s)]);
      assert ps[..s + 1][..s] == ps[..s];
    }
    assert ps[..p.numSplits] == ps;
  }

  /** What one split adds to a rescaled total: nothing when it saw no token. */
  function SplitTerm(e: real -> real, m: Ext, x: real, mAll: Ext): real
    requires m.Fin? ==> mAll.Fin? && m.r <= mAll.r
  {
    if m.NegInf? then 0.0 else x * FastExp(e, m.r - mAll.r)
  }

  lemma TotalSnoc(e: real -> real, ms: seq<Ext>, xs: seq<real>, mAll: Ext, s: nat)
    requires s < |ms| == |xs|
    requires forall i :: 0 <= i < |ms| && ms[i].Fin? ==> mAll.Fin? && ms[i].r <= mAll.r
    ensures RescaledTotal(e, ms[..s + 1], xs[..s + 1], mAll)
         == RescaledTotal(e, ms[..s], xs[..s], mAll) + SplitTerm(e, ms[s], xs[s], mAll)
  {
    assert ms[..s + 1][..s] == ms[..s] && xs[..s + 1][..s] == xs[..s];
  }

  /** One split's term of a rescaled total: nothing for a split that saw no token. */
  method ReduceTerm(e: real -> real, scratch: array<Ext>, mS: Ext, cell: nat, mAll: Ext, ghost x: real)
    returns (term: real)
    requires ColumnHolds(scratch[..], cell, x)
    requires mS.Fin? ==> mAll.Fin? && mS.r <= mAll.r
    ensures term == SplitTerm(e, mS, x, mAll)
  {
    if mS.NegInf? { return 0.0; }
    term := scratch[cell].r * FastExp(e, mS.r - mAll.r);
  }

  /** Sum over the splits of one workspace column, rescaled to the common maximum;
      `ms` and `xs` list what the m cells and the column hold. */
  method ReduceColumn(e: real -> real, p: DecodeFwdParams, scratch: array<Ext>, base: nat, column: nat, stride: nat,
                      mAll: Ext, ghost ms: seq<Ext>, ghost xs: seq<real>) returns (total: real)
    requires |ms| == |xs| == p.numSplits
    requires forall i :: 0 <= i < |ms| && ms[i].Fin? ==> mAll.Fin? && ms[i].r <= mAll.r
    requires MCell(p, base + p.numSplits) <= scratch.Length
    requires forall s :: 0 <= s < |ms| ==> scratch[MCell(p, base + s)] == ms[s]
    requires forall s :: 0 <= s < |ms| ==> ColumnHolds(scratch[..], ColumnCell(column, stride, s), xs[s])
    ensures total == RescaledTotal(e, ms, xs, mAll)
  {
    hide RescaledTotal, ColumnCell, FastExp, ColumnHolds, SplitTerm;
    total := 0.0;
    TotalNone(e, mAll);
    assert ms[..0] == [] && xs[..0] == [];
    for s := 0 to p.numSplits
      invariant total == RescaledTotal(e, ms[..s], xs[..s], mAll)
    {
      TotalSnoc(e, ms, xs, mAll, s);
      var term := ReduceTerm(e, scratch, scratch[MCell(p, base + s)], ColumnCell(column, stride, s), mAll, xs[s]);
      total := total + term;
    }
    assert ms[..p.numSplits] == ms && xs[..p.numSplits] == xs;
  }

  function ColumnCell(column: nat, stride: nat, s: nat): nat { column + s * stride }

  ghost predicate ColumnHolds(sc: seq<Ext>, cell: nat, x: real) { cell < |sc| && sc[cell] == Fin(x) }

  lemma TotalNone(e: real -> real, mAll: Ext)
    ensures RescaledTotal(e, [], [], mAll) == 0.0
  {
  }

  ghost predicate RowsDisjoint(p: DecodeFwdParams, b: nat, h: nat, b': nat, h': nat) {
    || OutStart(p, b, h) + p.headDim <= OutStart(p, b', h')
    || OutStart(p, b', h') + p.headDim <= OutStart(p, b, h)
  }

  /** Output rows lie inside the output tensor and do not overlap. */
  ghost predicate OutRowsFit(p: DecodeFwdParams, n: nat) {
    && (forall b, h :: 0 <= b < p.batch && 0 <= h < p.numHeads ==> OutStart(p, b, h) + p.headDim <= n)
    && (forall b, h, b', h' | 0 <= b < p.batch && 0 <= h < p.numHeads && 0 <= b' < p.batch && 0 <= h' < p.numHeads
                              && (b != b' || h != h')
          :: RowsDisjoint(p, b, h, b', h'))
  }

  /** The output row of (b, h) is two-pass softmax attention over its visible tokens. */
  ghost predicate RowDone(e: real -> real, out: seq<real>, p: DecodeFwdParams, b: nat, h: nat)
    requires IsExp(e) && Readable(p) && OutRowsFit(p, |out|) && b < p.batch && h < p.numHeads
  {
    Slice(out, OutStart(p, b, h), p.headDim) == Attention(e, Visible(p, b, h, 0, SeqLen(p, b)), p.headDim)
  }

  ghost predicate AllDone(e: real -> real, sc: seq<Ext>, p: DecodeFwdParams) {
    Readable(p) && RegionsFit(p, |sc|) && forall r :: 0 <= r < Requests(p) ==> Done(e, sc, p, r)
  }

  lemma ColumnOfRow(p: DecodeFwdParams, base: nat, s: nat)
    ensures ColumnCell(LCell(p, base), 1, s) == LCell(p, base + s)
    ensures forall d :: 0 <= d < p.headDim ==> ColumnCell(OCell(p, base, d), p.headDim, s) == OCell(p, base + s, d)
  {
    assert (base + s) * p.headDim == base * p.headDim + s * p.headDim;
  }

  /** What the reduce pass finds in the columns of (b, h) for split s. */
  ghost predicate SplitColumn(sc: seq<Ext>, p: DecodeFwdParams, base: nat, s: nat, x: Partial) {
    && |x.o| == p.headDim
    && MCell(p, base + s) < |sc| && sc[MCell(p, base + s)] == x.m
    && ColumnHolds(sc, ColumnCell(LCell(p, base), 1, s), x.l)
    && forall d :: 0 <= d < p.headDim ==> ColumnHolds(sc, ColumnCell(OCell(p, base, d), p.headDim, s), x.o[d])
  }

  lemma Columns(e: real -> real, sc: seq<Ext>, p: DecodeFwdParams, b: nat, h: nat, s: nat)
    requires AllDone(e, sc, p) && b < p.batch && h < p.numHeads && s < p.numSplits
    ensures SplitColumn(sc, p, (b * p.numHeads + h) * p.numSplits, s, SplitPartials(e, p, b, h)[s])
  {
    hide SplitPartial, Requests, Readable;
    SplitCells(e, sc, p, b, h, s);
    var base := (b * p.numHeads + h) * p.numSplits;
    CellsInside(p, |sc|, base + s);
    ColumnOfRow(p, base, s);
  }

  /** One warp of the reduce pass: merge the splits of (b, h) and write its output row. */
  method DecodeReduceWarp(e: real -> real, p: DecodeFwdParams, scratch: array<Ext>, out: array<real>, flat: nat)
    requires IsExp(e) && AllDone(e, scratch[..], p) && OutRowsFit(p, out.Length) && p.numHeads > 0
    modifies out
    ensures flat < p.batch * p.numHeads ==> RowDoneAt(e, out[..], p, flat)
    ensures forall r :: 0 <= r < p.batch * p.numHeads && r != flat && RowDoneAt(e, old(out[..]), p, r) ==>
              RowDoneAt(e, out[..], p, r)
  {
    if flat >= p.batch * p.numHeads { return; }
    PairDecodes(flat, p.batch, p.numHeads);
    var head, batch := flat % p.numHeads, flat / p.numHeads;
    MergeRow(e, p, scratch, out, batch, head, flat * p.numSplits);
    forall r | 0 <= r < p.batch * p.numHeads && r != flat && RowDoneAt(e, old(out[..]), p, r)
      ensures RowDoneAt(e, out[..], p, r)
    {
      OtherRow(e, p, old(out[..]), out[..], batch, head, r);
    }
  }

  lemma PairDecodes(flat: nat, batch: nat, heads: nat)
    requires flat < batch * heads && heads > 0
    ensures flat / heads < batch && flat % heads < heads && (flat / heads) * heads + flat % heads == flat
  {
    DivModOf(flat, heads);
    DivBelow(flat, batch, heads);
  }

  /** RowDone for the (b, h) pair of flat index r. */
  ghost predicate RowDoneAt(e: real -> real, out: seq<real>, p: DecodeFwdParams, r: nat)
    requires IsExp(e) && Readable(p) && OutRowsFit(p, |out|) && r < p.batch * p.numHeads
  {
    PairDecodes(r, p.batch, p.numHeads);
    RowDone(e, out, p, r / p.numHeads, r % p.numHeads)
  }

  lemma OtherRow(e: real -> real, p: DecodeFwdParams, before: seq<real>, after: seq<real>, b: nat, h: nat, r: nat)
    requires IsExp(e) && Readable(p) && |before| == |after| && OutRowsFit(p, |after|) && b < p.batch && h < p.numHeads
    requires forall x :: 0 <= x < |after| && !(OutStart(p, b, h) <= x < OutStart(p, b, h) + p.headDim) ==>
               after[x] == before[x]
    requires r < p.batch * p.numHeads && r != b * p.numHeads + h && RowDoneAt(e, before, p, r)
    ensures RowDoneAt(e, after, p, r)
  {
    hide Visible, Attention, OutStart, Slice, Readable;
    PairDecodes(r, p.batch, p.numHeads);
    var b', h' := r / p.numHeads, r % p.numHeads;
    assert RowsDisjoint(p, b, h, b', h');
    SameSlice(before, after, OutStart(p, b, h), OutStart(p, b', h'), p.headDim);
  }

  lemma SameSlice(before: seq<real>, after: seq<real>, changed: nat, start: nat, n: nat)
    requires |before| == |after| && start + n <= |after| && (changed + n <= start || start + n <= changed)
    requires forall x :: 0 <= x < |after| && !(changed <= x < changed + n) ==> after[x] == before[x]
    ensures Slice(after, start, n) == Slice(before, start, n)
  {
  }

  /** The workspace columns of one (b, h) hold the states `ps`. */
  ghost predicate SplitColumns(sc: seq<Ext>, p: DecodeFwdParams, base: nat, ps: seq<Partial>) {
    && |ps| == p.numSplits
    && forall s :: 0 <= s < |ps| ==> SplitColumn(sc, p, base, s, ps[s])
  }

  lemma ColumnsOf(e: real -> real, sc: seq<Ext>, p: DecodeFwdParams, b: nat, h: nat)
    requires AllDone(e, sc, p) && b < p.batch && h < p.numHeads
    ensures SplitColumns(sc, p, (b * p.numHeads + h) * p.numSplits, SplitPartials(e, p, b, h))
  {
    hide SplitPartial, SplitColumn;
    forall s | 0 <= s < p.numSplits
      ensures SplitColumn(sc, p, (b * p.numHeads + h) * p.numSplits, s, SplitPartials(e, p, b, h)[s])
    {
      Columns(e, sc, p, b, h, s);
    }
  }

  /** Merge the states in the columns at `base` into the output row at `start`. */
  method MergeSplits(e: real -> real, p: DecodeFwdParams, scratch: array<Ext>, out: array<real>, start: nat,
                     base: nat, ghost ps: seq<Partial>)
    requires p.numSplits > 0 && SplitColumns(scratch[..], p, base, ps) && start + p.headDim <= out.Length
    modifies out
    ensures Slice(out[..], start, p.headDim) == Normalise(MergeAll(e, ps, p.headDim))
    ensures forall x :: 0 <= x < out.Length && !(start <= x < start + p.headDim) ==> out[x] == old(out[x])
  {
    hide MaxOf, RescaledTotal, ColumnHolds, ColumnCell, OCell, LCell;
    ghost var ms := Maxima(ps);
    assert SplitColumn(scratch[..], p, base, p.numSplits - 1, ps[p.numSplits - 1]);
    var mAll := ReduceMax(p, scratch, base, ps);
    var lAll := ReduceColumn(e, p, scratch, base, LCell(p, base), 1, mAll, ms, Sums(ps));
    var invL := if lAll > 0.0 then 1.0 / lAll else 0.0;
    assert invL == Inverse(lAll);
    hide Inverse;
    ghost var merged := MergeAll(e, ps, p.headDim);
    for d := 0 to p.headDim
      invariant forall x :: 0 <= x < out.Length && !(start <= x < start + d) ==> out[x] == old(out[x])
      invariant forall x :: 0 <= x < d ==> out[start + x] == Normalise(merged)[x]
    {
      var total := ReduceColumn(e, p, scratch, base, OCell(p, base, d), p.headDim, mAll, ms, Coordinates(ps, d));
      out[start + d] := total * invL;
    }
  }

  method MergeRow(e: real -> real, p: DecodeFwdParams, scratch: array<Ext>, out: array<real>, batch: nat, head: nat,
                  base: nat)
    requires IsExp(e) && AllDone(e, scratch[..], p) && OutRowsFit(p, out.Length)
    requires batch < p.batch && head < p.numHeads && base == (batch * p.numHeads + head) * p.numSplits
    modifies out
    ensures RowDone(e, out[..], p, batch, head)
    ensures forall x :: 0 <= x < out.Length && !(OutStart(p, batch, head) <= x < OutStart(p, batch, head) + p.headDim)
              ==> out[x] == old(out[x])
  {
    hide Visible, Attention, OutStart, SplitPartials, MergeAll, Normalise, SplitColumns;
    ColumnsOf(e, scratch[..], p, batch, head);
    SplitKIsExact(e, p, batch, head);
    MergeSplits(e, p, scratch, out, OutStart(p, batch, head), base, SplitPartials(e, p, batch, head));
  }

  // ---------------------------------------------------------------------------
  // Launch
  // ---------------------------------------------------------------------------

  const WARPS_PER_CTA := 4

  function GridFor(requests: nat): nat { (requests + 3) / WARPS_PER_CTA }

  /** An order in which the scheduler may run the thread blocks of a grid. */
  ghost predicate RunsEveryBlock(order: seq<nat>, blocks: nat) {
    && (forall i :: 0 <= i < |order| ==> order[i] < blocks)
    && (forall x :: 0 <= x < blocks ==> x in order)
  }

  /** Request r belongs to the first `warps` warps of the block. */
  predicate InWarps(r: nat, block: nat, warps: nat) { block * WARPS_PER_CTA <= r < block * WARPS_PER_CTA + warps }

  /** All four warps of one thread block of the partial kernel. */
  method PartialCta(e: real -> real, p: DecodeFwdParams, scratch: array<Ext>, block: nat)
    requires Readable(p) && RegionsFit(p, scratch.Length)
    modifies scratch
    ensures forall r | 0 <= r < Requests(p) && (r / WARPS_PER_CTA == block || Done(e, old(scratch[..]), p, r)) ::
              Done(e, scratch[..], p, r)
  {
    hide Readable, Requests, WarpPartial;
    for warp := 0 to WARPS_PER_CTA
      invariant forall r | 0 <= r < Requests(p) && (Done(e, old(scratch[..]), p, r) || InWarps(r, block, warp)) ::
                  Done(e, scratch[..], p, r)
    {
      DecodePartialWarp(e, p, scratch, block * WARPS_PER_CTA + warp);
    }
  }

  method ReduceCta(e: real -> real, p: DecodeFwdParams, scratch: array<Ext>, out: array<real>, block: nat)
    requires IsExp(e) && AllDone(e, scratch[..], p) && OutRowsFit(p, out.Length) && p.numHeads > 0
    modifies out
    ensures forall r | 0 <= r < p.batch * p.numHeads
                         && (r / WARPS_PER_CTA == block || RowDoneAt(e, old(out[..]), p, r)) ::
              RowDoneAt(e, out[..], p, r)
  {
    hide RowDoneAt, OutRowsFit;
    for warp := 0 to WARPS_PER_CTA
      invariant forall r | 0 <= r < p.batch * p.numHeads
                           && (RowDoneAt(e, old(out[..]), p, r) || InWarps(r, block, warp)) ::
                  RowDoneAt(e, out[..], p, r)
    {
      DecodeReduceWarp(e, p, scratch, out, block * WARPS_PER_CTA + warp);
    }
  }

  /** Partial kernel, then reduce kernel, each for any order of its thread blocks and
      whatever the workspace held before. */
  method LaunchDecodeSplitK(e: real -> real, p: DecodeFwdParams, scratch: array<Ext>, out: array<real>,
                            partialOrder: seq<nat>, reduceOrder: seq<nat>)
    requires IsExp(e) && Readable(p) && RegionsFit(p, scratch.Length) && OutRowsFit(p, out.Length)
    requires RunsEveryBlock(partialOrder, GridFor(Requests(p)))
    requires RunsEveryBlock(reduceOrder, GridFor(p.batch * p.numHeads))
    modifies scratch, out
    ensures forall b, h :: 0 <= b < p.batch && 0 <= h < p.numHeads ==> RowDone(e, out[..], p, b, h)
  {
    hide RowDone, OutRowsFit, WarpPartial;
    for i := 0 to |partialOrder|
      invariant forall r | 0 <= r < Requests(p) && r / WARPS_PER_CTA in partialOrder[..i] :: Done(e, scratch[..], p, r)
    {
      PartialCta(e, p, scratch, partialOrder[i]);
    }
    forall r | 0 <= r < Requests(p) ensures Done(e, scratch[..], p, r) {
      assert r / WARPS_PER_CTA in partialOrder;
      assert partialOrder[..|partialOrder|] == partialOrder;
    }
    for i := 0 to |reduceOrder|
      invariant AllDone(e, scratch[..], p)
      invariant forall r | 0 <= r < p.batch * p.numHeads && r / WARPS_PER_CTA in reduceOrder[..i] ::
                  RowDoneAt(e, out[..], p, r)
    {
      ReduceCta(e, p, scratch, out, reduceOrder[i]);
    }
    forall b, h | 0 <= b < p.batch && 0 <= h < p.numHeads ensures RowDone(e, out[..], p, b, h) {
      var r := b * p.numHeads + h;
      RowFits(b, p.batch, p.numHeads);
      assert r / WARPS_PER_CTA in reduceOrder;
      assert reduceOrder[..|reduceOrder|] == reduceOrder;
      DivModIs(r, p.numHeads, b, h);
    }
  }
}
