/** What the split-K decode launch computes, as functions of its parameters: the
    tokens each (batch, head) sees, one partial state per split, and the merge. */
module DecodeModel {
  import opened Arith
  import opened Softmax
  import opened OnlineSoftmax
  import opened Reductions
  import opened DecodeGeometry
  import opened KvConfig
  import opened SplitMerge

  datatype Strides = Strides(b: nat, h: nat, s: nat)

  /** Launch parameters; q, k and v are the tensors' elements after ToFloat, and
      partialM, partialL, partialO are offsets into one float workspace. */
  datatype DecodeFwdParams = DecodeFwdParams(
    q: seq<real>, k: seq<real>, v: seq<real>,
    partialM: nat, partialL: nat, partialO: nat,
    batch: nat, numHeads: nat, numKvHeads: nat, seqKv: nat, headDim: nat, numSplits: nat,
    qStride: Strides, kStride: Strides, vStride: Strides, oStride: Strides,
    scale: real,
    pageTable: Option<seq<int>>, blockSize: nat, maxBlocksPerSeq: nat, numKvBlocks: nat,
    seqLens: Option<seq<nat>>, dtype: DType)

  function SeqLen(p: DecodeFwdParams, b: nat): nat
    requires p.seqLens.Some? ==> b < |p.seqLens.value|
  {
    if p.seqLens.Some? then p.seqLens.value[b] else p.seqKv
  }

  function KvHead(p: DecodeFwdParams, h: nat): nat
    requires 0 < p.numKvHeads <= p.numHeads
  {
    h / (p.numHeads / p.numKvHeads)
  }

  /** The query heads form consecutive groups of g, one group for each KV head; when the
      division is uneven, fewer heads than KV heads are left over. */
  predicate GroupsOf(numHeads: nat, numKvHeads: nat, g: nat) {
    g > 0 && g * numKvHeads <= numHeads < (g + 1) * numKvHeads
  }

  /** Query head h lies in group hkv. */
  ghost predicate InGroup(numHeads: nat, numKvHeads: nat, h: nat, hkv: nat) {
    exists g: nat :: GroupsOf(numHeads, numKvHeads, g) && hkv * g <= h < hkv * g + g
  }

  /** The kernel reads the KV head of the query head's group. */
  lemma KvHeadOfGroup(p: DecodeFwdParams, h: nat, hkv: nat)
    requires InGroup(p.numHeads, p.numKvHeads, h, hkv)
    ensures 0 < p.numKvHeads <= p.numHeads && KvHead(p, h) == hkv
  {
    var g: nat :| GroupsOf(p.numHeads, p.numKvHeads, g) && hkv * g <= h < hkv * g + g;
    assert (g + 1) * p.numKvHeads == g * p.numKvHeads + p.numKvHeads;
    DivModIs(p.numHeads, p.numKvHeads, g, p.numHeads - g * p.numKvHeads);
    MulMono(1, g, p.numKvHeads);
    DivModIs(h, g, hkv, h - hkv * g);
  }

  /** Every query head lies in the group of the KV head it reads. */
  lemma HeadHasGroup(p: DecodeFwdParams, h: nat)
    requires 0 < p.numKvHeads <= p.numHeads
    ensures InGroup(p.numHeads, p.numKvHeads, h, KvHead(p, h))
  {
    var n := p.numKvHeads;
    var g := p.numHeads / n;
    DivModOf(p.numHeads, n);
    assert (g + 1) * n == g * n + n;
    if g <= 0 { MulMono(g, 0, n); }
    assert GroupsOf(p.numHeads, n, g);
    DivModOf(h, g);
  }

  /** When the KV heads divide the query heads into groups of g, head i of group hkv is
      query head hkv * g + i. */
  lemma EvenGroups(p: DecodeFwdParams, g: nat, hkv: nat, i: nat)
    requires p.numHeads == g * p.numKvHeads && p.numKvHeads > 0 && i < g
    ensures InGroup(p.numHeads, p.numKvHeads, hkv * g + i, hkv)
    ensures p.numKvHeads <= p.numHeads && KvHead(p, hkv * g + i) == hkv
  {
    assert (g + 1) * p.numKvHeads == g * p.numKvHeads + p.numKvHeads;
    assert GroupsOf(p.numHeads, p.numKvHeads, g);
    KvHeadOfGroup(p, hkv * g + i, hkv);
  }

  function QStart(p: DecodeFwdParams, b: nat, h: nat): nat { b * p.qStride.b + h * p.qStride.h }

  function OutStart(p: DecodeFwdParams, b: nat, h: nat): nat { b * p.oStride.b + h * p.oStride.h }

  /** The page table has an entry for every position the kernel looks up. */
  ghost predicate TableReadable(p: DecodeFwdParams, b: nat, j: nat) {
    p.pageTable.Some? ==>
      && p.blockSize > 0
      && (j / p.blockSize < p.maxBlocksPerSeq ==>
            b * p.maxBlocksPerSeq + j / p.blockSize < |p.pageTable.value|)
  }

  /** Row number of token j along the token axis, or -1 for an unmapped token. */
  function TokenRow(p: DecodeFwdParams, b: nat, j: nat): int
    requires TableReadable(p, b, j)
  {
    if p.pageTable.None? then j
    else PageTableRow(p.pageTable.value, b, j, p.blockSize, p.maxBlocksPerSeq, p.numKvBlocks)
  }

  function RowStart(st: Strides, b: nat, hkv: nat, row: nat): nat { b * st.b + hkv * st.h + row * st.s }

  /** Every element the kernel touches lies inside its tensor. */
  ghost predicate Readable(p: DecodeFwdParams) {
    && 0 < p.numSplits && 0 < p.numKvHeads <= p.numHeads
    && p.headDim % WARP_SIZE == 0
    && (p.seqLens.Some? ==> |p.seqLens.value| == p.batch)
    && (forall b, h :: 0 <= b < p.batch && 0 <= h < p.numHeads ==> QStart(p, b, h) + p.headDim <= |p.q|)
    && (forall b, j :: 0 <= b < p.batch && 0 <= j < SeqLen(p, b) ==> TableReadable(p, b, j))
    && (forall b, h, j :: 0 <= b < p.batch && 0 <= h < p.numHeads && 0 <= j < SeqLen(p, b) ==> RowReadable(p, b, h, j))
  }

  ghost predicate RowReadable(p: DecodeFwdParams, b: nat, h: nat, j: nat)
    requires TableReadable(p, b, j) && 0 < p.numKvHeads <= p.numHeads
  {
    var row := TokenRow(p, b, j);
    row >= 0 ==>
      && RowStart(p.kStride, b, KvHead(p, h), row) + p.headDim <= |p.k|
      && RowStart(p.vStride, b, KvHead(p, h), row) + p.headDim <= |p.v|
  }

  /** Sum of x[i] * y[i] over lo <= i < hi. */
  function Dot(x: seq<real>, y: seq<real>, lo: nat, hi: nat): real
    requires lo <= hi <= |x| && hi <= |y|
  {
    if lo == hi then 0.0 else Dot(x, y, lo, hi - 1) + x[hi - 1] * y[hi - 1]
  }

  function Slice(s: seq<real>, start: nat, n: nat): (r: seq<real>)
    requires start + n <= |s|
    ensures |r| == n
  {
    s[start..start + n]
  }

  /** Token j as query head h of batch entry b sees it. */
  function TokenAt(p: DecodeFwdParams, b: nat, h: nat, j: nat): (t: Token)
    requires 0 < p.numKvHeads <= p.numHeads && QStart(p, b, h) + p.headDim <= |p.q|
    requires TableReadable(p, b, j) && RowReadable(p, b, h, j) && TokenRow(p, b, j) >= 0
    ensures |t.value| == p.headDim
  {
    var row := TokenRow(p, b, j);
    var q := Slice(p.q, QStart(p, b, h), p.headDim);
    var k := Slice(p.k, RowStart(p.kStride, b, KvHead(p, h), row), p.headDim);
    Token(Dot(q, k, 0, p.headDim) * p.scale, Slice(p.v, RowStart(p.vStride, b, KvHead(p, h), row), p.headDim))
  }

  /** Query head h of group hkv scores its own query row against KV head hkv of row `row`,
      times the scale, and takes that head of the value row. */
  lemma TokenAtIs(p: DecodeFwdParams, b: nat, h: nat, hkv: nat, j: nat)
    requires InGroup(p.numHeads, p.numKvHeads, h, hkv)
    requires 0 < p.numKvHeads <= p.numHeads && QStart(p, b, h) + p.headDim <= |p.q|
    requires TableReadable(p, b, j) && RowReadable(p, b, h, j) && TokenRow(p, b, j) >= 0
    ensures var row, d := TokenRow(p, b, j), p.headDim;
            var qs := b * p.qStride.b + h * p.qStride.h;
            var ks := b * p.kStride.b + hkv * p.kStride.h + row * p.kStride.s;
            var vs := b * p.vStride.b + hkv * p.vStride.h + row * p.vStride.s;
            && qs + d <= |p.q| && ks + d <= |p.k| && vs + d <= |p.v|
            && TokenAt(p, b, h, j)
               == Token(Dot(p.q[qs..qs + d], p.k[ks..ks + d], 0, d) * p.scale, p.v[vs..vs + d])
  {
    KvHeadOfGroup(p, h, hkv);
    hide Dot, KvHead;
  }

  /** The mapped tokens among positions lo <= j < hi, in order. */
  function Visible(p: DecodeFwdParams, b: nat, h: nat, lo: nat, hi: nat): (ts: seq<Token>)
    requires Readable(p) && b < p.batch && h < p.numHeads && hi <= SeqLen(p, b)
    ensures WellShaped(ts, p.headDim)
    decreases hi
  {
    if hi <= lo then []
    else
      var before := Visible(p, b, h, lo, hi - 1);
      assert RowReadable(p, b, h, hi - 1);
      if TokenRow(p, b, hi - 1) < 0 then before else before + [TokenAt(p, b, h, hi - 1)]
  }

  lemma NoneVisible(p: DecodeFwdParams, b: nat, h: nat, lo: nat, hi: nat)
    requires Readable(p) && b < p.batch && h < p.numHeads && hi <= SeqLen(p, b) && hi <= lo
    ensures Visible(p, b, h, lo, hi) == []
  {
  }

  lemma VisibleStep(p: DecodeFwdParams, b: nat, h: nat, lo: nat, j: nat)
    requires Readable(p) && b < p.batch && h < p.numHeads && lo <= j < SeqLen(p, b)
    ensures TableReadable(p, b, j) && RowReadable(p, b, h, j) && QStart(p, b, h) + p.headDim <= |p.q|
    ensures Visible(p, b, h, lo, j + 1)
         == Visible(p, b, h, lo, j) + if TokenRow(p, b, j) < 0 then [] else [TokenAt(p, b, h, j)]
  {
    assert RowReadable(p, b, h, j);
    assert Visible(p, b, h, lo, j) + [] == Visible(p, b, h, lo, j);
  }

  lemma {:induction false} VisibleSplits(p: DecodeFwdParams, b: nat, h: nat, lo: nat, mid: nat, hi: nat)
    requires Readable(p) && b < p.batch && h < p.numHeads && lo <= mid <= hi <= SeqLen(p, b)
    ensures Visible(p, b, h, lo, hi) == Visible(p, b, h, lo, mid) + Visible(p, b, h, mid, hi)
  {
    if mid < hi {
      VisibleSplits(p, b, h, lo, mid, hi - 1);
    }
  }

  /** The tokens of one split. */
  function SplitTokens(p: DecodeFwdParams, b: nat, h: nat, s: nat): (ts: seq<Token>)
    requires Readable(p) && b < p.batch && h < p.numHeads && s < p.numSplits
    ensures WellShaped(ts, p.headDim)
  {
    SplitEndBelow(SeqLen(p, b), p.numSplits, s);
    Visible(p, b, h, SplitBegin(SeqLen(p, b), p.numSplits, s), SplitEnd(SeqLen(p, b), p.numSplits, s))
  }

  lemma SplitEndBelow(seqLen: nat, numSplits: nat, s: nat)
    requires s < numSplits
    ensures SplitEnd(seqLen, numSplits, s) <= seqLen
  {
  }

  /** The token lists of the first n splits. */
  function SplitLists(p: DecodeFwdParams, b: nat, h: nat, n: nat): (tss: seq<seq<Token>>)
    requires Readable(p) && b < p.batch && h < p.numHeads && n <= p.numSplits
    ensures |tss| == n
    ensures forall s :: 0 <= s < n ==> tss[s] == SplitTokens(p, b, h, s) && WellShaped(tss[s], p.headDim)
  {
    seq(n, s requires 0 <= s < n => SplitTokens(p, b, h, s))
  }

  /** The first n splits see the tokens below where split n would start. */
  lemma {:induction false} SplitsArePrefix(p: DecodeFwdParams, b: nat, h: nat, n: nat)
    requires Readable(p) && b < p.batch && h < p.numHeads && n <= p.numSplits
    ensures var len := SeqLen(p, b);
            var stop := SplitBegin(len, p.numSplits, n);
            Flatten(SplitLists(p, b, h, n)) == Visible(p, b, h, 0, if stop < len then stop else len)
  {
    if n > 0 {
      var len := SeqLen(p, b);
      SplitsArePrefix(p, b, h, n - 1);
      SplitsMeet(len, p.numSplits, n - 1);
      var begin, end := SplitBegin(len, p.numSplits, n - 1), SplitEnd(len, p.numSplits, n - 1);
      assert n * Chunk(len, p.numSplits) == begin + Chunk(len, p.numSplits);
      assert SplitLists(p, b, h, n)[..n - 1] == SplitLists(p, b, h, n - 1);
      if begin < len {
        VisibleSplits(p, b, h, 0, begin, end);
      }
    }
  }

  /** All splits together see every visible token once, in order, whatever the
      number of splits. */
  lemma SplitsCoverAll(p: DecodeFwdParams, b: nat, h: nat)
    requires Readable(p) && b < p.batch && h < p.numHeads
    ensures Flatten(SplitLists(p, b, h, p.numSplits)) == Visible(p, b, h, 0, SeqLen(p, b))
  {
    var len := SeqLen(p, b);
    SplitsArePrefix(p, b, h, p.numSplits);
    CeilDivIs(len, p.numSplits);
    assert SplitBegin(len, p.numSplits, p.numSplits) == Chunk(len, p.numSplits) * p.numSplits;
  }

  /** The partial state the kernel leaves for split s of (b, h). */
  function SplitPartial(e: real -> real, p: DecodeFwdParams, b: nat, h: nat, s: nat): (r: Partial)
    requires Readable(p) && b < p.batch && h < p.numHeads && s < p.numSplits
    ensures |r.o| == p.headDim
  {
    OnlineFold(e, SplitTokens(p, b, h, s), p.headDim)
  }

  function SplitPartials(e: real -> real, p: DecodeFwdParams, b: nat, h: nat): (ps: seq<Partial>)
    requires Readable(p) && b < p.batch && h < p.numHeads
    ensures |ps| == p.numSplits
    ensures forall s :: 0 <= s < p.numSplits ==> ps[s] == SplitPartial(e, p, b, h, s) && |ps[s].o| == p.headDim
  {
    seq(p.numSplits, s requires 0 <= s < p.numSplits => SplitPartial(e, p, b, h, s))
  }

  /** Split-K decode is two-pass softmax over all visible tokens: the number of
      splits does not appear on the right. */
  lemma SplitKIsExact(e: real -> real, p: DecodeFwdParams, b: nat, h: nat)
    requires IsExp(e) && Readable(p) && b < p.batch && h < p.numHeads
    ensures Normalise(MergeAll(e, SplitPartials(e, p, b, h), p.headDim))
         == Attention(e, Visible(p, b, h, 0, SeqLen(p, b)), p.headDim)
  {
    hide OnlineFold, MergeAll, Normalise, Attention;
    var ps, tss := SplitPartials(e, p, b, h), SplitLists(p, b, h, p.numSplits);
    forall s | 0 <= s < p.numSplits ensures Represents(e, ps[s], tss[s], p.headDim) {
      FoldRepresents(e, tss[s], p.headDim);
    }
    SplitsCoverAll(p, b, h);
    MergeAllRepresents(e, ps, tss, p.headDim);
    NormaliseIsAttention(e, MergeAll(e, ps, p.headDim), Visible(p, b, h, 0, SeqLen(p, b)), p.headDim);
  }

  lemma TokenIgnoresSplits(p: DecodeFwdParams, n: nat, b: nat, h: nat, j: nat)
    requires Readable(p) && Readable(p.(numSplits := n)) && b < p.batch && h < p.numHeads && j < SeqLen(p, b)
    ensures var p' := p.(numSplits := n);
            && TableReadable(p, b, j) && TableReadable(p', b, j) && TokenRow(p', b, j) == TokenRow(p, b, j)
            && RowReadable(p, b, h, j) && RowReadable(p', b, h, j)
            && (TokenRow(p, b, j) >= 0 ==> TokenAt(p', b, h, j) == TokenAt(p, b, h, j))
  {
    hide Dot;
    var p' := p.(numSplits := n);
    assert TableReadable(p, b, j) && TableReadable(p', b, j);
    assert RowReadable(p, b, h, j) && RowReadable(p', b, h, j);
  }

  lemma {:induction false} VisibleIgnoresSplits(p: DecodeFwdParams, n: nat, b: nat, h: nat, lo: nat, hi: nat)
    requires Readable(p) && Readable(p.(numSplits := n)) && b < p.batch && h < p.numHeads && hi <= SeqLen(p, b)
    ensures Visible(p.(numSplits := n), b, h, lo, hi) == Visible(p, b, h, lo, hi)
  {
    hide Readable, RowReadable, TableReadable, TokenAt, TokenRow, QStart;
    if lo < hi {
      VisibleIgnoresSplits(p, n, b, h, lo, hi - 1);
      TokenIgnoresSplits(p, n, b, h, hi - 1);
    }
  }

  lemma ReadableIgnoresSplits(p: DecodeFwdParams, n: nat)
    requires Readable(p) && n > 0
    ensures Readable(p.(numSplits := n))
  {
    var p' := p.(numSplits := n);
    forall b, h | 0 <= b < p'.batch && 0 <= h < p'.numHeads ensures QStart(p', b, h) + p'.headDim <= |p'.q| {
      assert QStart(p', b, h) == QStart(p, b, h);
    }
    forall b, j | 0 <= b < p'.batch && 0 <= j < SeqLen(p', b) ensures TableReadable(p', b, j) {
      assert TableReadable(p, b, j);
    }
    forall b, h, j | 0 <= b < p'.batch && 0 <= h < p'.numHeads && 0 <= j < SeqLen(p', b)
      ensures RowReadable(p', b, h, j)
    {
      assert RowReadable(p, b, h, j);
    }
  }

  /** Launching with any other number of splits gives the same output. */
  lemma SplitCountIrrelevant(e: real -> real, p: DecodeFwdParams, n: nat, b: nat, h: nat)
    requires IsExp(e) && Readable(p) && n > 0 && b < p.batch && h < p.numHeads
    ensures Readable(p.(numSplits := n))
    ensures Normalise(MergeAll(e, SplitPartials(e, p.(numSplits := n), b, h), p.headDim))
         == Normalise(MergeAll(e, SplitPartials(e, p, b, h), p.headDim))
  {
    ReadableIgnoresSplits(p, n);
    VisibleIgnoresSplits(p, n, b, h, 0, SeqLen(p, b));
    hide Readable, Visible, MergeAll, Normalise, Attention, SplitPartials;
    SplitKIsExact(e, p, b, h);
    SplitKIsExact(e, p.(numSplits := n), b, h);
  }
}
