/** The naive kernels for one query row: scores with the mask, the block-wide row softmax
    in place, and the weighted sum of the values. */
module NaiveAttention {
  import opened Arith
  import opened Softmax
  import opened Reductions
  import opened FlashTiles

  /** A float cell: a number, -inf, or not a number. */
  datatype Cell = NaN | Of(v: Ext)

  function Product(x: real, y: real): real { x * y }

  /** Multiplication by a finite factor k >= 0: -inf times zero is not a number. */
  function Times(c: Cell, k: real): Cell
    requires k >= 0.0
  {
    if c.NaN? || (c.v.NegInf? && k == 0.0) then NaN
    else if c.v.NegInf? then c
    else Of(Fin(Product(c.v.r, k)))
  }

  /** acc + p * x, for a number x; only finite cells occur besides NaN. */
  function MulAdd(acc: Cell, p: Cell, x: real): Cell {
    if acc.Of? && acc.v.Fin? && p.Of? && p.v.Fin? then Of(Fin(acc.v.r + Product(p.v.r, x))) else NaN
  }

  // ---------------------------------------------------------------------------
  // The row softmax
  // ---------------------------------------------------------------------------

  /** exp(s - m), zero for a masked score. */
  function Probability(e: real -> real, s: Ext, m: real): real
    requires s.Fin? ==> s.r <= m
  {
    if s.NegInf? then 0.0 else FastExp(e, s.r - m)
  }

  ghost predicate Bounded(v: seq<Ext>, m: real) {
    forall i :: 0 <= i < |v| && v[i].Fin? ==> v[i].r <= m
  }

  function Probabilities(e: real -> real, v: seq<Ext>, m: real): (ps: seq<real>)
    requires Bounded(v, m)
    ensures |ps| == |v|
    ensures forall i :: 0 <= i < |v| ==> ps[i] == Probability(e, v[i], m)
  {
    seq(|v|, i requires 0 <= i < |v| => Probability(e, v[i], m))
  }

  /** Between two elements of a class there is no third. */
  lemma NextOfClass(c: nat, x: nat, threads: nat)
    requires threads > 0 && c < x < c + threads
    ensures x % threads != c % threads
    ensures (c + threads) % threads == c % threads
  {
    var q, r := c / threads, c % threads;
    DivModOf(c, threads);
    DivModIs(c + threads, threads, q + 1, r);
    if x % threads == r {
      DivModOf(x, threads);
      var p := x / threads;
      if p <= q {
        MulMono(p, q, threads);
      } else {
        MulMono(q + 1, p, threads);
      }
      assert false;
    }
  }

  lemma ClassMoves(c: nat, threads: nat)
    requires threads > 0
    ensures (c + threads) % threads == c % threads
    ensures forall x :: c < x < c + threads ==> x % threads != c % threads
  {
    DivModOf(c, threads);
    DivModIs(c + threads, threads, c / threads + 1, c % threads);
    forall x | c < x < c + threads ensures x % threads != c % threads {
      NextOfClass(c, x, threads);
    }
  }

  /** Thread t's maximum over its columns t, t + threads, ... */
  method ThreadMax(data: array<Cell>, ghost v: seq<Ext>, t: nat, threads: nat) returns (m: Ext)
    requires t < threads && |v| == data.Length
    requires forall c :: 0 <= c < data.Length ==> data[c] == Of(v[c])
    ensures m == StrideFold(Max, NegInf, v, t, threads)
  {
    MaxIsMonoid();
    m := NegInf;
    var c := t;
    while c < data.Length
      invariant StrideFold(Max, NegInf, v, t, threads) == Max(m, StrideFold(Max, NegInf, v, c, threads))
      decreases data.Length - c
    {
      assert Assoc(Max, m, v[c], StrideFold(Max, NegInf, v, c + threads, threads));
      m := Max(m, data[c].v);
      c := c + threads;
    }
  }

  /** Thread t replaces its scores by exp(s - m) and sums them. */
  method ThreadExp(e: real -> real, data: array<Cell>, ghost v: seq<Ext>, m: real, t: nat, threads: nat)
    returns (sum: real)
    requires t < threads && |v| == data.Length && Bounded(v, m)
    requires forall c :: 0 <= c < data.Length && c % threads == t ==> data[c] == Of(v[c])
    modifies data
    ensures sum == StrideFold(Add, 0.0, Probabilities(e, v, m), t, threads)
    ensures forall c :: 0 <= c < data.Length ==>
              data[c] == if c % threads == t then Of(Fin(Probability(e, v[c], m))) else old(data[c])
  {
    hide Probability, Probabilities;
    ghost var ps := Probabilities(e, v, m);
    sum := 0.0;
    var c := t;
    while c < data.Length
      invariant t <= c && c % threads == t
      invariant StrideFold(Add, 0.0, ps, t, threads) == sum + StrideFold(Add, 0.0, ps, c, threads)
      invariant forall x :: 0 <= x < data.Length ==>
                  data[x] == if x % threads == t && x < c then Of(Fin(Probability(e, v[x], m))) else old(data[x])
      decreases data.Length - c
    {
      var p := Probability(e, data[c].v, m);
      data[c] := Of(Fin(p));
      sum := sum + p;
      ClassMoves(c, threads);
      c := c + threads;
    }
  }

  /** Thread t multiplies its cells by the common factor. */
  method ThreadScale(data: array<Cell>, inv: real, t: nat, threads: nat)
    requires t < threads && inv >= 0.0
    modifies data
    ensures forall c :: 0 <= c < data.Length ==>
              data[c] == if c % threads == t then Times(old(data[c]), inv) else old(data[c])
  {
    var c := t;
    while c < data.Length
      invariant t <= c && c % threads == t
      invariant forall x :: 0 <= x < data.Length ==>
                  data[x] == if x % threads == t && x < c then Times(old(data[x]), inv) else old(data[x])
      decreases data.Length - c
    {
      data[c] := Times(data[c], inv);
      ClassMoves(c, threads);
      c := c + threads;
    }
  }

  // ---------------------------------------------------------------------------
  // The reductions against the token list
  // ---------------------------------------------------------------------------

  lemma {:induction false} FoldMaxIsMaxExt(v: seq<Ext>)
    ensures FoldAll(Max, NegInf, v) == MaxExt(v)
  {
    MaxIsMonoid();
    if v != [] {
      var n := |v| - 1;
      FoldMaxIsMaxExt(v[..n]);
      FoldAppend(Max, NegInf, v[..n], [v[n]]);
      assert v[..n] + [v[n]] == v;
      assert StrideFold(Max, NegInf, [v[n]], 1, 1) == NegInf;
    }
  }

  /** The block maximum is the largest visible score. */
  lemma BlockMaxIsMaxScore(r: RowProblem, v: seq<Ext>)
    requires |r.scores| == |r.values| == |v| && IsFragment(r, 0, v)
    ensures FoldAll(Max, NegInf, v) == MaxScore(SeenTokens(r, |v|))
    ensures MaxScore(SeenTokens(r, |v|)).Fin? ==> Bounded(v, MaxScore(SeenTokens(r, |v|)).r)
    ensures MaxScore(SeenTokens(r, |v|)).NegInf? ==> forall c :: 0 <= c < |v| ==> v[c] == NegInf
  {
    hide SeenTokens, MaxScore, FoldAll, IsFragment;
    FoldMaxIsMaxExt(v);
    FragmentMax(r, 0, v, |v|);
    assert v[..|v|] == v && SeenTokens(r, 0) == [] by { NoneSeen(r); }
    MaxCovers(NegInf, v);
    MaxOfNone();
  }

  lemma NoneSeen(r: RowProblem)
    requires |r.scores| == |r.values|
    ensures SeenTokens(r, 0) == []
  {
  }

  lemma NoValue(e: real -> real, m: real, inv: real, d: nat)
    ensures ProbValue(e, [], m, inv, d) == 0.0
  {
  }

  lemma MaxOfNone()
    ensures MaxScore([]) == NegInf
  {
  }

  /** The block sum is the softmax denominator over the visible tokens. */
  lemma {:induction false} BlockSumIsWeight(e: real -> real, r: RowProblem, v: seq<Ext>, m: real, n: nat)
    requires |r.scores| == |r.values| == |v| && IsFragment(r, 0, v) && Bounded(v, m) && n <= |v|
    ensures FoldAll(Add, 0.0, Probabilities(e, v, m)[..n]) == Weight(e, SeenTokens(r, n), m)
  {
    hide FoldAll, IsFragment, Weight, SeenTokens, Sees, Bounded;
    AddIsMonoid();
    hide Monoid;
    var ps := Probabilities(e, v, m);
    if n == 0 {
      NoSum(e, r, ps, m);
    } else {
      BlockSumIsWeight(e, r, v, m, n - 1);
      assert ps[..n] == ps[..n - 1] + [ps[n - 1]];
      FoldAppend(Add, 0.0, ps[..n - 1], [ps[n - 1]]);
      OneValue(Add, 0.0, ps[n - 1]);
      FragmentAt(r, 0, v, n - 1);
      SeenNext(r, 0, n - 1);
      if Sees(r, n - 1) {
        WeightAppendOne(e, SeenTokens(r, n - 1), Token(r.scores[n - 1], r.values[n - 1]), m);
      }
    }
  }

  lemma NoSum(e: real -> real, r: RowProblem, ps: seq<real>, m: real)
    requires |r.scores| == |r.values|
    ensures FoldAll(Add, 0.0, ps[..0]) == 0.0 == Weight(e, SeenTokens(r, 0), m)
  {
  }

  lemma WeightAppendOne(e: real -> real, ts: seq<Token>, t: Token, m: real)
    ensures Weight(e, ts + [t], m) == Weight(e, ts, m) + e(t.score - m)
  {
    assert (ts + [t])[..|ts + [t]| - 1] == ts;
  }

  // ---------------------------------------------------------------------------
  // The kernels for one row
  // ---------------------------------------------------------------------------

  /** Cell c of a finished probability row. */
  ghost predicate Normalised(e: real -> real, data: seq<Cell>, v: seq<Ext>, m: real, inv: real)
    requires Bounded(v, m)
  {
    |data| == |v| && forall c :: 0 <= c < |v| ==> data[c] == Of(Fin(Product(Probability(e, v[c], m), inv)))
  }

  /** naive_row_softmax_kernel for one row by a block of numWarps full warps. */
  method RowSoftmax(e: real -> real, data: array<Cell>, ghost v: seq<Ext>, numWarps: nat, ghost r: RowProblem)
    requires IsExp(e) && 1 <= numWarps <= WARP_SIZE
    requires |r.scores| == |r.values| == |v| == data.Length && IsFragment(r, 0, v)
    requires forall c :: 0 <= c < data.Length ==> data[c] == Of(v[c])
    modifies data
    ensures SoftmaxDone(e, data[..], v, SeenTokens(r, |v|))
  {
    hide IsFragment, IsExp, Weight, SeenTokens, Probability, FoldAll, MaxScore, Product;
    BlockMaxIsMaxScore(r, v);
    EmptyMax(SeenTokens(r, |v|));
    var m := BlockMax(data, v, numWarps);
    if m.NegInf? {
      ScaleAll(data, 0.0, numWarps);
    } else {
      var sum := ExpAndSum(e, data, v, m.r, numWarps);
      BlockSumIsWeight(e, r, v, m.r, |v|);
      assert Probabilities(e, v, m.r)[..|v|] == Probabilities(e, v, m.r);
      WeightPositive(e, SeenTokens(r, |v|), m.r);
      ScaleAll(data, 1.0 / sum, numWarps);
    }
  }

  lemma EmptyMax(ts: seq<Token>)
    ensures MaxScore(ts).NegInf? <==> ts == []
  {
  }

  /** The first pass: all threads learn the row maximum. */
  method BlockMax(data: array<Cell>, ghost v: seq<Ext>, numWarps: nat) returns (m: Ext)
    requires 1 <= numWarps <= WARP_SIZE && |v| == data.Length
    requires forall c :: 0 <= c < data.Length ==> data[c] == Of(v[c])
    ensures m == FoldAll(Max, NegInf, v)
  {
    hide FoldAll, Monoid;
    var threads := numWarps * WARP_SIZE;
    var locals := new Ext[threads](i => NegInf);
    var scratch := new Ext[WARP_SIZE](i => NegInf);
    for t := 0 to threads
      invariant forall u :: 0 <= u < t ==> locals[u] == StrideFold(Max, NegInf, v, u, threads)
    {
      locals[t] := ThreadMax(data, v, t, threads);
    }
    assert locals[..] == StridedFolds(Max, NegInf, v, threads);
    MaxIsMonoid();
    ThreadsCombine(Max, NegInf, v, threads);
    BlockReduceMax(locals, scratch, numWarps);
    m := locals[0];
  }

  /** The last pass: every cell is multiplied by inv. */
  method ScaleAll(data: array<Cell>, inv: real, numWarps: nat)
    requires 1 <= numWarps <= WARP_SIZE && inv >= 0.0
    modifies data
    ensures forall c :: 0 <= c < data.Length ==> data[c] == Times(old(data[c]), inv)
  {
    hide Times;
    var threads := numWarps * WARP_SIZE;
    ghost var before := data[..];
    for t := 0 to threads
      invariant forall c :: 0 <= c < data.Length ==>
                  data[c] == if c % threads < t then Times(before[c], inv) else before[c]
    {
      ThreadScale(data, inv, t, threads);
    }
  }

  /** The second pass: every score becomes exp(s - m), and all threads learn the sum. */
  method ExpAndSum(e: real -> real, data: array<Cell>, ghost v: seq<Ext>, m: real, numWarps: nat) returns (sum: real)
    requires 1 <= numWarps <= WARP_SIZE && |v| == data.Length && Bounded(v, m)
    requires forall c :: 0 <= c < data.Length ==> data[c] == Of(v[c])
    modifies data
    ensures sum == FoldAll(Add, 0.0, Probabilities(e, v, m))
    ensures forall c :: 0 <= c < data.Length ==> data[c] == Of(Fin(Probability(e, v[c], m)))
  {
    hide Probability, FoldAll, Monoid;
    var threads := numWarps * WARP_SIZE;
    var locals := new real[threads](i => 0.0);
    var scratch := new real[WARP_SIZE](i => 0.0);
    ghost var ps := Probabilities(e, v, m);
    for t := 0 to threads
      invariant forall u :: 0 <= u < t ==> locals[u] == StrideFold(Add, 0.0, ps, u, threads)
      invariant forall c :: 0 <= c < data.Length ==>
                  data[c] == if c % threads < t then Of(Fin(Probability(e, v[c], m))) else Of(v[c])
    {
      locals[t] := ThreadExp(e, data, v, m, t, threads);
    }
    assert locals[..] == StridedFolds(Add, 0.0, ps, threads);
    AddIsMonoid();
    ThreadsCombine(Add, 0.0, ps, threads);
    BlockReduceSum(locals, scratch, numWarps);
    sum := locals[0];
  }

  /** One more key in the weighted sum: a masked key adds nothing. */
  lemma PvStep(e: real -> real, r: RowProblem, v: seq<Ext>, j: nat, m: real, inv: real, dim: nat, d: nat)
    requires Shaped(r, dim) && |v| == |r.scores| && IsFragment(r, 0, v) && Bounded(v, m) && j < |v| && d < dim
    ensures WellShaped(SeenTokens(r, j + 1), dim) && WellShaped(SeenTokens(r, j), dim)
    ensures ProbValue(e, SeenTokens(r, j + 1), m, inv, d)
         == ProbValue(e, SeenTokens(r, j), m, inv, d) + Product(Product(Probability(e, v[j], m), inv), r.values[j][d])
  {
    hide IsFragment, SeenTokens, ProbValue, Product, Sees;
    SeenShaped(r, j, dim);
    SeenShaped(r, j + 1, dim);
    FragmentAt(r, 0, v, j);
    SeenNext(r, 0, j);
    if Sees(r, j) {
      ProbSnoc(e, SeenTokens(r, j), Token(r.scores[j], r.values[j]), m, inv, d);
    } else {
      NoProduct(inv, r.values[j][d]);
    }
  }

  lemma ProbSnoc(e: real -> real, ts: seq<Token>, t: Token, m: real, inv: real, d: nat)
    requires forall i :: 0 <= i < |ts| ==> d < |ts[i].value|
    requires d < |t.value|
    ensures ProbValue(e, ts + [t], m, inv, d)
            == ProbValue(e, ts, m, inv, d) + Product(Product(e(t.score - m), inv), t.value[d])
  {
    assert (ts + [t])[..|ts + [t]| - 1] == ts;
  }

  lemma NoProduct(inv: real, x: real)
    ensures Product(Product(0.0, inv), x) == 0.0
  {
  }

  /** The row after the softmax kernel: probabilities, or NaN in every cell when no column
      is visible. */
  ghost predicate SoftmaxDone(e: real -> real, data: seq<Cell>, v: seq<Ext>, ts: seq<Token>)
    requires IsExp(e)
  {
    if ts == [] then |data| == |v| && forall c :: 0 <= c < |data| ==> data[c] == NaN
    else
      WeightPositive(e, ts, MaxScore(ts).r);
      && Bounded(v, MaxScore(ts).r)
      && Normalised(e, data, v, MaxScore(ts).r, 1.0 / Weight(e, ts, MaxScore(ts).r))
  }

  /** Coordinate d of naive_pv_kernel: all keys are added, masked ones too. */
  method WeightedSum(e: real -> real, data: array<Cell>, ghost v: seq<Ext>, r: RowProblem, dim: nat, d: nat)
    returns (acc: Cell)
    requires IsExp(e) && Shaped(r, dim) && |v| == |r.scores| == data.Length && IsFragment(r, 0, v) && d < dim
    requires SoftmaxDone(e, data[..], v, SeenTokens(r, |v|))
    ensures WellShaped(SeenTokens(r, |v|), dim)
    ensures acc == if SeenTokens(r, |v|) == [] && |v| > 0 then NaN
                   else Of(Fin(Attention(e, SeenTokens(r, |v|), dim)[d]))
  {
    hide IsFragment, IsExp, Weight, MaxScore, ProbValue, SeenTokens, Probability, Product;
    NoneSeen(r);
    ghost var ts := SeenTokens(r, |v|);
    SeenShaped(r, |v|, dim);
    WeightPositive(e, ts, if ts == [] then 0.0 else MaxScore(ts).r);
    ghost var m := if ts == [] then 0.0 else MaxScore(ts).r;
    ghost var inv := if ts == [] then 0.0 else 1.0 / Weight(e, ts, m);
    NoValue(e, m, inv, d);
    acc := Of(Fin(0.0));
    for j := 0 to data.Length
      invariant WellShaped(SeenTokens(r, j), dim)
      invariant ts == [] ==> acc == if j == 0 then Of(Fin(0.0)) else NaN
      invariant ts != [] ==> acc == Of(Fin(ProbValue(e, SeenTokens(r, j), m, inv, d)))
    {
      SeenShaped(r, j + 1, dim);
      if ts != [] {
        PvStep(e, r, v, j, m, inv, dim, d);
        assert data[..][j] == Of(Fin(Product(Probability(e, v[j], m), inv)));
      }
      assert data[..][j] == data[j];
      acc := MulAdd(acc, data[j], r.values[j][d]);
    }
  }

  /** naive_qk_scale_mask_kernel for one row: the score, or -inf above the diagonal. */
  method MaskedScores(r: RowProblem) returns (data: array<Cell>, ghost v: seq<Ext>)
    requires |r.scores| == |r.values|
    ensures fresh(data) && |v| == data.Length == |r.scores| && IsFragment(r, 0, v)
    ensures forall c :: 0 <= c < data.Length ==> data[c] == Of(v[c])
    ensures forall c {:trigger data[c]} :: 0 <= c < data.Length ==>
              data[c] == Of(if !r.causal || c <= r.row + r.diagonal then Fin(r.scores[c]) else NegInf)
  {
    data := new Cell[|r.scores|](i => NaN);
    v := [];
    for j := 0 to |r.scores|
      invariant |v| == j && IsFragment(r, 0, v)
      invariant forall c :: 0 <= c < j ==> data[c] == Of(v[c])
      invariant forall c {:trigger data[c]} :: 0 <= c < j ==>
                  data[c] == Of(if !r.causal || c <= r.row + r.diagonal then Fin(r.scores[c]) else NegInf)
    {
      var s := if r.causal && j > r.row + r.diagonal then NegInf else Fin(r.scores[j]);
      data[j] := Of(s);
      v := v + [s];
    }
  }

  /** The naive kernels for one row: masked two-pass softmax whenever some column is
      visible, and NaN in every coordinate when there are columns but none is visible. */
  method NaiveRow(e: real -> real, r: RowProblem, numWarps: nat, dim: nat) returns (out: seq<Cell>)
    requires IsExp(e) && Shaped(r, dim) && 1 <= numWarps <= WARP_SIZE
    ensures |out| == dim && WellShaped(FirstKeys(r, VisibleKeys(r)), dim)
    ensures forall d :: 0 <= d < dim ==>
              out[d] == if VisibleKeys(r) == 0 && |r.scores| > 0 then NaN
                        else Of(Fin(Attention(e, FirstKeys(r, VisibleKeys(r)), dim)[d]))
  {
    hide IsExp, IsFragment, SeenTokens, Attention, SoftmaxDone, VisibleKeys, FirstKeys;
    SeenShaped(r, |r.scores|, dim);
    var data, v := MaskedScores(r);
    RowSoftmax(e, data, v, numWarps, r);
    out := [];
    for d := 0 to dim
      invariant |out| == d
      invariant SoftmaxDone(e, data[..], v, SeenTokens(r, |v|))
      invariant forall x :: 0 <= x < d ==>
                  out[x] == if SeenTokens(r, |r.scores|) == [] && |r.scores| > 0 then NaN
                            else Of(Fin(Attention(e, SeenTokens(r, |r.scores|), dim)[x]))
    {
      var acc := WeightedSum(e, data, v, r, dim, d);
      out := out + [acc];
    }
    SeenAreFirst(r);
  }

  // ---------------------------------------------------------------------------
  // The softmax launch: one block per row, at most 2^24 blocks
  // ---------------------------------------------------------------------------

  const MAX_ROW_BLOCKS: nat := 0x100_0000

  function SoftmaxBlocks(rows: nat): (blocks: nat)
    ensures 1 <= blocks <= MAX_ROW_BLOCKS
  {
    var wanted := if rows < 1 then 1 else rows;
    if wanted < MAX_ROW_BLOCKS then wanted else MAX_ROW_BLOCKS
  }

  predicate HasBlock(rows: nat, row: nat) { row < SoftmaxBlocks(rows) }

  /** Scores of one row before the launch. */
  ghost predicate ScoresOf(r: RowProblem, row: array<Cell>, v: seq<Ext>)
    reads row
  {
    && |r.scores| == |r.values| == |v| == row.Length && IsFragment(r, 0, v)
    && forall c :: 0 <= c < row.Length ==> row[c] == Of(v[c])
  }

  /** The cells of row i after a launch over n rows: what the row softmax leaves when the row
      has a block, and its raw scores otherwise, because the kernel does not loop over rows. */
  ghost predicate RowLeft(e: real -> real, n: nat, i: nat, r: RowProblem, v: seq<Ext>, after: seq<Cell>)
    requires IsExp(e)
  {
    && |r.scores| == |r.values| == |v| == |after| && IsFragment(r, 0, v)
    && if HasBlock(n, i) then SoftmaxDone(e, after, v, SeenTokens(r, |v|))
       else forall c :: 0 <= c < |after| ==> after[c] == Of(v[c])
  }

  /** The launch over all rows. */
  method LaunchRowSoftmax(e: real -> real, rows: seq<array<Cell>>, ghost vs: seq<seq<Ext>>, ghost rs: seq<RowProblem>,
                          numWarps: nat)
    requires IsExp(e) && 1 <= numWarps <= WARP_SIZE && |rows| == |vs| == |rs|
    requires forall i, j :: 0 <= i < j < |rows| ==> rows[i] != rows[j]
    requires forall i :: 0 <= i < |rows| ==> ScoresOf(rs[i], rows[i], vs[i])
    modifies set row | row in rows
    ensures forall i :: 0 <= i < |rows| ==> RowLeft(e, |rows|, i, rs[i], vs[i], rows[i][..])
  {
    hide SoftmaxDone, IsExp, SeenTokens, IsFragment;
    for block := 0 to SoftmaxBlocks(|rows|)
      invariant forall i :: 0 <= i < |rows| && i < block ==> RowLeft(e, |rows|, i, rs[i], vs[i], rows[i][..])
      invariant forall i :: block <= i < |rows| ==> ScoresOf(rs[i], rows[i], vs[i])
    {
      if block < |rows| {
        assert ScoresOf(rs[block], rows[block], vs[block]);
        RowSoftmax(e, rows[block], vs[block], numWarps, rs[block]);
      }
    }
  }

  /** A launch over n rows leaves the softmax of every row's scores, whatever they are,
      exactly when n is at most the cap. */
  lemma EveryRowNormalisedExactly(e: real -> real, n: nat)
    requires IsExp(e)
    ensures (forall i: nat, r, v, after :: i < n && RowLeft(e, n, i, r, v, after) ==>
               SoftmaxDone(e, after, v, SeenTokens(r, |v|)))
       <==> n <= 0x100_0000
  {
    hide IsFragment, SoftmaxDone, SeenTokens, IsExp;
    if n > MAX_ROW_BLOCKS {
      ZeroScoreStays(e, n, MAX_ROW_BLOCKS);
    }
  }

  const ONE_ZERO_SCORE: RowProblem := RowProblem(0, 0, false, [0.0], [[]])

  /** A row without a block whose one score is zero: its probability should be 1 and is 0. */
  lemma ZeroScoreStays(e: real -> real, n: nat, i: nat)
    requires IsExp(e) && !HasBlock(n, i)
    ensures RowLeft(e, n, i, ONE_ZERO_SCORE, [Fin(0.0)], [Of(Fin(0.0))])
    ensures !SoftmaxDone(e, [Of(Fin(0.0))], [Fin(0.0)], SeenTokens(ONE_ZERO_SCORE, 1))
  {
    var r, v, t := ONE_ZERO_SCORE, [Fin(0.0)], Token(0.0, []);
    NoneSeen(r);
    SeenNext(r, 0, 0);
    assert SeenTokens(r, 1) == [t] && [t][..0] == [];
    assert MaxScore([t]) == Fin(0.0) && Weight(e, [t], 0.0) == 1.0;
    assert Product(Probability(e, v[0], 0.0), 1.0 / 1.0) == 1.0;
    assert [Of(Fin(0.0))][0] != Of(Fin(1.0));
  }

  // ---------------------------------------------------------------------------
  // When no row is lost
  // ---------------------------------------------------------------------------

  /** A row sees no column exactly when it is causal and lies above the diagonal. */
  lemma {:induction false} NothingSeenExactly(r: RowProblem, n: nat)
    requires |r.scores| == |r.values| && n <= |r.scores|
    ensures SeenTokens(r, n) == [] <==> n == 0 || (r.causal && r.row + r.diagonal < 0)
  {
    if n > 0 {
      NothingSeenExactly(r, n - 1);
    }
  }

  /** Query row i of a problem with bottom-right alignment. */
  function RowOf(i: nat, seqQ: nat, causal: bool, scores: seq<real>, values: seq<seq<real>>): RowProblem {
    RowProblem(i, |scores| - seqQ, causal, scores, values)
  }

  /** Every query row of a causal problem sees a key, so that the naive kernels yield
      numbers for all rows, exactly when there are at least as many keys as queries. */
  lemma AllRowsDefinedExactly(seqQ: nat, scores: seq<seq<real>>, values: seq<seq<real>>)
    requires seqQ > 0 && |scores| == seqQ && |values| > 0
    requires forall i :: 0 <= i < seqQ ==> |scores[i]| == |values|
    ensures (forall i :: 0 <= i < seqQ ==> SeenTokens(RowOf(i, seqQ, true, scores[i], values), |values|) != [])
       <==> |values| >= seqQ
  {
    hide SeenTokens;
    forall i | 0 <= i < seqQ
      ensures SeenTokens(RowOf(i, seqQ, true, scores[i], values), |values|) == [] <==> i + |values| < seqQ
    {
      NothingSeenExactly(RowOf(i, seqQ, true, scores[i], values), |values|);
    }
    if |values| < seqQ {
      assert SeenTokens(RowOf(0, seqQ, true, scores[0], values), |values|) == [];
    }
  }
}
