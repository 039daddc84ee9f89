/** The causal tile loop of the flash kernel for one query row: tiles are skipped or
    left unmasked by whole-tile tests, and each tile updates the online state at once. */
module FlashTiles {
  import opened Arith
  import opened Softmax
  import opened OnlineSoftmax
  import opened SplitMerge

  // ---------------------------------------------------------------------------
  // Mask predicates
  // ---------------------------------------------------------------------------

  predicate MaskElementVisible(row: int, col: int, diagonal: int) { col <= row + diagonal }

  predicate MaskTileFullyMasked(i0: int, blockM: int, jBase: int, diagonal: int) { jBase > i0 + blockM - 1 + diagonal }

  predicate MaskWarpFullyVisible(warpRow0: int, jBase: int, blockN: int, diagonal: int) {
    jBase + blockN - 1 <= warpRow0 + diagonal
  }

  /** A tile counts as fully masked exactly when none of its columns, nor any later one,
      is visible from any row of the CTA. */
  lemma FullyMaskedExact(i0: int, blockM: int, jBase: int, diagonal: int)
    requires blockM > 0
    ensures MaskTileFullyMasked(i0, blockM, jBase, diagonal)
       <==> forall row, col :: i0 <= row < i0 + blockM && col >= jBase ==> !MaskElementVisible(row, col, diagonal)
  {
    if !MaskTileFullyMasked(i0, blockM, jBase, diagonal) {
      assert MaskElementVisible(i0 + blockM - 1, jBase, diagonal);
    }
  }

  /** A tile counts as fully visible for a warp exactly when every column is visible from
      every row the warp handles. */
  lemma FullyVisibleExact(warpRow0: int, rows: int, jBase: int, blockN: int, diagonal: int)
    requires rows > 0 && blockN > 0
    ensures MaskWarpFullyVisible(warpRow0, jBase, blockN, diagonal)
       <==> forall row, col :: warpRow0 <= row < warpRow0 + rows && jBase <= col < jBase + blockN ==>
         MaskElementVisible(row, col, diagonal)
  {
    if !MaskWarpFullyVisible(warpRow0, jBase, blockN, diagonal) {
      assert !MaskElementVisible(warpRow0, jBase + blockN - 1, diagonal);
    }
  }

  // ---------------------------------------------------------------------------
  // One row of attention with the causal mask
  // ---------------------------------------------------------------------------

  /** Query row `row` of a causal or full attention with bottom-right alignment:
      scaled scores against all keys, and the value rows. */
  datatype RowProblem = RowProblem(row: nat, diagonal: int, causal: bool, scores: seq<real>, values: seq<seq<real>>)

  ghost predicate Shaped(r: RowProblem, dim: nat) {
    |r.scores| == |r.values| && forall j :: 0 <= j < |r.values| ==> |r.values[j]| == dim
  }

  predicate Sees(r: RowProblem, j: int)
    { 0 <= j < |r.scores| && (r.causal ==> MaskElementVisible(r.row, j, r.diagonal)) }

  /** The visible tokens among keys 0 .. n-1. */
  function SeenTokens(r: RowProblem, n: nat): (ts: seq<Token>)
    requires |r.scores| == |r.values| && n <= |r.scores|
  {
    if n == 0 then []
    else if Sees(r, n - 1) then SeenTokens(r, n - 1) + [Token(r.scores[n - 1], r.values[n - 1])]
    else SeenTokens(r, n - 1)
  }

  lemma {:induction false} SeenShaped(r: RowProblem, n: nat, dim: nat)
    requires Shaped(r, dim) && n <= |r.scores|
    ensures WellShaped(SeenTokens(r, n), dim)
  {
    if n > 0 {
      SeenShaped(r, n - 1, dim);
    }
  }

  /** How many keys the row may attend to: all of them, or those up to its diagonal. */
  function VisibleKeys(r: RowProblem): nat {
    if !r.causal then |r.scores|
    else if r.row + r.diagonal < 0 then 0
    else if r.row + r.diagonal + 1 < |r.scores| then r.row + r.diagonal + 1
    else |r.scores|
  }

  /** Keys 0 .. k-1 as tokens. */
  function FirstKeys(r: RowProblem, k: nat): (ts: seq<Token>)
    requires |r.scores| == |r.values| && k <= |r.scores|
    ensures |ts| == k
    ensures forall j :: 0 <= j < k ==> ts[j] == Token(r.scores[j], r.values[j])
  {
    seq(k, j requires 0 <= j < k => Token(r.scores[j], r.values[j]))
  }

  /** The visible ones of the first n keys are the keys up to the diagonal, all of them and
      in order. */
  lemma {:induction false} SeenIsPrefix(r: RowProblem, n: nat)
    requires |r.scores| == |r.values| && n <= |r.scores|
    ensures var last := r.row + r.diagonal;
            var k := if !r.causal then n else if last < 0 then 0 else if last + 1 < n then last + 1 else n;
            && |SeenTokens(r, n)| == k
            && forall j :: 0 <= j < k ==> SeenTokens(r, n)[j] == Token(r.scores[j], r.values[j])
  {
    if n > 0 {
      SeenIsPrefix(r, n - 1);
    }
  }

  lemma SeenAreFirst(r: RowProblem)
    requires |r.scores| == |r.values|
    ensures SeenTokens(r, |r.scores|) == FirstKeys(r, VisibleKeys(r))
    ensures SeenTokens(r, |r.scores|) == [] <==> VisibleKeys(r) == 0
  {
    SeenIsPrefix(r, |r.scores|);
  }

  /** Keys from n on that are all invisible add nothing. */
  lemma {:induction false} SeenStops(r: RowProblem, n: nat, m: nat)
    requires |r.scores| == |r.values| && n <= m <= |r.scores|
    requires forall j :: n <= j < m ==> !Sees(r, j)
    ensures SeenTokens(r, m) == SeenTokens(r, n)
  {
    if n < m {
      SeenStops(r, n, m - 1);
    }
  }

  // ---------------------------------------------------------------------------
  // One tile
  // ---------------------------------------------------------------------------

  /** A score fragment: -inf for every masked or out-of-range column. */
  ghost predicate IsFragment(r: RowProblem, jBase: nat, frag: seq<Ext>) {
    forall x {:trigger frag[x]} :: 0 <= x < |frag| ==>
      frag[x] == if Sees(r, jBase + x) then Fin(r.scores[jBase + x]) else NegInf
  }

  /** Coordinate d of key j's value row as loaded into a tile: zero past the last key. */
  function ValueAt(r: RowProblem, j: nat, d: nat): real
    requires forall i :: 0 <= i < |r.values| ==> d < |r.values[i]|
  {
    if j < |r.values| then r.values[j][d] else 0.0
  }

  /** One coordinate of the tile's value rows. */
  function Column(r: RowProblem, jBase: nat, n: nat, d: nat): (xs: seq<real>)
    requires forall j :: 0 <= j < |r.values| ==> d < |r.values[j]|
    ensures |xs| == n
    ensures forall x {:trigger xs[x]} :: 0 <= x < n ==> xs[x] == ValueAt(r, jBase + x, d)
  {
    seq(n, x requires 0 <= x < n => ValueAt(r, jBase + x, d))
  }

  function Ones(n: nat): (xs: seq<real>)
    ensures |xs| == n
    ensures forall x :: 0 <= x < n ==> xs[x] == 1.0
  {
    seq(n, x => 1.0)
  }

  function MaxExt(frag: seq<Ext>): (m: Ext)
    ensures forall i :: 0 <= i < |frag| && frag[i].Fin? ==> m.Fin? && frag[i].r <= m.r
  {
    if frag == [] then NegInf else Max(MaxExt(frag[..|frag| - 1]), frag[|frag| - 1])
  }

  lemma MaxCovers(m: Ext, frag: seq<Ext>)
    ensures forall i :: 0 <= i < |frag| && frag[i].Fin? ==>
              Max(m, MaxExt(frag)).Fin? && frag[i].r <= Max(m, MaxExt(frag)).r
  {
  }

  /** One accumulator after a tile: the old sum rescaled plus the tile's own sum. */
  function TileSum(e: real -> real, m: Ext, x: real, frag: seq<Ext>, xs: seq<real>, mNew: Ext): real
    requires |frag| == |xs| && (m.Fin? ==> mNew.Fin? && m.r <= mNew.r)
    requires forall i :: 0 <= i < |frag| && frag[i].Fin? ==> mNew.Fin? && frag[i].r <= mNew.r
  {
    Alpha(e, m, mNew) * x + RescaledTotal(e, frag, xs, mNew)
  }

  /** UpdateMax and UpdateProbabilities followed by O += P V, for one row. */
  function TileUpdate(e: real -> real, p: Partial, r: RowProblem, jBase: nat, frag: seq<Ext>): (p': Partial)
    requires Shaped(r, |p.o|)
    ensures |p'.o| == |p.o|
  {
    MaxCovers(p.m, frag);
    var mNew := Max(p.m, MaxExt(frag));
    Partial(mNew, TileSum(e, p.m, p.l, frag, Ones(|frag|), mNew),
            seq(|p.o|, d requires 0 <= d < |p.o| => TileSum(e, p.m, p.o[d], frag, Column(r, jBase, |frag|, d), mNew)))
  }

  /** The end of a tile that starts at jBase, cut off at the last key. */
  function TileEnd(r: RowProblem, jBase: nat, n: nat): (j: nat)
    requires jBase <= |r.scores|
    ensures jBase <= j <= |r.scores|
  {
    if jBase + n < |r.scores| then jBase + n else |r.scores|
  }

  /** One more column extends the visible tokens by at most that column. */
  lemma SeenNext(r: RowProblem, jBase: nat, n: nat)
    requires |r.scores| == |r.values| && jBase <= |r.scores|
    ensures Sees(r, jBase + n) ==> jBase + n < |r.scores|
    ensures Sees(r, jBase + n) ==>
              SeenTokens(r, TileEnd(r, jBase, n + 1))
              == SeenTokens(r, TileEnd(r, jBase, n)) + [Token(r.scores[jBase + n], r.values[jBase + n])]
    ensures !Sees(r, jBase + n) ==> SeenTokens(r, TileEnd(r, jBase, n + 1)) == SeenTokens(r, TileEnd(r, jBase, n))
  {
  }

  lemma FragmentAt(r: RowProblem, jBase: nat, frag: seq<Ext>, n: nat)
    requires |r.scores| == |r.values| && IsFragment(r, jBase, frag) && n < |frag|
    ensures Sees(r, jBase + n) ==> jBase + n < |r.scores| && frag[n] == Fin(r.scores[jBase + n])
    ensures !Sees(r, jBase + n) ==> frag[n] == NegInf
  {
  }

  lemma MaxExtSnoc(m: Ext, frag: seq<Ext>, n: nat)
    requires n < |frag|
    ensures Max(m, MaxExt(frag[..n + 1])) == Max(Max(m, MaxExt(frag[..n])), frag[n])
  {
    assert frag[..n + 1][..n] == frag[..n];
  }

  lemma MaxExtNone(m: Ext, frag: seq<Ext>)
    ensures Max(m, MaxExt(frag[..0])) == m
  {
  }

  /** The maximum of a fragment together with what was seen before it. */
  lemma {:induction false} FragmentMax(r: RowProblem, jBase: nat, frag: seq<Ext>, n: nat)
    requires |r.scores| == |r.values| && jBase <= |r.scores| && IsFragment(r, jBase, frag) && n <= |frag|
    ensures MaxScore(SeenTokens(r, TileEnd(r, jBase, n))) == Max(MaxScore(SeenTokens(r, jBase)), MaxExt(frag[..n]))
  {
    hide MaxScore, SeenTokens, MaxExt, IsFragment, Sees;
    if n == 0 {
      MaxExtNone(MaxScore(SeenTokens(r, jBase)), frag);
    } else {
      FragmentMax(r, jBase, frag, n - 1);
      FragmentAt(r, jBase, frag, n - 1);
      SeenNext(r, jBase, n - 1);
      MaxExtSnoc(MaxScore(SeenTokens(r, jBase)), frag, n - 1);
      var j := jBase + n - 1;
      if Sees(r, j) {
        MaxScoreSnoc(SeenTokens(r, TileEnd(r, jBase, n - 1)), Token(r.scores[j], r.values[j]));
      }
    }
  }

  function Term(e: real -> real, s: real, x: real): real { e(s) * x }

  lemma AbsoluteSnoc(e: real -> real, ms: seq<Ext>, xs: seq<real>, n: nat)
    requires n < |ms| == |xs|
    ensures AbsoluteTotal(e, ms[..n + 1], xs[..n + 1])
         == AbsoluteTotal(e, ms[..n], xs[..n]) + if ms[n].Fin? then Term(e, ms[n].r, xs[n]) else 0.0
  {
    assert ms[..n + 1][..n] == ms[..n] && xs[..n + 1][..n] == xs[..n];
  }

  lemma AbsoluteNone(e: real -> real, ms: seq<Ext>, xs: seq<real>)
    requires |ms| == |xs|
    ensures AbsoluteTotal(e, ms[..0], xs[..0]) == 0.0
  {
  }

  lemma TermOne(e: real -> real, s: real)
    ensures Term(e, s, 1.0) == e(s)
  {
  }

  /** Absolute sums of a fragment are the sums of the tokens it adds. */
  lemma {:induction false} FragmentWeight(e: real -> real, r: RowProblem, jBase: nat, frag: seq<Ext>, n: nat)
    requires |r.scores| == |r.values| && jBase <= |r.scores| && IsFragment(r, jBase, frag) && n <= |frag|
    ensures Weight(e, SeenTokens(r, TileEnd(r, jBase, n)), 0.0)
         == Weight(e, SeenTokens(r, jBase), 0.0) + AbsoluteTotal(e, frag[..n], Ones(|frag|)[..n])
  {
    hide Weight, SeenTokens, AbsoluteTotal, IsFragment, Sees, Ones, Term;
    if n == 0 {
      AbsoluteNone(e, frag, Ones(|frag|));
    } else {
      FragmentWeight(e, r, jBase, frag, n - 1);
      FragmentAt(r, jBase, frag, n - 1);
      SeenNext(r, jBase, n - 1);
      AbsoluteSnoc(e, frag, Ones(|frag|), n - 1);
      var j := jBase + n - 1;
      if Sees(r, j) {
        WeightSnoc(e, SeenTokens(r, TileEnd(r, jBase, n - 1)), Token(r.scores[j], r.values[j]));
        TermOne(e, r.scores[j]);
      }
    }
  }

  ghost predicate IsColumn(r: RowProblem, jBase: nat, xs: seq<real>, d: nat)
    requires forall j :: 0 <= j < |r.values| ==> d < |r.values[j]|
  {
    forall x {:trigger xs[x]} :: 0 <= x < |xs| ==> xs[x] == ValueAt(r, jBase + x, d)
  }

  lemma MomentNext(e: real -> real, ts: seq<Token>, s: real, v: seq<real>, d: nat)
    requires forall i :: 0 <= i < |ts| ==> d < |ts[i].value|
    requires d < |v|
    ensures Moment(e, ts + [Token(s, v)], 0.0, d) == Moment(e, ts, 0.0, d) + Term(e, s, v[d])
  {
    MomentSnoc(e, ts, Token(s, v), d);
  }

  lemma {:induction false} FragmentMoment(e: real -> real, r: RowProblem, jBase: nat, frag: seq<Ext>, xs: seq<real>,
                                          n: nat, dim: nat, d: nat)
    requires Shaped(r, dim) && d < dim && jBase <= |r.scores| && IsFragment(r, jBase, frag)
    requires IsColumn(r, jBase, xs, d) && n <= |frag| == |xs|
    ensures WellShaped(SeenTokens(r, TileEnd(r, jBase, n)), dim) && WellShaped(SeenTokens(r, jBase), dim)
    ensures Moment(e, SeenTokens(r, TileEnd(r, jBase, n)), 0.0, d)
         == Moment(e, SeenTokens(r, jBase), 0.0, d) + AbsoluteTotal(e, frag[..n], xs[..n])
  {
    hide Moment, SeenTokens, AbsoluteTotal, Term, IsFragment, Sees;
    SeenShaped(r, TileEnd(r, jBase, n), dim);
    SeenShaped(r, jBase, dim);
    if n == 0 {
      AbsoluteNone(e, frag, xs);
    } else {
      FragmentMoment(e, r, jBase, frag, xs, n - 1, dim, d);
      FragmentAt(r, jBase, frag, n - 1);
      SeenNext(r, jBase, n - 1);
      AbsoluteSnoc(e, frag, xs, n - 1);
      var j := jBase + n - 1;
      if Sees(r, j) {
        MomentNext(e, SeenTokens(r, TileEnd(r, jBase, n - 1)), r.scores[j], r.values[j], d);
      }
    }
  }

  /** alpha * x + total adds the fragment's absolute sum. */
  lemma TileScaled(e: real -> real, m: Ext, x: real, frag: seq<Ext>, xs: seq<real>, mNew: Ext)
    requires IsExp(e) && |frag| == |xs| && mNew == Max(m, MaxExt(frag))
    requires forall i :: 0 <= i < |frag| && frag[i].Fin? ==> mNew.Fin? && frag[i].r <= mNew.r
    ensures Scaled(e, mNew, TileSum(e, m, x, frag, xs, mNew)) == Scaled(e, m, x) + AbsoluteTotal(e, frag, xs)
    ensures mNew.NegInf? ==> TileSum(e, m, x, frag, xs, mNew) == 0.0
  {
    hide RescaledTotal, AbsoluteTotal, MaxExt;
    var total := RescaledTotal(e, frag, xs, mNew);
    TotalIsAbsolute(e, frag, xs, mNew);
    if mNew.NegInf? {
      EmptyTotals(e, frag, xs, mNew);
    } else {
      MergeScaled(e, m, x, mNew, total);
      assert mNew.r - mNew.r == 0.0;
      assert Alpha(e, mNew, mNew) == 1.0;
      assert Max(m, mNew) == mNew;
    }
  }

  /** A tile update extends what the state stands for by the tile's visible keys. */
  lemma TileRepresents(e: real -> real, p: Partial, r: RowProblem, jBase: nat, frag: seq<Ext>, dim: nat)
    requires IsExp(e) && Shaped(r, dim) && jBase <= |r.scores| && IsFragment(r, jBase, frag)
    requires Represents(e, p, SeenTokens(r, jBase), dim)
    ensures Represents(e, TileUpdate(e, p, r, jBase, frag), SeenTokens(r, TileEnd(r, jBase, |frag|)), dim)
  {
    hide Weight, Moment, Scaled, TileSum, AbsoluteTotal, SeenTokens, IsFragment, MaxExt, MaxScore;
    var p', ts := TileUpdate(e, p, r, jBase, frag), SeenTokens(r, TileEnd(r, jBase, |frag|));
    SeenShaped(r, TileEnd(r, jBase, |frag|), dim);
    FragmentMax(r, jBase, frag, |frag|);
    FragmentWeight(e, r, jBase, frag, |frag|);
    assert frag[..|frag|] == frag && Ones(|frag|)[..|frag|] == Ones(|frag|);
    MaxCovers(p.m, frag);
    TileScaled(e, p.m, p.l, frag, Ones(|frag|), p'.m);
    forall d | 0 <= d < dim
      ensures Scaled(e, p'.m, p'.o[d]) == Moment(e, ts, 0.0, d) && (p'.m.NegInf? ==> p'.o[d] == 0.0)
    {
      var xs := Column(r, jBase, |frag|, d);
      FragmentMoment(e, r, jBase, frag, xs, |frag|, dim, d);
      assert xs[..|frag|] == xs;
      TileScaled(e, p.m, p.o[d], frag, xs, p'.m);
    }
    if p'.m.NegInf? {
      assert p'.o == Identity(dim).o;
    }
  }

  // ---------------------------------------------------------------------------
  // The loop
  // ---------------------------------------------------------------------------

  /** Score fragment of one tile: the element mask is consulted only when the tile sticks
      out of the keys or is not fully visible for the warp. */
  method LoadFragment(r: RowProblem, warpRow0: nat, jBase: nat, blockN: nat) returns (frag: seq<Ext>)
    requires |r.scores| == |r.values| && warpRow0 <= r.row
    ensures |frag| == blockN && IsFragment(r, jBase, frag)
    ensures forall x {:trigger frag[x]} :: 0 <= x < blockN ==>
              frag[x] == if jBase + x < |r.scores| && (!r.causal || jBase + x <= r.row + r.diagonal)
                         then Fin(r.scores[jBase + x]) else NegInf
  {
    var tileInRange := jBase + blockN <= |r.scores|;
    var fullyVisible := !r.causal || MaskWarpFullyVisible(warpRow0, jBase, blockN, r.diagonal);
    var needMask := !tileInRange || !fullyVisible;
    frag := [];
    for x := 0 to blockN
      invariant |frag| == x && IsFragment(r, jBase, frag)
    {
      var visible := true;
      if needMask {
        visible := jBase + x < |r.scores| && (!r.causal || MaskElementVisible(r.row, jBase + x, r.diagonal));
      }
      frag := frag + [if visible then Fin(r.scores[jBase + x]) else NegInf];
    }
  }

  /** rowmax of a fragment. */
  method RowMax(frag: seq<Ext>) returns (m: Ext)
    ensures m == MaxExt(frag)
  {
    m := NegInf;
    for x := 0 to |frag|
      invariant m == MaxExt(frag[..x])
    {
      assert frag[..x + 1][..x] == frag[..x];
      m := Max(m, frag[x]);
    }
    assert frag[..|frag|] == frag;
  }

  /** Sum of P[x] * xs[x] over a fragment, P[x] = exp(frag[x] - mNew) and 0 for -inf. */
  method RowSum(e: real -> real, frag: seq<Ext>, xs: seq<real>, mNew: Ext) returns (total: real)
    requires |frag| == |xs|
    requires forall i :: 0 <= i < |frag| && frag[i].Fin? ==> mNew.Fin? && frag[i].r <= mNew.r
    ensures total == RescaledTotal(e, frag, xs, mNew)
  {
    total := 0.0;
    for x := 0 to |frag|
      invariant total == RescaledTotal(e, frag[..x], xs[..x], mNew)
    {
      assert frag[..x + 1][..x] == frag[..x] && xs[..x + 1][..x] == xs[..x];
      if frag[x].Fin? {
        total := total + xs[x] * FastExp(e, frag[x].r - mNew.r);
      }
    }
    assert frag[..|frag|] == frag && xs[..|xs|] == xs;
  }

  /** One iteration of the tile loop for one row. */
  method TileStep(e: real -> real, r: RowProblem, jBase: nat, frag: seq<Ext>, m: Ext, l: real, acc: array<real>)
    returns (mNew: Ext, lNew: real)
    requires Shaped(r, acc.Length)
    modifies acc
    ensures Partial(mNew, lNew, acc[..]) == TileUpdate(e, Partial(m, l, old(acc[..])), r, jBase, frag)
  {
    hide RescaledTotal, MaxExt;
    ghost var before := acc[..];
    MaxCovers(m, frag);
    var tileMax := RowMax(frag);
    mNew := Max(m, tileMax);
    var alpha := if m.NegInf? || mNew.NegInf? then 0.0 else FastExp(e, m.r - mNew.r);
    var rowSum := RowSum(e, frag, Ones(|frag|), mNew);
    lNew := alpha * l + rowSum;
    ghost var target := TileUpdate(e, Partial(m, l, before), r, jBase, frag);
    for d := 0 to acc.Length
      invariant forall x :: 0 <= x < d ==> acc[x] == target.o[x]
      invariant forall x :: d <= x < acc.Length ==> acc[x] == before[x]
    {
      var pv := RowSum(e, frag, Column(r, jBase, |frag|, d), mNew);
      acc[d] := alpha * acc[d] + pv;
    }
    assert acc[..] == target.o;
  }

  /** The tile loop of flash_fwd_kernel for one row of the CTA that starts at i0: it stops
      at the first fully masked tile, and returns masked two-pass softmax. */
  method FlashRow(e: real -> real, r: RowProblem, i0: nat, blockM: nat, warpRow0: nat, blockN: nat, dim: nat)
    returns (out: array<real>)
    requires IsExp(e) && Shaped(r, dim) && blockN > 0
    requires i0 <= warpRow0 <= r.row < i0 + blockM
    ensures fresh(out) && out.Length == dim
    ensures WellShaped(FirstKeys(r, VisibleKeys(r)), dim)
    ensures out[..] == Attention(e, FirstKeys(r, VisibleKeys(r)), dim)
  {
    hide Represents, SeenTokens, VisibleKeys, FirstKeys, TileUpdate, IsFragment, Attention, IsExp;
    var m, l := NegInf, 0.0;
    var acc := new real[dim](i => 0.0);
    assert acc[..] == Identity(dim).o;
    NothingSeen(e, r, dim);
    var jTiles := (|r.scores| + blockN - 1) / blockN;
    CeilDivIs(|r.scores|, blockN);
    var j, jBase := 0, 0;
    ghost var seen := 0;
    while j < jTiles
      invariant 0 <= j <= jTiles && jBase == j * blockN
      invariant seen == if jBase < |r.scores| then jBase else |r.scores|
      invariant acc.Length == dim && fresh(acc)
      invariant Represents(e, Partial(m, l, acc[..]), SeenTokens(r, seen), dim)
      decreases jTiles - j
    {
      TileStarts(j, jTiles, blockN, |r.scores|);
      if r.causal && MaskTileFullyMasked(i0, blockM, jBase, r.diagonal) {
        break;
      }
      var frag := LoadFragment(r, warpRow0, jBase, blockN);
      TileRepresents(e, Partial(m, l, acc[..]), r, jBase, frag, dim);
      m, l := TileStep(e, r, jBase, frag, m, l, acc);
      seen := TileEnd(r, jBase, blockN);
      j, jBase := j + 1, jBase + blockN;
    }
    SeenStops(r, seen, |r.scores|);
    SeenShaped(r, |r.scores|, dim);
    NormaliseIsAttention(e, Partial(m, l, acc[..]), SeenTokens(r, |r.scores|), dim);
    SeenAreFirst(r);
    out := Scale(acc, l, m);
  }

  lemma NothingSeen(e: real -> real, r: RowProblem, dim: nat)
    requires Shaped(r, dim)
    ensures Represents(e, Identity(dim), SeenTokens(r, 0), dim)
  {
    IdentityRepresents(e, dim);
  }

  lemma TileStarts(j: nat, jTiles: nat, blockN: nat, n: nat)
    requires blockN > 0 && jTiles == (n + blockN - 1) / blockN && j < jTiles
    ensures j * blockN < n
  {
    CeilDivIs(n, blockN);
    MulMono(j + 1, jTiles, blockN);
    assert (j + 1) * blockN == j * blockN + blockN;
  }

  /** O / l, or zeros when nothing was visible. */
  method Scale(acc: array<real>, l: real, ghost m: Ext) returns (out: array<real>)
    ensures fresh(out) && out[..] == Normalise(Partial(m, l, acc[..]))
  {
    var inv := if l > 0.0 then 1.0 / l else 0.0;
    assert inv == Inverse(l);
    out := new real[acc.Length](i requires 0 <= i < acc.Length reads acc => acc[i] * inv);
    forall d | 0 <= d < acc.Length ensures out[..][d] == Normalise(Partial(m, l, acc[..]))[d] {
      assert acc[..][d] == acc[d];
    }
  }
}
