/** The (m, l, O) states of online softmax: what a state stands for, the one-token
    update, the merge of two states, and the bounds the updates keep. */
module OnlineSoftmax {
  import opened Softmax

  /** m: running maximum; l: sum of e(s_j - m); o: sum of e(s_j - m) * v_j, not normalised. */
  datatype Partial = Partial(m: Ext, l: real, o: seq<real>)

  function Identity(dim: nat): Partial { Partial(NegInf, 0.0, seq(dim, d => 0.0)) }

  /** An accumulator kept relative to the maximum `m`, as an absolute sum. */
  function Scaled(e: real -> real, m: Ext, x: real): real {
    if m.NegInf? then 0.0 else x * e(m.r)
  }

  /** A state stands for the token list `ts`: it knows the maximum score, and its l
      and O, made absolute, are the plain sums over the list. */
  ghost predicate Represents(e: real -> real, p: Partial, ts: seq<Token>, dim: nat) {
    && WellShaped(ts, dim)
    && Proper(p, dim)
    && p.m == MaxScore(ts)
    && Scaled(e, p.m, p.l) == Weight(e, ts, 0.0)
    && forall d :: 0 <= d < dim ==> Scaled(e, p.m, p.o[d]) == Moment(e, ts, 0.0, d)
  }

  /** States as the kernels produce them: nothing seen means all sums are zero. */
  ghost predicate Proper(p: Partial, dim: nat) {
    |p.o| == dim && (p.m.NegInf? ==> p == Identity(dim))
  }

  /** The factor applied to the old sums when the maximum moves from `m` to `mNew`. */
  function Alpha(e: real -> real, m: Ext, mNew: Ext): real
    requires m.Fin? ==> mNew.Fin? && m.r <= mNew.r
  {
    if m.NegInf? then 0.0 else FastExp(e, m.r - mNew.r)
  }

  function Axpy(alpha: real, x: real, pj: real, v: real): real { alpha * x + pj * v }

  /** One accumulator after a token of score `s` that contributes `v`. */
  function StepSum(e: real -> real, m: Ext, x: real, s: real, v: real): real {
    var mNew := Max(m, Fin(s));
    Axpy(Alpha(e, m, mNew), x, FastExp(e, s - mNew.r), v)
  }

  function OnlineStep(e: real -> real, p: Partial, t: Token): (p': Partial)
    requires |t.value| == |p.o|
    ensures |p'.o| == |p.o| && p'.m.Fin?
  {
    Partial(Max(p.m, Fin(t.score)), StepSum(e, p.m, p.l, t.score, 1.0),
            seq(|p.o|, d requires 0 <= d < |p.o| => StepSum(e, p.m, p.o[d], t.score, t.value[d])))
  }

  /** The rescaling loop over a whole list. */
  function OnlineFold(e: real -> real, ts: seq<Token>, dim: nat): (p: Partial)
    requires WellShaped(ts, dim)
    ensures |p.o| == dim
  {
    if ts == [] then Identity(dim)
    else OnlineStep(e, OnlineFold(e, ts[..|ts| - 1], dim), ts[|ts| - 1])
  }

  /** A two-term combination scaled by k, when the scaled coefficients are known. */
  lemma Combine2(x: real, p: real, a: real, q: real, b: real, k: real, pk: real, qk: real)
    requires x == p * a + q * b && p * k == pk && q * k == qk
    ensures x * k == a * pk + b * qk
  {
    assert x * k == a * (p * k) + b * (q * k);
  }

  /** An update adds exactly the new token's absolute contribution. */
  lemma StepScaled(e: real -> real, m: Ext, x: real, s: real, v: real)
    requires IsExp(e)
    ensures Scaled(e, Max(m, Fin(s)), StepSum(e, m, x, s, v)) == Scaled(e, m, x) + e(s) * v
  {
    var mNew := Max(m, Fin(s)).r;
    Rescale(e, s, mNew);
    if m.NegInf? {
      Combine2(StepSum(e, m, x, s, v), 0.0, x, e(s - mNew), v, e(mNew), 0.0, e(s));
    } else {
      Rescale(e, m.r, mNew);
      Combine2(StepSum(e, m, x, s, v), e(m.r - mNew), x, e(s - mNew), v, e(mNew), e(m.r), e(s));
    }
  }

  lemma WeightSnoc(e: real -> real, ts: seq<Token>, t: Token)
    ensures Weight(e, ts + [t], 0.0) == Weight(e, ts, 0.0) + e(t.score)
  {
    assert (ts + [t])[..|ts + [t]| - 1] == ts && t.score - 0.0 == t.score;
  }

  lemma MomentSnoc(e: real -> real, ts: seq<Token>, t: Token, d: nat)
    requires forall i :: 0 <= i < |ts| ==> d < |ts[i].value|
    requires d < |t.value|
    ensures Moment(e, ts + [t], 0.0, d) == Moment(e, ts, 0.0, d) + e(t.score) * t.value[d]
  {
    assert (ts + [t])[..|ts + [t]| - 1] == ts && t.score - 0.0 == t.score;
  }

  lemma MaxScoreSnoc(ts: seq<Token>, t: Token)
    ensures MaxScore(ts + [t]) == Max(MaxScore(ts), Fin(t.score))
  {
    assert (ts + [t])[..|ts + [t]| - 1] == ts;
  }

  lemma StepRepresents(e: real -> real, p: Partial, ts: seq<Token>, t: Token, dim: nat)
    requires IsExp(e) && Represents(e, p, ts, dim) && |t.value| == dim
    ensures Represents(e, OnlineStep(e, p, t), ts + [t], dim)
  {
    hide Weight, Moment, Scaled, StepSum, MaxScore;
    MaxScoreSnoc(ts, t);
    WeightSnoc(e, ts, t);
    StepScaled(e, p.m, p.l, t.score, 1.0);
    forall d | 0 <= d < dim
      ensures Scaled(e, OnlineStep(e, p, t).m, OnlineStep(e, p, t).o[d]) == Moment(e, ts + [t], 0.0, d)
    {
      StepScaled(e, p.m, p.o[d], t.score, t.value[d]);
      MomentSnoc(e, ts, t, d);
    }
  }

  lemma IdentityRepresents(e: real -> real, dim: nat)
    ensures Represents(e, Identity(dim), [], dim)
  {
  }

  /** The one-pass rescaling loop stands for exactly the tokens it has read. */
  lemma {:induction false} FoldRepresents(e: real -> real, ts: seq<Token>, dim: nat)
    requires IsExp(e) && WellShaped(ts, dim)
    ensures Represents(e, OnlineFold(e, ts, dim), ts, dim)
  {
    if ts == [] {
      IdentityRepresents(e, dim);
    } else {
      var init, last := ts[..|ts| - 1], ts[|ts| - 1];
      FoldRepresents(e, init, dim);
      StepRepresents(e, OnlineFold(e, init, dim), init, last, dim);
      assert init + [last] == ts;
    }
  }

  // ---------------------------------------------------------------------------
  // Merging
  // ---------------------------------------------------------------------------

  /** One accumulator of a merge: each side is rescaled to the common maximum. */
  function MergeSum(e: real -> real, a: Ext, x: real, b: Ext, y: real): real {
    var m := Max(a, b);
    Alpha(e, a, m) * x + Alpha(e, b, m) * y
  }

  function Merge(e: real -> real, a: Partial, b: Partial): (p: Partial)
    requires |a.o| == |b.o|
    ensures |p.o| == |a.o|
  {
    Partial(Max(a.m, b.m), MergeSum(e, a.m, a.l, b.m, b.l),
            seq(|a.o|, d requires 0 <= d < |a.o| => MergeSum(e, a.m, a.o[d], b.m, b.o[d])))
  }

  /** Merging adds absolute sums. */
  lemma MergeScaled(e: real -> real, a: Ext, x: real, b: Ext, y: real)
    requires IsExp(e)
    ensures Scaled(e, Max(a, b), MergeSum(e, a, x, b, y)) == Scaled(e, a, x) + Scaled(e, b, y)
    ensures Max(a, b).NegInf? ==> MergeSum(e, a, x, b, y) == 0.0
  {
    var m := Max(a, b);
    if m.Fin? {
      if a.Fin? { Rescale(e, a.r, m.r); }
      if b.Fin? { Rescale(e, b.r, m.r); }
      Combine2(MergeSum(e, a, x, b, y), Alpha(e, a, m), x, Alpha(e, b, m), y, e(m.r),
               if a.Fin? then e(a.r) else 0.0, if b.Fin? then e(b.r) else 0.0);
    }
  }

  /** Equal absolute sums at one finite maximum are equal accumulators. */
  lemma ScaledInjective(e: real -> real, m: Ext, x: real, y: real)
    requires IsExp(e) && m.Fin? && Scaled(e, m, x) == Scaled(e, m, y)
    ensures x == y
  {
    assert PosLaw(e, m.r);
    assert (x - y) * e(m.r) == 0.0;
  }

  lemma MergeSumAssociates(e: real -> real, a: Ext, x: real, b: Ext, y: real, c: Ext, z: real)
    requires IsExp(e)
    ensures MergeSum(e, Max(a, b), MergeSum(e, a, x, b, y), c, z)
         == MergeSum(e, a, x, Max(b, c), MergeSum(e, b, y, c, z))
  {
    hide Scaled, MergeSum;
    var left := MergeSum(e, Max(a, b), MergeSum(e, a, x, b, y), c, z);
    var right := MergeSum(e, a, x, Max(b, c), MergeSum(e, b, y, c, z));
    MergeScaled(e, a, x, b, y);
    MergeScaled(e, b, y, c, z);
    MergeScaled(e, Max(a, b), MergeSum(e, a, x, b, y), c, z);
    MergeScaled(e, a, x, Max(b, c), MergeSum(e, b, y, c, z));
    var m := Max(a, Max(b, c));
    assert Max(Max(a, b), c) == m;
    if m.Fin? {
      ScaledInjective(e, m, left, right);
    }
  }

  lemma MergeAssociates(e: real -> real, a: Partial, b: Partial, c: Partial, dim: nat)
    requires IsExp(e) && |a.o| == |b.o| == |c.o| == dim
    ensures Merge(e, Merge(e, a, b), c) == Merge(e, a, Merge(e, b, c))
  {
    hide MergeSum;
    var left, right := Merge(e, Merge(e, a, b), c), Merge(e, a, Merge(e, b, c));
    MergeSumAssociates(e, a.m, a.l, b.m, b.l, c.m, c.l);
    forall d | 0 <= d < dim ensures left.o[d] == right.o[d] {
      MergeSumAssociates(e, a.m, a.o[d], b.m, b.o[d], c.m, c.o[d]);
    }
    assert left.o == right.o;
  }

  lemma MergeCommutes(e: real -> real, a: Partial, b: Partial, dim: nat)
    requires IsExp(e) && |a.o| == |b.o| == dim
    ensures Merge(e, a, b) == Merge(e, b, a)
    ensures Proper(Merge(e, a, b), dim)
  {
    forall x, y ensures MergeSum(e, a.m, x, b.m, y) == MergeSum(e, b.m, y, a.m, x) {
    }
    hide MergeSum;
    assert Merge(e, a, b).o == Merge(e, b, a).o;
    if Merge(e, a, b).m.NegInf? {
      MergeScaled(e, a.m, a.l, b.m, b.l);
      forall d | 0 <= d < dim ensures Merge(e, a, b).o[d] == 0.0 {
        MergeScaled(e, a.m, a.o[d], b.m, b.o[d]);
      }
    }
  }

  lemma MergeIdentity(e: real -> real, p: Partial, dim: nat)
    requires IsExp(e) && Proper(p, dim)
    ensures Merge(e, p, Identity(dim)) == p == Merge(e, Identity(dim), p)
  {
    if p.m.Fin? {
      assert p.m.r - p.m.r == 0.0;
    }
    assert Merge(e, p, Identity(dim)).o == p.o;
    assert Merge(e, Identity(dim), p).o == p.o;
  }

  lemma {:induction false} MaxScoreAppend(a: seq<Token>, b: seq<Token>)
    ensures MaxScore(a + b) == Max(MaxScore(a), MaxScore(b))
  {
    if b == [] {
      assert a + b == a;
    } else {
      MaxScoreAppend(a, b[..|b| - 1]);
      assert (a + b)[..|a + b| - 1] == a + b[..|b| - 1];
    }
  }

  /** Merging is concatenation of what the states stand for. */
  lemma MergeRepresents(e: real -> real, a: Partial, s: seq<Token>, b: Partial, t: seq<Token>, dim: nat)
    requires IsExp(e) && Represents(e, a, s, dim) && Represents(e, b, t, dim)
    ensures Represents(e, Merge(e, a, b), s + t, dim)
  {
    hide Weight, Moment, Scaled, MergeSum, MaxScore;
    MaxScoreAppend(s, t);
    MergeCommutes(e, a, b, dim);
    WeightAppend(e, s, t, 0.0);
    MergeScaled(e, a.m, a.l, b.m, b.l);
    forall d | 0 <= d < dim
      ensures Scaled(e, Merge(e, a, b).m, Merge(e, a, b).o[d]) == Moment(e, s + t, 0.0, d)
    {
      MomentAppend(e, s, t, 0.0, d);
      MergeScaled(e, a.m, a.o[d], b.m, b.o[d]);
    }
  }

  /** A state is determined by the list it stands for. */
  lemma RepresentsUnique(e: real -> real, p: Partial, q: Partial, ts: seq<Token>, dim: nat)
    requires IsExp(e) && Represents(e, p, ts, dim) && Represents(e, q, ts, dim)
    ensures p == q
  {
    hide Weight, Moment, Scaled, MaxScore;
    if p.m.Fin? {
      ScaledInjective(e, p.m, p.l, q.l);
      forall d | 0 <= d < dim ensures p.o[d] == q.o[d] {
        ScaledInjective(e, p.m, p.o[d], q.o[d]);
      }
      assert p.o == q.o;
    }
  }

  // ---------------------------------------------------------------------------
  // Normalising, and the bounds
  // ---------------------------------------------------------------------------

  /** O * (l > 0 ? 1/l : 0), the last step of every kernel. */
  function Normalise(p: Partial): (out: seq<real>)
    ensures |out| == |p.o|
  {
    seq(|p.o|, d requires 0 <= d < |p.o| => p.o[d] * Inverse(p.l))
  }

  function Inverse(l: real): real {
    if l > 0.0 then 1.0 / l else 0.0
  }

  /** n/w from accumulators kept relative to a finite maximum. */
  lemma ScaledQuotient(e: real -> real, m: Ext, x: real, l: real, n: real, w: real)
    requires IsExp(e) && m.Fin? && l > 0.0 && w > 0.0
    requires Scaled(e, m, x) == n && Scaled(e, m, l) == w
    ensures x * Inverse(l) == n / w
  {
    assert PosLaw(e, m.r);
    QuotientCancels(x, l, e(m.r), n, w);
  }

  /** Normalising gives the two-pass softmax of what the state stands for, and
      zeros when it stands for nothing. */
  lemma NormaliseIsAttention(e: real -> real, p: Partial, ts: seq<Token>, dim: nat)
    requires IsExp(e) && Represents(e, p, ts, dim)
    ensures Normalise(p) == Attention(e, ts, dim)
  {
    hide Inverse;
    forall d | 0 <= d < dim ensures Normalise(p)[d] == Attention(e, ts, dim)[d] {
      if ts != [] {
        CoordinateIsAttention(e, p, ts, dim, d);
      }
    }
  }

  lemma CoordinateIsAttention(e: real -> real, p: Partial, ts: seq<Token>, dim: nat, d: nat)
    requires IsExp(e) && Represents(e, p, ts, dim) && ts != [] && d < dim
    ensures p.o[d] * Inverse(p.l) == Attention(e, ts, dim)[d]
  {
    hide Weight, Moment, Scaled, Inverse, Attention;
    SumBounds(e, p, ts, dim);
    AttentionIsRatio(e, ts, dim, d);
    ScaledQuotient(e, p.m, p.o[d], p.l, Moment(e, ts, 0.0, d), Weight(e, ts, 0.0));
  }

  lemma Distribute(k: real, x: real, y: real)
    ensures k * (x + y) == k * x + k * y
  {
  }

  lemma {:induction false} WeightBounds(e: real -> real, ts: seq<Token>, m: real)
    requires IsExp(e)
    requires forall i :: 0 <= i < |ts| ==> ts[i].score <= m
    ensures Weight(e, ts, 0.0) <= |ts| as real * e(m)
    ensures (exists i :: 0 <= i < |ts| && ts[i].score == m) ==> e(m) <= Weight(e, ts, 0.0)
  {
    if ts != [] {
      var init, last := ts[..|ts| - 1], ts[|ts| - 1];
      WeightBounds(e, init, m);
      WeightPositive(e, init, 0.0);
      assert last.score - 0.0 == last.score;
      ExpAtMost(e, last.score, m);
      Distribute(e(m), |init| as real, 1.0);
      if exists i :: 0 <= i < |ts| && ts[i].score == m {
        var i :| 0 <= i < |ts| && ts[i].score == m;
        if i < |init| {
          assert init[i].score == m;
        }
      }
    }
  }

  /** After n >= 1 visible tokens the running sum lies in [1, n]. */
  lemma SumBounds(e: real -> real, p: Partial, ts: seq<Token>, dim: nat)
    requires IsExp(e) && Represents(e, p, ts, dim) && ts != []
    ensures 1.0 <= p.l <= |ts| as real
  {
    var m := p.m.r;
    assert MaxScore(ts) == Fin(m);
    WeightBounds(e, ts, m);
    DividesOut(e, p.l, |ts| as real, m, Weight(e, ts, 0.0));
  }

  lemma DividesOut(e: real -> real, l: real, n: real, m: real, w: real)
    requires IsExp(e) && Scaled(e, Fin(m), l) == w && e(m) <= w <= n * e(m)
    ensures 1.0 <= l <= n
  {
    assert PosLaw(e, m);
    var k := e(m);
    assert (l - 1.0) * k >= 0.0 && (n - l) * k >= 0.0;
  }

  lemma {:induction false} MomentBetween(e: real -> real, ts: seq<Token>, d: nat, lo: real, hi: real)
    requires IsExp(e)
    requires forall i :: 0 <= i < |ts| ==> d < |ts[i].value| && lo <= ts[i].value[d] <= hi
    ensures lo * Weight(e, ts, 0.0) <= Moment(e, ts, 0.0, d) <= hi * Weight(e, ts, 0.0)
  {
    if ts != [] {
      var init, last := ts[..|ts| - 1], ts[|ts| - 1];
      MomentBetween(e, init, d, lo, hi);
      assert PosLaw(e, last.score - 0.0);
      var w, x, k := Weight(e, init, 0.0), last.value[d], e(last.score - 0.0);
      Distribute(lo, w, k);
      Distribute(hi, w, k);
      assert (x - lo) * k >= 0.0 && (hi - x) * k >= 0.0;
    }
  }

  /** Every output coordinate is a weighted mean: it stays between any bounds that
      hold of that coordinate of all visible values. */
  lemma OutputBetween(e: real -> real, ts: seq<Token>, dim: nat, d: nat, lo: real, hi: real)
    requires IsExp(e) && WellShaped(ts, dim) && d < dim && ts != []
    requires forall i :: 0 <= i < |ts| ==> lo <= ts[i].value[d] <= hi
    ensures lo <= Attention(e, ts, dim)[d] <= hi
  {
    AttentionIsRatio(e, ts, dim, d);
    MomentBetween(e, ts, d, lo, hi);
    RatioBetween(Moment(e, ts, 0.0, d), Weight(e, ts, 0.0), lo, hi);
  }

  lemma RatioBetween(n: real, w: real, lo: real, hi: real)
    requires w > 0.0 && lo * w <= n <= hi * w
    ensures lo <= n / w <= hi
  {
    var x := n / w;
    assert x * w == n;
    assert (x - lo) * w >= 0.0 && (hi - x) * w >= 0.0;
  }
}
