/** Softmax attention over a list of visible tokens in exact reals, and the
    (m, l, O) partial states the kernels use to compute it without ever holding
    all the scores at once. */
module Softmax {

  /** A float that may be the -inf sentinel. */
  datatype Ext = NegInf | Fin(r: real)

  /** fmaxf on values that may be -inf. */
  function Max(a: Ext, b: Ext): Ext {
    if a.NegInf? then b
    else if b.NegInf? then a
    else if a.r <= b.r then b
    else a
  }

  /** One visible key/value pair: its scaled score and its value row. */
  datatype Token = Token(score: real, value: seq<real>)

  // ---------------------------------------------------------------------------
  // The exponential.  It is any function with these laws; each law is wrapped in
  // a predicate so that it is only instantiated where it is asked for.
  // ---------------------------------------------------------------------------

  ghost predicate AddLaw(e: real -> real, x: real, y: real) { e(x + y) == e(x) * e(y) }

  ghost predicate PosLaw(e: real -> real, x: real) { e(x) > 0.0 }

  ghost predicate MonoLaw(e: real -> real, x: real, y: real) { x <= y ==> e(x) <= e(y) }

  ghost predicate IsExp(e: real -> real) {
    && e(0.0) == 1.0
    && (forall x, y :: AddLaw(e, x, y))
    && (forall x :: PosLaw(e, x))
    && (forall x, y :: MonoLaw(e, x, y))
  }

  /** The kernels' exponential: every call site must show that its argument is
      not positive, which is what rules out overflow. */
  function FastExp(e: real -> real, x: real): real
    requires x <= 0.0
  {
    e(x)
  }

  /** Rescaling from maximum `a` to maximum `b`: e(a - b) * e(b) == e(a). */
  lemma Rescale(e: real -> real, a: real, b: real)
    requires IsExp(e)
    ensures e(a - b) * e(b) == e(a)
    ensures e(a) > 0.0 && e(b) > 0.0 && e(a - b) > 0.0
  {
    assert AddLaw(e, a - b, b);
    assert a - b + b == a;
    assert PosLaw(e, a) && PosLaw(e, b) && PosLaw(e, a - b);
  }

  lemma ExpAtMost(e: real -> real, a: real, b: real)
    requires IsExp(e) && a <= b
    ensures 0.0 < e(a) <= e(b)
  {
    assert MonoLaw(e, a, b) && PosLaw(e, a);
  }

  // ---------------------------------------------------------------------------
  // Reference sums over a token list
  // ---------------------------------------------------------------------------

  ghost predicate WellShaped(ts: seq<Token>, dim: nat) {
    forall i :: 0 <= i < |ts| ==> |ts[i].value| == dim
  }

  function MaxScore(ts: seq<Token>): (m: Ext)
    ensures m.NegInf? <==> ts == []
    ensures m.Fin? ==> forall i :: 0 <= i < |ts| ==> ts[i].score <= m.r
    ensures m.Fin? ==> exists i :: 0 <= i < |ts| && ts[i].score == m.r
  {
    if ts == [] then NegInf
    else
      var rest := MaxScore(ts[..|ts| - 1]);
      var last := ts[|ts| - 1].score;
      Max(rest, Fin(last))
  }

  /** Sum of e(s_j - shift) over the list. */
  function Weight(e: real -> real, ts: seq<Token>, shift: real): real {
    if ts == [] then 0.0
    else Weight(e, ts[..|ts| - 1], shift) + e(ts[|ts| - 1].score - shift)
  }

  /** Sum of e(s_j - shift) * v_j[d] over the list. */
  function Moment(e: real -> real, ts: seq<Token>, shift: real, d: nat): real
    requires forall i :: 0 <= i < |ts| ==> d < |ts[i].value|
  {
    if ts == [] then 0.0
    else
      var last := ts[|ts| - 1];
      Moment(e, ts[..|ts| - 1], shift, d) + e(last.score - shift) * last.value[d]
  }

  /** Sum of p_j * v_j[d] with the normalised probabilities
      p_j = e(s_j - shift) * inv of the row softmax. */
  function ProbValue(e: real -> real, ts: seq<Token>, shift: real, inv: real, d: nat): real
    requires forall i :: 0 <= i < |ts| ==> d < |ts[i].value|
  {
    if ts == [] then 0.0
    else
      var last := ts[|ts| - 1];
      ProbValue(e, ts[..|ts| - 1], shift, inv, d) + (e(last.score - shift) * inv) * last.value[d]
  }

  /** Two-pass softmax attention, the repository's oracle: row maximum first, then
      the sum, then the probability-weighted values; an empty row gives zeros. */
  ghost function Attention(e: real -> real, ts: seq<Token>, dim: nat): (out: seq<real>)
    requires IsExp(e) && WellShaped(ts, dim)
    ensures |out| == dim
  {
    if ts == [] then seq(dim, d => 0.0)
    else
      var m := MaxScore(ts).r;
      WeightPositive(e, ts, m);
      seq(dim, d requires 0 <= d < dim => ProbValue(e, ts, m, 1.0 / Weight(e, ts, m), d))
  }

  lemma {:induction false} WeightPositive(e: real -> real, ts: seq<Token>, shift: real)
    requires IsExp(e)
    ensures Weight(e, ts, shift) >= 0.0
    ensures ts != [] ==> Weight(e, ts, shift) > 0.0
  {
    if ts != [] {
      WeightPositive(e, ts[..|ts| - 1], shift);
      assert PosLaw(e, ts[|ts| - 1].score - shift);
    }
  }

  lemma {:induction false} WeightAppend(e: real -> real, a: seq<Token>, b: seq<Token>, shift: real)
    ensures Weight(e, a + b, shift) == Weight(e, a, shift) + Weight(e, b, shift)
  {
    if b == [] {
      assert a + b == a;
    } else {
      WeightAppend(e, a, b[..|b| - 1], shift);
      assert (a + b)[..|a + b| - 1] == a + b[..|b| - 1];
    }
  }

  lemma {:induction false} MomentAppend(e: real -> real, a: seq<Token>, b: seq<Token>, shift: real, d: nat)
    requires forall i :: 0 <= i < |a| ==> d < |a[i].value|
    requires forall i :: 0 <= i < |b| ==> d < |b[i].value|
    ensures Moment(e, a + b, shift, d) == Moment(e, a, shift, d) + Moment(e, b, shift, d)
  {
    if b == [] {
      assert a + b == a;
    } else {
      MomentAppend(e, a, b[..|b| - 1], shift, d);
      assert (a + b)[..|a + b| - 1] == a + b[..|b| - 1];
    }
  }

  /** Scaling a sum extended by one term. */
  lemma Combine(x: real, n: real, p: real, v: real, k: real, nk: real, pk: real)
    requires x == n + p * v && n * k == nk && p * k == pk
    ensures x * k == nk + pk * v
  {
    assert x * k == n * k + (p * k) * v;
  }

  /** Changing the shift multiplies both sums by the same factor. */
  lemma {:induction false} ShiftSums(e: real -> real, ts: seq<Token>, shift: real, d: nat)
    requires IsExp(e)
    requires forall i :: 0 <= i < |ts| ==> d < |ts[i].value|
    ensures Weight(e, ts, shift) * e(shift) == Weight(e, ts, 0.0)
    ensures Moment(e, ts, shift, d) * e(shift) == Moment(e, ts, 0.0, d)
  {
    if ts != [] {
      var init, last := ts[..|ts| - 1], ts[|ts| - 1];
      ShiftSums(e, init, shift, d);
      Rescale(e, last.score, shift);
      assert last.score - 0.0 == last.score;
      var k, p, v := e(shift), e(last.score - shift), last.value[d];
      Combine(Weight(e, ts, shift), Weight(e, init, shift), p, 1.0, k, Weight(e, init, 0.0), e(last.score));
      Combine(Moment(e, ts, shift, d), Moment(e, init, shift, d), p, v, k, Moment(e, init, 0.0, d), e(last.score));
    }
  }

  lemma {:induction false} ProbValueIsScaledMoment(e: real -> real, ts: seq<Token>, shift: real, inv: real, d: nat)
    requires forall i :: 0 <= i < |ts| ==> d < |ts[i].value|
    ensures ProbValue(e, ts, shift, inv, d) == Moment(e, ts, shift, d) * inv
  {
    if ts != [] {
      ProbValueIsScaledMoment(e, ts[..|ts| - 1], shift, inv, d);
    }
  }

  /** The two-pass result is the quotient of the unshifted sums: subtracting the
      maximum changes nothing but the size of the intermediate values. */
  lemma AttentionIsRatio(e: real -> real, ts: seq<Token>, dim: nat, d: nat)
    requires IsExp(e) && WellShaped(ts, dim) && d < dim && ts != []
    ensures Weight(e, ts, 0.0) > 0.0
    ensures Attention(e, ts, dim)[d] == Moment(e, ts, 0.0, d) / Weight(e, ts, 0.0)
  {
    WeightPositive(e, ts, 0.0);
    var m := MaxScore(ts).r;
    WeightPositive(e, ts, m);
    assert Attention(e, ts, dim)[d] == ProbValue(e, ts, m, 1.0 / Weight(e, ts, m), d);
    ScaledRatio(e, ts, m, d);
  }

  lemma ScaledRatio(e: real -> real, ts: seq<Token>, m: real, d: nat)
    requires IsExp(e) && ts != []
    requires forall i :: 0 <= i < |ts| ==> d < |ts[i].value|
    ensures Weight(e, ts, m) > 0.0 && Weight(e, ts, 0.0) > 0.0
    ensures ProbValue(e, ts, m, 1.0 / Weight(e, ts, m), d) == Moment(e, ts, 0.0, d) / Weight(e, ts, 0.0)
  {
    hide Weight, Moment, ProbValue;
    WeightPositive(e, ts, m);
    WeightPositive(e, ts, 0.0);
    var n, w, k := Moment(e, ts, m, d), Weight(e, ts, m), e(m);
    ProbValueIsScaledMoment(e, ts, m, 1.0 / w, d);
    ShiftSums(e, ts, m, d);
    assert k > 0.0 by { assert PosLaw(e, m); }
    hide IsExp;
    QuotientCancels(n, w, k, Moment(e, ts, 0.0, d), Weight(e, ts, 0.0));
  }

  lemma QuotientCancels(n: real, w: real, k: real, nk: real, wk: real)
    requires w > 0.0 && k > 0.0 && wk > 0.0
    requires n * k == nk && w * k == wk
    ensures n * (1.0 / w) == nk / wk
  {
    var x := n * (1.0 / w);
    assert x * w == n by {
      assert (1.0 / w) * w == 1.0;
      assert x * w == n * ((1.0 / w) * w);
    }
    assert x * (w * k) == (x * w) * k;
    DivideBack(x, wk, nk);
  }

  lemma DivideBack(x: real, w: real, n: real)
    requires w != 0.0 && x * w == n
    ensures x == n / w
  {
  }
}
