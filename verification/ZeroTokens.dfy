/** What all-zero tokens do to attention: each scores 0, so it adds e(0) = 1 to the
    denominator and nothing to the sums of values. */
module ZeroTokens {
  import opened Softmax
  import opened OnlineSoftmax

  ghost predicate IsZero(t: Token) {
    t.score == 0.0 && forall d :: 0 <= d < |t.value| ==> t.value[d] == 0.0
  }

  /** The tokens marked in `keep`, in order. */
  function Kept(us: seq<Token>, keep: seq<bool>): (ts: seq<Token>)
    requires |us| == |keep|
  {
    if us == [] then []
    else
      var init := Kept(us[..|us| - 1], keep[..|us| - 1]);
      if keep[|us| - 1] then init + [us[|us| - 1]] else init
  }

  function Dropped(keep: seq<bool>): nat {
    if keep == [] then 0 else Dropped(keep[..|keep| - 1]) + if keep[|keep| - 1] then 0 else 1
  }

  lemma {:induction false} DroppedNone(keep: seq<bool>)
    ensures Dropped(keep) == 0 <==> forall i :: 0 <= i < |keep| ==> keep[i]
  {
    if keep != [] {
      DroppedNone(keep[..|keep| - 1]);
    }
  }

  /** Every token that is not kept is all zero. */
  ghost predicate OthersZero(us: seq<Token>, keep: seq<bool>) {
    |us| == |keep| && forall i :: 0 <= i < |us| && !keep[i] ==> IsZero(us[i])
  }

  lemma {:induction false} KeptShaped(us: seq<Token>, keep: seq<bool>, dim: nat)
    requires |us| == |keep| && WellShaped(us, dim)
    ensures WellShaped(Kept(us, keep), dim)
  {
    if us != [] {
      KeptShaped(us[..|us| - 1], keep[..|us| - 1], dim);
    }
  }

  lemma {:induction false} KeptWeight(e: real -> real, us: seq<Token>, keep: seq<bool>)
    requires IsExp(e) && OthersZero(us, keep)
    ensures Weight(e, us, 0.0) == Weight(e, Kept(us, keep), 0.0) + Dropped(keep) as real
  {
    if us != [] {
      var n := |us| - 1;
      KeptWeight(e, us[..n], keep[..n]);
      WeightSnoc(e, us[..n], us[n]);
      WeightSnoc(e, Kept(us[..n], keep[..n]), us[n]);
      assert us[..n] + [us[n]] == us;
      if !keep[n] {
        assert IsZero(us[n]);
      }
    }
  }

  lemma {:induction false} KeptMoment(e: real -> real, us: seq<Token>, keep: seq<bool>, dim: nat, d: nat)
    requires OthersZero(us, keep) && WellShaped(us, dim) && d < dim
    ensures WellShaped(Kept(us, keep), dim)
    ensures Moment(e, us, 0.0, d) == Moment(e, Kept(us, keep), 0.0, d)
  {
    KeptShaped(us, keep, dim);
    if us != [] {
      hide Moment;
      var n := |us| - 1;
      KeptMoment(e, us[..n], keep[..n], dim, d);
      MomentSnoc(e, us[..n], us[n], d);
      MomentSnoc(e, Kept(us[..n], keep[..n]), us[n], d);
      assert us[..n] + [us[n]] == us;
      if !keep[n] {
        assert IsZero(us[n]);
      }
    }
  }

  /** n/w against n/(w + m). */
  lemma QuotientsAgree(n: real, w: real, m: nat)
    requires w > 0.0
    ensures n / (w + m as real) == n / w <==> m == 0 || n / w == 0.0
  {
    var x, y := n / (w + m as real), n / w;
    assert x * (w + m as real) == n && y * w == n;
    if x == y {
      assert y * m as real == 0.0;
    }
  }

  lemma ZeroOver(w: real)
    requires w > 0.0
    ensures 0.0 / w == 0.0
  {
  }

  /** Zero tokens among the keys, wherever they stand, leave an output coordinate
      unchanged exactly when there are none or the coordinate is zero anyway. */
  lemma ZeroTokensExactly(e: real -> real, us: seq<Token>, keep: seq<bool>, dim: nat, d: nat)
    requires IsExp(e) && OthersZero(us, keep) && WellShaped(us, dim) && d < dim
    ensures WellShaped(Kept(us, keep), dim)
    ensures Attention(e, us, dim)[d] == Attention(e, Kept(us, keep), dim)[d]
       <==> Dropped(keep) == 0 || Attention(e, Kept(us, keep), dim)[d] == 0.0
  {
    hide Attention, Weight, Moment, Dropped, Kept;
    var ts := Kept(us, keep);
    KeptShaped(us, keep, dim);
    KeptWeight(e, us, keep);
    KeptMoment(e, us, keep, dim, d);
    NoneKept(us, keep);
    NothingGivesZero(e, dim, d);
    if us != [] {
      AttentionIsRatio(e, us, dim, d);
      if ts == [] {
        NoSums(e, d);
        ZeroOver(Weight(e, us, 0.0));
      } else {
        AttentionIsRatio(e, ts, dim, d);
        QuotientsAgree(Moment(e, ts, 0.0, d), Weight(e, ts, 0.0), Dropped(keep));
      }
    }
  }

  lemma NoneKept(us: seq<Token>, keep: seq<bool>)
    requires |us| == |keep|
    ensures us == [] ==> Kept(us, keep) == [] && Dropped(keep) == 0
  {
  }

  lemma NothingGivesZero(e: real -> real, dim: nat, d: nat)
    requires IsExp(e) && d < dim
    ensures Attention(e, [], dim)[d] == 0.0
  {
  }

  lemma NoSums(e: real -> real, d: nat)
    ensures Weight(e, [], 0.0) == 0.0 && Moment(e, [], 0.0, d) == 0.0
  {
  }

  /** The first n of the tokens, when all the others are zero. */
  lemma ZeroTailExactly(e: real -> real, us: seq<Token>, n: nat, dim: nat, d: nat)
    requires IsExp(e) && WellShaped(us, dim) && d < dim && n <= |us|
    requires forall i :: n <= i < |us| ==> IsZero(us[i])
    ensures WellShaped(us[..n], dim)
    ensures Attention(e, us, dim)[d] == Attention(e, us[..n], dim)[d]
            <==> n == |us| || Attention(e, us[..n], dim)[d] == 0.0
  {
    var keep := seq(|us|, i => i < n);
    KeptPrefix(us, n);
    ZeroTokensExactly(e, us, keep, dim, d);
    DroppedNone(keep);
    if n < |us| {
      assert !keep[n];
    }
  }

  lemma {:induction false} KeptPrefix(us: seq<Token>, n: nat)
    requires n <= |us|
    ensures Kept(us, seq(|us|, i => i < n)) == us[..n]
  {
    if us != [] {
      var m := |us| - 1;
      assert seq(|us|, i => i < n)[..m] == seq(m, i => i < n);
      if n <= m {
        KeptPrefix(us[..m], n);
      } else {
        KeptPrefix(us[..m], m);
        assert seq(m, i => i < n) == seq(m, i => i < m);
        assert us[..m] + [us[m]] == us;
      }
    }
  }

  lemma OneTokenAttention(e: real -> real, t: Token, dim: nat, d: nat)
    requires IsExp(e) && |t.value| == dim && d < dim
    ensures Attention(e, [t], dim)[d] == t.value[d]
  {
    AttentionIsRatio(e, [t], dim, d);
    assert PosLaw(e, t.score);
    WeightSnoc(e, [], t);
    MomentSnoc(e, [], t, d);
    assert [] + [t] == [t];
    DivideBack(t.value[d], e(t.score), e(t.score) * t.value[d]);
  }
}
