/** Merging any number of partial states at once, as the reduce pass does: all are
    rescaled to one common maximum and summed. */
module SplitMerge {
  import opened Softmax
  import opened OnlineSoftmax

  function MaxOf(ps: seq<Partial>): (m: Ext)
    ensures forall i :: 0 <= i < |ps| && ps[i].m.Fin? ==> m.Fin? && ps[i].m.r <= m.r
  {
    if ps == [] then NegInf else Max(MaxOf(ps[..|ps| - 1]), ps[|ps| - 1].m)
  }

  /** Sum of x_s * e(m_s - mAll) over the splits that saw a token. */
  function RescaledTotal(e: real -> real, ms: seq<Ext>, xs: seq<real>, mAll: Ext): real
    requires |ms| == |xs|
    requires forall i :: 0 <= i < |ms| && ms[i].Fin? ==> mAll.Fin? && ms[i].r <= mAll.r
  {
    if ms == [] then 0.0
    else
      var n := |ms| - 1;
      var before := RescaledTotal(e, ms[..n], xs[..n], mAll);
      if ms[n].NegInf? then before else before + xs[n] * FastExp(e, ms[n].r - mAll.r)
  }

  function AbsoluteTotal(e: real -> real, ms: seq<Ext>, xs: seq<real>): real
    requires |ms| == |xs|
  {
    if ms == [] then 0.0
    else AbsoluteTotal(e, ms[..|ms| - 1], xs[..|ms| - 1]) + Scaled(e, ms[|ms| - 1], xs[|ms| - 1])
  }

  lemma {:induction false} TotalIsAbsolute(e: real -> real, ms: seq<Ext>, xs: seq<real>, mAll: Ext)
    requires IsExp(e) && |ms| == |xs|
    requires forall i :: 0 <= i < |ms| && ms[i].Fin? ==> mAll.Fin? && ms[i].r <= mAll.r
    ensures Scaled(e, mAll, RescaledTotal(e, ms, xs, mAll)) == AbsoluteTotal(e, ms, xs)
  {
    if ms != [] {
      var n := |ms| - 1;
      TotalIsAbsolute(e, ms[..n], xs[..n], mAll);
      if ms[n].Fin? {
        Rescale(e, ms[n].r, mAll.r);
        Combine(RescaledTotal(e, ms, xs, mAll), RescaledTotal(e, ms[..n], xs[..n], mAll),
                FastExp(e, ms[n].r - mAll.r), xs[n], e(mAll.r), AbsoluteTotal(e, ms[..n], xs[..n]), e(ms[n].r));
      }
    }
  }

  function Maxima(ps: seq<Partial>): (ms: seq<Ext>)
    ensures |ms| == |ps|
    ensures forall i :: 0 <= i < |ps| ==> ms[i] == ps[i].m
  {
    seq(|ps|, i requires 0 <= i < |ps| => ps[i].m)
  }

  function Sums(ps: seq<Partial>): (ls: seq<real>)
    ensures |ls| == |ps|
    ensures forall i :: 0 <= i < |ps| ==> ls[i] == ps[i].l
  {
    seq(|ps|, i requires 0 <= i < |ps| => ps[i].l)
  }

  function Coordinates(ps: seq<Partial>, d: nat): (os: seq<real>)
    requires forall i :: 0 <= i < |ps| ==> d < |ps[i].o|
    ensures |os| == |ps|
    ensures forall i :: 0 <= i < |ps| ==> os[i] == ps[i].o[d]
  {
    seq(|ps|, i requires 0 <= i < |ps| => ps[i].o[d])
  }

  /** The merge of the reduce pass, before the division. */
  function MergeAll(e: real -> real, ps: seq<Partial>, dim: nat): (r: Partial)
    requires forall i :: 0 <= i < |ps| ==> |ps[i].o| == dim
    ensures |r.o| == dim
  {
    var mAll := MaxOf(ps);
    Partial(mAll, RescaledTotal(e, Maxima(ps), Sums(ps), mAll),
            seq(dim, d requires 0 <= d < dim => RescaledTotal(e, Maxima(ps), Coordinates(ps, d), mAll)))
  }

  function Flatten(tss: seq<seq<Token>>): seq<Token> {
    if tss == [] then [] else Flatten(tss[..|tss| - 1]) + tss[|tss| - 1]
  }

  ghost predicate AllRepresent(e: real -> real, ps: seq<Partial>, tss: seq<seq<Token>>, dim: nat) {
    |ps| == |tss| && forall i :: 0 <= i < |ps| ==> Represents(e, ps[i], tss[i], dim)
  }

  lemma {:induction false} FlattenShaped(tss: seq<seq<Token>>, dim: nat)
    requires forall i :: 0 <= i < |tss| ==> WellShaped(tss[i], dim)
    ensures WellShaped(Flatten(tss), dim)
  {
    if tss != [] {
      FlattenShaped(tss[..|tss| - 1], dim);
    }
  }

  lemma {:induction false} MaxOfFlatten(e: real -> real, ps: seq<Partial>, tss: seq<seq<Token>>, dim: nat)
    requires AllRepresent(e, ps, tss, dim)
    ensures MaxOf(ps) == MaxScore(Flatten(tss))
  {
    if ps != [] {
      var n := |ps| - 1;
      MaxOfFlatten(e, ps[..n], tss[..n], dim);
      MaxScoreAppend(Flatten(tss[..n]), tss[n]);
    }
  }

  lemma {:induction false} AbsoluteSums(e: real -> real, ps: seq<Partial>, tss: seq<seq<Token>>, dim: nat)
    requires AllRepresent(e, ps, tss, dim)
    ensures AbsoluteTotal(e, Maxima(ps), Sums(ps)) == Weight(e, Flatten(tss), 0.0)
  {
    if ps != [] {
      hide Moment, Scaled;
      var n := |ps| - 1;
      AbsoluteSums(e, ps[..n], tss[..n], dim);
      WeightAppend(e, Flatten(tss[..n]), tss[n], 0.0);
      assert Maxima(ps)[..n] == Maxima(ps[..n]) && Sums(ps)[..n] == Sums(ps[..n]);
    }
  }

  lemma {:induction false} AbsoluteMoments(e: real -> real, ps: seq<Partial>, tss: seq<seq<Token>>, dim: nat, d: nat)
    requires AllRepresent(e, ps, tss, dim) && d < dim
    requires WellShaped(Flatten(tss), dim)
    ensures AbsoluteTotal(e, Maxima(ps), Coordinates(ps, d)) == Moment(e, Flatten(tss), 0.0, d)
  {
    if ps != [] {
      hide Weight, Scaled;
      var n := |ps| - 1;
      FlattenShaped(tss[..n], dim);
      AbsoluteMoments(e, ps[..n], tss[..n], dim, d);
      MomentAppend(e, Flatten(tss[..n]), tss[n], 0.0, d);
      assert Maxima(ps)[..n] == Maxima(ps[..n]) && Coordinates(ps, d)[..n] == Coordinates(ps[..n], d);
    }
  }

  lemma {:induction false} EmptyTotals(e: real -> real, ms: seq<Ext>, xs: seq<real>, mAll: Ext)
    requires |ms| == |xs| && forall i :: 0 <= i < |ms| ==> ms[i].NegInf?
    ensures RescaledTotal(e, ms, xs, mAll) == 0.0
  {
    if ms != [] {
      EmptyTotals(e, ms[..|ms| - 1], xs[..|ms| - 1], mAll);
    }
  }

  lemma EmptyMerge(e: real -> real, ps: seq<Partial>, dim: nat)
    requires forall i :: 0 <= i < |ps| ==> |ps[i].o| == dim
    requires MaxOf(ps).NegInf?
    ensures MergeAll(e, ps, dim) == Identity(dim)
  {
    EmptyTotals(e, Maxima(ps), Sums(ps), NegInf);
    forall d | 0 <= d < dim ensures MergeAll(e, ps, dim).o[d] == 0.0 {
      EmptyTotals(e, Maxima(ps), Coordinates(ps, d), NegInf);
    }
    assert MergeAll(e, ps, dim).o == Identity(dim).o;
  }

  /** The merged state stands for the concatenation of what its parts stand for,
      however the tokens were cut into parts. */
  lemma MergeAllRepresents(e: real -> real, ps: seq<Partial>, tss: seq<seq<Token>>, dim: nat)
    requires IsExp(e) && AllRepresent(e, ps, tss, dim)
    ensures Represents(e, MergeAll(e, ps, dim), Flatten(tss), dim)
  {
    hide Scaled, Weight, Moment, RescaledTotal, AbsoluteTotal;
    var r, ts := MergeAll(e, ps, dim), Flatten(tss);
    FlattenShaped(tss, dim);
    MaxOfFlatten(e, ps, tss, dim);
    AbsoluteSums(e, ps, tss, dim);
    TotalIsAbsolute(e, Maxima(ps), Sums(ps), r.m);
    forall d | 0 <= d < dim ensures Scaled(e, r.m, r.o[d]) == Moment(e, ts, 0.0, d) {
      AbsoluteMoments(e, ps, tss, dim, d);
      TotalIsAbsolute(e, Maxima(ps), Coordinates(ps, d), r.m);
    }
    if r.m.NegInf? {
      EmptyMerge(e, ps, dim);
    }
  }
}
