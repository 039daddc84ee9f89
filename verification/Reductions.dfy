/** The xor-butterfly warp reduction and the two-stage block reduction, for any
    commutative monoid; the kernels use them with real addition and with maximum. */
module Reductions {
  import opened Arith
  import opened Softmax

  const WARP_SIZE: nat := 32

  ghost predicate Monoid<T(!new)>(op: (T, T) -> T, unit: T) {
    && (forall x :: op(x, unit) == x)
    && (forall x, y :: op(x, y) == op(y, x))
    && (forall x, y, z :: Assoc(op, x, y, z))
  }

  ghost predicate Assoc<T>(op: (T, T) -> T, x: T, y: T, z: T) { op(op(x, y), z) == op(x, op(y, z)) }

  /** v[r] op v[r + step] op v[r + 2 * step] op ... */
  function StrideFold<T>(op: (T, T) -> T, unit: T, v: seq<T>, r: nat, step: nat): T
    requires step > 0
    decreases |v| - r
  {
    if r >= |v| then unit else op(v[r], StrideFold(op, unit, v, r + step, step))
  }

  /** All values of a sequence combined from the first to the last. */
  function FoldAll<T>(op: (T, T) -> T, unit: T, v: seq<T>): T { StrideFold(op, unit, v, 0, 1) }

  lemma OneValue<T(!new)>(op: (T, T) -> T, unit: T, x: T)
    requires Monoid(op, unit)
    ensures FoldAll(op, unit, [x]) == x
  {
    assert StrideFold(op, unit, [x], 1, 1) == unit;
  }

  /** A stride class splits into the two classes of the doubled stride. */
  lemma {:induction false} StrideSplits<T(!new)>(op: (T, T) -> T, unit: T, v: seq<T>, r: nat, step: nat)
    requires Monoid(op, unit) && step > 0
    ensures StrideFold(op, unit, v, r, step)
         == op(StrideFold(op, unit, v, r, 2 * step), StrideFold(op, unit, v, r + step, 2 * step))
    decreases |v| - r
  {
    if r < |v| {
      StrideSplits(op, unit, v, r + step, step);
      var a, b := StrideFold(op, unit, v, r + step, 2 * step), StrideFold(op, unit, v, r + 2 * step, 2 * step);
      assert r + step + step == r + 2 * step;
      assert op(a, b) == op(b, a);
      assert Assoc(op, v[r], b, a);
    } else {
      assert StrideFold(op, unit, v, r + step, 2 * step) == unit;
    }
  }

  /** The lane a shuffle with xor mask `offset` (a power of two) reads from. */
  function ShflXorLane(lane: nat, offset: nat): nat
    requires offset > 0
  {
    if (lane / offset) % 2 == 0 then lane + offset else lane - LaneDrop(lane, offset)
  }

  function LaneDrop(lane: nat, offset: nat): (d: nat)
    requires offset > 0 && (lane / offset) % 2 != 0
    ensures d == offset && d <= lane
  {
    assert lane / offset >= 1;
    assert lane == offset * (lane / offset) + lane % offset;
    offset
  }

  predicate PowerOfTwo(n: nat) { n == 1 || (n > 1 && n % 2 == 0 && PowerOfTwo(n / 2)) }

  /** Where lane q * 2h + s sits relative to strides h and 2h. */
  lemma LaneClass(lane: nat, h: nat, q: nat, s: nat)
    requires h > 0 && lane == q * (2 * h) + s && s < 2 * h
    ensures lane % (2 * h) == s
    ensures s < h ==> lane / h == 2 * q && lane % h == s
    ensures s >= h ==> lane / h == 2 * q + 1 && lane % h == s - h
  {
    DivModIs(lane, 2 * h, q, s);
    assert q * (2 * h) == (2 * q) * h;
    if s < h {
      DivModIs(lane, h, 2 * q, s);
    } else {
      assert (2 * q + 1) * h == (2 * q) * h + h;
      DivModIs(lane, h, 2 * q + 1, s - h);
    }
  }

  /** The lane and its partner in the halves of their group of 2h. */
  lemma PartnerIs(lane: nat, h: nat, q: nat, s: nat)
    requires h > 0 && lane == q * (2 * h) + s && s < 2 * h
    ensures ShflXorLane(lane, h) == if s < h then lane + h else lane - h
    ensures lane / h == if s < h then 2 * q else 2 * q + 1
    ensures lane % (2 * h) == s && lane % h == if s < h then s else s - h
  {
    LaneClass(lane, h, q, s);
  }

  /** The partner lane is the other member of the lane's pair of stride classes,
      and the exchange is its own inverse. */
  lemma PartnerClass(lane: nat, h: nat)
    requires h > 0
    ensures var p, r := ShflXorLane(lane, h), lane % h;
            && ShflXorLane(p, h) == lane
            && (if p > lane then lane % (2 * h) == r && p % (2 * h) == r + h
                else lane % (2 * h) == r + h && p % (2 * h) == r)
  {
    hide ShflXorLane;
    DivisionOfNat(lane, 2 * h);
    var q, s := lane / (2 * h), lane % (2 * h);
    DivModOf(lane, 2 * h);
    PartnerIs(lane, h, q, s);
    PartnerIs(if s < h then lane + h else lane - h, h, q, if s < h then s + h else s - h);
  }

  /** The lanes are whole groups of 2h, so the partner is one of them. */
  lemma PartnerInWarp(lane: nat, h: nat, groups: nat)
    requires h > 0 && lane < groups * (2 * h)
    ensures ShflXorLane(lane, h) < groups * (2 * h)
  {
    hide ShflXorLane;
    DivBelow(lane, groups, 2 * h);
    var q, s := lane / (2 * h), lane % (2 * h);
    DivModOf(lane, 2 * h);
    PartnerIs(lane, h, q, s);
    RowFits(q, groups, 2 * h);
  }

  /** One __shfl_xor_sync exchange: all lanes read before any lane writes. */
  method Exchange<T>(lanes: array<T>, op: (T, T) -> T, offset: nat, ghost groups: nat)
    requires offset > 0 && lanes.Length == groups * (2 * offset)
    modifies lanes
    ensures forall i :: 0 <= i < lanes.Length ==> ShflXorLane(i, offset) < lanes.Length
    ensures forall i :: 0 <= i < lanes.Length ==> lanes[i] == op(old(lanes[i]), old(lanes[ShflXorLane(i, offset)]))
  {
    hide ShflXorLane;
    var before := lanes[..];
    forall i | 0 <= i < lanes.Length ensures ShflXorLane(i, offset) < lanes.Length {
      PartnerInWarp(i, offset, groups);
    }
    for lane := 0 to lanes.Length
      invariant forall i :: lane <= i < lanes.Length ==> lanes[i] == before[i]
      invariant forall i :: 0 <= i < lane ==> lanes[i] == op(before[i], before[ShflXorLane(i, offset)])
    {
      lanes[lane] := op(before[lane], before[ShflXorLane(lane, offset)]);
    }
  }

  /** The butterfly with offsets n/2, ..., 2, 1: every lane holds the combination of all n
      lanes, for every power of two n. */
  method WarpReduce<T(!new)>(lanes: array<T>, op: (T, T) -> T, ghost unit: T)
    requires PowerOfTwo(lanes.Length) && Monoid(op, unit)
    modifies lanes
    ensures forall i :: 0 <= i < lanes.Length ==> lanes[i] == FoldAll(op, unit, old(lanes[..]))
  {
    hide Monoid;
    ghost var v := lanes[..];
    var offset := lanes.Length / 2;
    ghost var step: nat, groups: nat := lanes.Length, 1;
    SingleLanes(op, unit, v);
    while offset > 0
      invariant PowerOfTwo(step) && offset == step / 2 && lanes.Length == groups * step
      invariant forall i :: 0 <= i < lanes.Length ==> lanes[i] == StrideFold(op, unit, v, i % step, step)
    {
      assert step == 2 * offset;
      ShuffleStep(lanes, op, unit, v, offset, groups);
      assert groups * (2 * offset) == (2 * groups) * offset by { MulAssociates(groups, 2, offset); }
      step, groups := offset, 2 * groups;
      offset := offset / 2;
    }
    assert step == 1;
  }

  /** Before the first exchange a lane holds its own value alone. */
  lemma SingleLanes<T(!new)>(op: (T, T) -> T, unit: T, v: seq<T>)
    requires Monoid(op, unit) && |v| > 0
    ensures forall i :: 0 <= i < |v| ==> v[i] == StrideFold(op, unit, v, i % |v|, |v|)
  {
    forall i | 0 <= i < |v| ensures v[i] == StrideFold(op, unit, v, i % |v|, |v|) {
      DivModIs(i, |v|, 0, i);
      assert StrideFold(op, unit, v, i + |v|, |v|) == unit;
    }
  }

  /** One exchange of the butterfly halves the stride of what a lane holds. */
  method ShuffleStep<T(!new)>(lanes: array<T>, op: (T, T) -> T, ghost unit: T, ghost v: seq<T>, offset: nat,
                              ghost groups: nat)
    requires offset > 0 && |v| == lanes.Length == groups * (2 * offset) && Monoid(op, unit)
    requires forall i :: 0 <= i < lanes.Length ==> lanes[i] == StrideFold(op, unit, v, i % (2 * offset), 2 * offset)
    modifies lanes
    ensures forall i :: 0 <= i < lanes.Length ==> lanes[i] == StrideFold(op, unit, v, i % offset, offset)
  {
    hide ShflXorLane, StrideFold;
    Exchange(lanes, op, offset, groups);
    forall i | 0 <= i < lanes.Length ensures lanes[i] == StrideFold(op, unit, v, i % offset, offset) {
      PartnerClass(i, offset);
      StrideSplits(op, unit, v, i % offset, offset);
    }
  }

  lemma GroupInside(lane: nat, width: nat, groups: nat)
    requires width > 0 && lane < groups * width
    ensures 0 <= lane / width * width && lane / width * width + width <= groups * width
  {
    DivModOf(lane, width);
    if lane / width >= groups {
      MulMono(groups, lane / width, width);
    }
    RowFits(lane / width, groups, width);
  }

  /** The values of the lane's group of `width` neighbours. */
  function Group<T>(v: seq<T>, lane: nat, width: nat, groups: nat): (s: seq<T>)
    requires width > 0 && |v| == groups * width && lane < |v|
    ensures |s| == width
  {
    GroupInside(lane, width, groups);
    v[lane / width * width..lane / width * width + width]
  }

  /** A slice of width 2h is its two halves. */
  lemma TwoHalves<T>(v: seq<T>, q: nat, h: nat)
    requires q * (2 * h) + 2 * h <= |v|
    ensures 2 * q * h == q * (2 * h) && (2 * q + 1) * h == q * (2 * h) + h
    ensures v[q * (2 * h)..q * (2 * h) + 2 * h]
         == v[2 * q * h..2 * q * h + h] + v[(2 * q + 1) * h..(2 * q + 1) * h + h]
  {
    MulAssociates(q, 2, h);
    assert (2 * q + 1) * h == 2 * q * h + h;
  }

  /** The doubled group is the lane's group and its partner's, in some order. */
  lemma GroupDoubles<T>(v: seq<T>, lane: nat, h: nat, groups: nat)
    requires h > 0 && |v| == groups * (2 * h) == (2 * groups) * h && lane < |v|
    ensures var p := ShflXorLane(lane, h);
            && p < |v|
            && (|| Group(v, lane, 2 * h, groups) == Group(v, lane, h, 2 * groups) + Group(v, p, h, 2 * groups)
                || Group(v, lane, 2 * h, groups) == Group(v, p, h, 2 * groups) + Group(v, lane, h, 2 * groups))
  {
    hide ShflXorLane;
    DivBelow(lane, groups, 2 * h);
    DivModOf(lane, 2 * h);
    PartnerInWarp(lane, h, groups);
    var q, s := lane / (2 * h), lane % (2 * h);
    PartnerIs(lane, h, q, s);
    PartnerIs(if s < h then lane + h else lane - h, h, q, if s < h then s + h else s - h);
    GroupInside(lane, 2 * h, groups);
    TwoHalves(v, q, h);
  }

  /** One exchange with growing offsets doubles the group a lane has combined. */
  method GroupStep<T(!new)>(lanes: array<T>, op: (T, T) -> T, ghost unit: T, ghost v: seq<T>, offset: nat,
                            ghost groups: nat)
    requires offset > 0 && |v| == lanes.Length == groups * (2 * offset) == (2 * groups) * offset && Monoid(op, unit)
    requires forall i :: 0 <= i < lanes.Length ==> lanes[i] == FoldAll(op, unit, Group(v, i, offset, 2 * groups))
    modifies lanes
    ensures forall i :: 0 <= i < lanes.Length ==> lanes[i] == FoldAll(op, unit, Group(v, i, 2 * offset, groups))
  {
    hide ShflXorLane, FoldAll, Group;
    Exchange(lanes, op, offset, groups);
    forall i | 0 <= i < lanes.Length ensures lanes[i] == FoldAll(op, unit, Group(v, i, 2 * offset, groups)) {
      var mine, other := Group(v, i, offset, 2 * groups), Group(v, ShflXorLane(i, offset), offset, 2 * groups);
      GroupDoubles(v, i, offset, groups);
      FoldAppend(op, unit, mine, other);
      FoldAppend(op, unit, other, mine);
      var x, y := FoldAll(op, unit, mine), FoldAll(op, unit, other);
      assert op(x, y) == op(y, x);
    }
  }

  /** The row reductions of the flash kernel, offsets 1 and 2: every lane holds the
      combination of the four lanes that share its row. */
  method RowReduce4<T(!new)>(lanes: array<T>, op: (T, T) -> T, ghost unit: T, ghost rows: nat)
    requires lanes.Length == rows * 4 && Monoid(op, unit)
    modifies lanes
    ensures forall i :: 0 <= i < lanes.Length ==>
              lanes[i] == FoldAll(op, unit, old(lanes[..])[i / 4 * 4..i / 4 * 4 + 4])
  {
    hide Monoid;
    ghost var v := lanes[..];
    forall i | 0 <= i < |v| ensures v[i] == FoldAll(op, unit, Group(v, i, 1, 4 * rows)) {
      assert Group(v, i, 1, 4 * rows) == [v[i]];
      OneValue(op, unit, v[i]);
    }
    GroupStep(lanes, op, unit, v, 1, 2 * rows);
    GroupStep(lanes, op, unit, v, 2, rows);
  }

  /** BlockReduceMax / BlockReduceSum: a butterfly per warp, one entry per warp in
      `scratch`, a second butterfly over those entries in warp 0, and a broadcast
      through scratch[0].  `value` holds one value per thread. */
  method BlockReduce<T(!new)>(value: array<T>, scratch: array<T>, op: (T, T) -> T, unit: T, numWarps: nat)
    requires 1 <= numWarps <= WARP_SIZE && value.Length == numWarps * WARP_SIZE
    requires scratch.Length >= WARP_SIZE && value != scratch
    requires Monoid(op, unit)
    modifies value, scratch
    ensures forall t :: 0 <= t < value.Length ==> value[t] == FoldAll(op, unit, old(value[..]))
  {
    ghost var v := value[..];
    ghost var totals: seq<T> := [];
    for warp := 0 to numWarps
      invariant |totals| == warp
      invariant forall w :: 0 <= w < warp ==> totals[w] == FoldAll(op, unit, Warp(v, w))
      invariant forall w :: 0 <= w < warp ==> scratch[w] == totals[w]
      invariant value[..] == v
    {
      var lanes := new T[WARP_SIZE](i requires 0 <= i < WARP_SIZE && warp < numWarps reads value =>
        value[warp * WARP_SIZE + i]);
      assert lanes[..] == Warp(v, warp);
      WarpReduce(lanes, op, unit);
      scratch[warp] := lanes[0];
      totals := totals + [lanes[0]];
    }
    var lanes := new T[WARP_SIZE](i requires 0 <= i < WARP_SIZE reads scratch =>
      if i < numWarps then scratch[i] else unit);
    assert lanes[..] == Padded(totals, unit);
    WarpReduce(lanes, op, unit);
    scratch[0] := lanes[0];
    BlockTotal(op, unit, v, totals, numWarps);
    forall t | 0 <= t < value.Length {
      value[t] := scratch[0];
    }
  }

  /** The values of warp `w` in a block's per-thread values. */
  function Warp<T>(v: seq<T>, w: nat): (s: seq<T>)
    requires (w + 1) * WARP_SIZE <= |v|
    ensures |s| == WARP_SIZE
  {
    v[w * WARP_SIZE..(w + 1) * WARP_SIZE]
  }

  /** Warp totals padded with the unit to a full warp. */
  function Padded<T>(totals: seq<T>, unit: T): (s: seq<T>)
    requires |totals| <= WARP_SIZE
    ensures |s| == WARP_SIZE
  {
    totals + seq(WARP_SIZE - |totals|, i => unit)
  }

  lemma {:induction false} FoldFrom<T(!new)>(op: (T, T) -> T, unit: T, v: seq<T>, r: nat)
    requires r <= |v|
    ensures StrideFold(op, unit, v, r, 1) == FoldAll(op, unit, v[r..])
    decreases |v| - r
  {
    if r < |v| {
      FoldFrom(op, unit, v, r + 1);
      FoldFrom(op, unit, v[r..], 1);
      assert v[r..][1..] == v[r + 1..];
    }
  }

  lemma {:induction false} FoldAppend<T(!new)>(op: (T, T) -> T, unit: T, a: seq<T>, b: seq<T>)
    requires Monoid(op, unit)
    ensures FoldAll(op, unit, a + b) == op(FoldAll(op, unit, a), FoldAll(op, unit, b))
  {
    if a == [] {
      assert a + b == b;
      assert op(unit, FoldAll(op, unit, b)) == op(FoldAll(op, unit, b), unit);
    } else {
      FoldAppend(op, unit, a[1..], b);
      FoldFrom(op, unit, a + b, 1);
      FoldFrom(op, unit, a, 1);
      assert (a + b)[1..] == a[1..] + b;
      assert Assoc(op, a[0], FoldAll(op, unit, a[1..]), FoldAll(op, unit, b));
    }
  }

  lemma {:induction false} FoldUnits<T(!new)>(op: (T, T) -> T, unit: T, n: nat)
    requires Monoid(op, unit)
    ensures FoldAll(op, unit, seq(n, i => unit)) == unit
  {
    var s := seq(n, i => unit);
    if n > 0 {
      FoldUnits(op, unit, n - 1);
      FoldFrom(op, unit, s, 1);
      assert s[1..] == seq(n - 1, i => unit);
    }
  }

  /** The fold of the warp totals is the fold of all the threads' values. */
  lemma {:induction false} WarpTotals<T(!new)>(op: (T, T) -> T, unit: T, v: seq<T>, totals: seq<T>, n: nat)
    requires Monoid(op, unit) && n * WARP_SIZE <= |v| && n <= |totals|
    requires forall w :: 0 <= w < n ==> totals[w] == FoldAll(op, unit, v[w * WARP_SIZE..(w + 1) * WARP_SIZE])
    ensures FoldAll(op, unit, totals[..n]) == FoldAll(op, unit, v[..n * WARP_SIZE])
  {
    if n > 0 {
      WarpTotals(op, unit, v, totals, n - 1);
      var lo, hi := (n - 1) * WARP_SIZE, n * WARP_SIZE;
      assert totals[..n] == totals[..n - 1] + [totals[n - 1]];
      assert v[..hi] == v[..lo] + v[lo..hi];
      FoldAppend(op, unit, totals[..n - 1], [totals[n - 1]]);
      FoldAppend(op, unit, v[..lo], v[lo..hi]);
      OneValue(op, unit, totals[n - 1]);
    }
  }

  lemma BlockTotal<T(!new)>(op: (T, T) -> T, unit: T, v: seq<T>, totals: seq<T>, n: nat)
    requires Monoid(op, unit) && n * WARP_SIZE == |v| && n == |totals| <= WARP_SIZE
    requires forall w :: 0 <= w < n ==> totals[w] == FoldAll(op, unit, v[w * WARP_SIZE..(w + 1) * WARP_SIZE])
    ensures FoldAll(op, unit, Padded(totals, unit)) == FoldAll(op, unit, v)
  {
    WarpTotals(op, unit, v, totals, n);
    assert totals[..n] == totals && v[..n * WARP_SIZE] == v;
    FoldAppend(op, unit, totals, seq(WARP_SIZE - n, i => unit));
    FoldUnits(op, unit, WARP_SIZE - n);
    assert op(FoldAll(op, unit, v), unit) == FoldAll(op, unit, v);
  }

  // ---------------------------------------------------------------------------
  // The two reductions the kernels use, and what their results mean
  // ---------------------------------------------------------------------------

  function Add(x: real, y: real): real { x + y }

  lemma AddIsMonoid()
    ensures Monoid(Add, 0.0)
  {
  }

  lemma MaxIsMonoid()
    ensures Monoid(Max, NegInf)
  {
  }

  /** m is at least every value, and one of them unless all are -inf. */
  ghost predicate IsMaximum(m: Ext, v: seq<Ext>) {
    && (forall i :: 0 <= i < |v| ==> Max(v[i], m) == m)
    && (m.Fin? ==> m in v)
  }

  lemma {:induction false} FoldMaxIsMaximum(v: seq<Ext>)
    ensures IsMaximum(FoldAll(Max, NegInf, v), v)
  {
    if v != [] {
      FoldMaxIsMaximum(v[1..]);
      FoldFrom(Max, NegInf, v, 1);
      var rest := FoldAll(Max, NegInf, v[1..]);
      forall i | 0 <= i < |v| ensures Max(v[i], Max(v[0], rest)) == Max(v[0], rest) {
        if i > 0 {
          assert Max(v[1..][i - 1], rest) == rest;
        }
      }
    }
  }

  method BlockReduceMax(value: array<Ext>, scratch: array<Ext>, numWarps: nat)
    requires 1 <= numWarps <= WARP_SIZE && value.Length == numWarps * WARP_SIZE
    requires scratch.Length >= WARP_SIZE && value != scratch
    modifies value, scratch
    ensures exists m :: IsMaximum(m, old(value[..])) && forall t :: 0 <= t < value.Length ==> value[t] == m
    ensures forall t :: 0 <= t < value.Length ==> value[t] == FoldAll(Max, NegInf, old(value[..]))
  {
    MaxIsMonoid();
    FoldMaxIsMaximum(value[..]);
    hide Monoid, IsMaximum, FoldAll;
    BlockReduce(value, scratch, Max, NegInf, numWarps);
  }

  method BlockReduceSum(value: array<real>, scratch: array<real>, numWarps: nat)
    requires 1 <= numWarps <= WARP_SIZE && value.Length == numWarps * WARP_SIZE
    requires scratch.Length >= WARP_SIZE && value != scratch
    modifies value, scratch
    ensures forall t :: 0 <= t < value.Length ==> value[t] == FoldAll(Add, 0.0, old(value[..]))
  {
    AddIsMonoid();
    hide Monoid, FoldAll;
    BlockReduce(value, scratch, Add, 0.0, numWarps);
  }

  // ---------------------------------------------------------------------------
  // Block-strided loops: thread t handles elements t, t + threads, t + 2 * threads, ...
  // ---------------------------------------------------------------------------

  /** The threads' own folds of a block-strided loop. */
  function StridedFolds<T>(op: (T, T) -> T, unit: T, v: seq<T>, threads: nat): (s: seq<T>)
    ensures |s| == threads
    ensures forall t :: 0 <= t < threads ==> s[t] == StrideFold(op, unit, v, t, threads)
  {
    seq(threads, t requires 0 <= t < threads => StrideFold(op, unit, v, t, threads))
  }

  function Zipped<T>(op: (T, T) -> T, a: seq<T>, b: seq<T>): (s: seq<T>)
    requires |a| == |b|
    ensures |s| == |a|
    ensures forall i :: 0 <= i < |a| ==> s[i] == op(a[i], b[i])
  {
    seq(|a|, i requires 0 <= i < |a| => op(a[i], b[i]))
  }

  lemma {:induction false} FoldZipped<T(!new)>(op: (T, T) -> T, unit: T, a: seq<T>, b: seq<T>)
    requires Monoid(op, unit) && |a| == |b|
    ensures FoldAll(op, unit, Zipped(op, a, b)) == op(FoldAll(op, unit, a), FoldAll(op, unit, b))
  {
    var s := Zipped(op, a, b);
    if a != [] {
      FoldZipped(op, unit, a[1..], b[1..]);
      assert s[1..] == Zipped(op, a[1..], b[1..]);
      FoldFrom(op, unit, s, 1);
      FoldFrom(op, unit, a, 1);
      FoldFrom(op, unit, b, 1);
      Interchange(op, unit, a[0], b[0], FoldAll(op, unit, a[1..]), FoldAll(op, unit, b[1..]));
    }
  }

  lemma Interchange<T(!new)>(op: (T, T) -> T, unit: T, a: T, b: T, x: T, y: T)
    requires Monoid(op, unit)
    ensures op(op(a, b), op(x, y)) == op(op(a, x), op(b, y))
  {
    assert Assoc(op, a, b, op(x, y));
    assert Assoc(op, b, x, y);
    assert op(b, x) == op(x, b);
    assert Assoc(op, x, b, y);
    assert Assoc(op, a, x, op(b, y));
  }

  /** Leaving out the first `threads` elements moves every class up by one round. */
  lemma {:induction false} StrideShift<T(!new)>(op: (T, T) -> T, unit: T, v: seq<T>, r: nat, step: nat, cut: nat)
    requires step > 0 && cut <= |v|
    ensures StrideFold(op, unit, v, r + cut, step) == StrideFold(op, unit, v[cut..], r, step)
    decreases |v| - r
  {
    if r + cut < |v| {
      StrideShift(op, unit, v, r + step, step, cut);
      assert r + cut + step == r + step + cut;
    }
  }

  /** However many threads share a block-strided loop, their folds combine to the fold of
      all elements. */
  lemma {:induction false} ThreadsCombine<T(!new)>(op: (T, T) -> T, unit: T, v: seq<T>, threads: nat)
    requires Monoid(op, unit) && threads > 0
    ensures FoldAll(op, unit, StridedFolds(op, unit, v, threads)) == FoldAll(op, unit, v)
    decreases |v|
  {
    var s := StridedFolds(op, unit, v, threads);
    if |v| < threads {
      var units := seq(threads - |v|, i => unit);
      forall t | 0 <= t < threads ensures s[t] == (v + units)[t] {
        if t < |v| {
          assert StrideFold(op, unit, v, t + threads, threads) == unit;
        }
      }
      assert s == v + units;
      FoldAppend(op, unit, v, units);
      FoldUnits(op, unit, threads - |v|);
    } else {
      var rest := StridedFolds(op, unit, v[threads..], threads);
      ThreadsCombine(op, unit, v[threads..], threads);
      forall t | 0 <= t < threads ensures s[t] == Zipped(op, v[..threads], rest)[t] {
        StrideShift(op, unit, v, t, threads, threads);
      }
      assert s == Zipped(op, v[..threads], rest);
      FoldZipped(op, unit, v[..threads], rest);
      FoldAppend(op, unit, v[..threads], v[threads..]);
      assert v[..threads] + v[threads..] == v;
    }
  }
}
