/** The slice allocator over one scratch buffer: callers ask for byte ranges, and a range
    is either new and disjoint from all others, or an exact repeat. */
module Workspaces {

  /** A half-open byte range of the buffer. */
  datatype Span = Span(begin: nat, end: nat)

  predicate Disjoint(a: Span, b: Span) { a.end <= b.begin || a.begin >= b.end }

  /** Arguments of one Slice call. */
  datatype Request = Request(offset: nat, bytes: nat, align: nat)

  function SpanOf(q: Request): Span { Span(q.offset, q.offset + q.bytes) }

  /** Recorded slices, the peak, and every span ever granted, oldest first. */
  datatype Arena = Arena(size: nat, slices: seq<Span>, peak: nat, granted: seq<Span>)

  /** A non-empty, aligned range inside the buffer. */
  predicate Legal(size: nat, q: Request) {
    q.bytes > 0 && q.align > 0 && q.offset % q.align == 0 && q.offset <= size && q.bytes <= size - q.offset
  }

  /** When a request is granted. */
  ghost predicate Grants(a: Arena, q: Request) {
    Legal(a.size, q) && (SpanOf(q) in a.slices || forall s :: s in a.slices ==> Disjoint(SpanOf(q), s))
  }

  /** The state after a request. */
  ghost function After(a: Arena, q: Request): Arena {
    if !Grants(a, q) then a
    else a.(slices := if SpanOf(q) in a.slices then a.slices else a.slices + [SpanOf(q)],
            peak := if a.peak < SpanOf(q).end then SpanOf(q).end else a.peak,
            granted := a.granted + [SpanOf(q)])
  }

  ghost function Cleared(a: Arena): Arena { a.(slices := []) }

  // ---------------------------------------------------------------------------
  // What every call keeps
  // ---------------------------------------------------------------------------

  ghost predicate Inside(size: nat, s: Span) { s.begin < s.end <= size }

  /** Recorded slices are non-empty, in bounds, duplicate-free and pairwise disjoint. */
  ghost predicate Separate(size: nat, slices: seq<Span>) {
    && (forall i :: 0 <= i < |slices| ==> Inside(size, slices[i]))
    && (forall i, j :: 0 <= i < j < |slices| ==> slices[i] != slices[j] && Disjoint(slices[i], slices[j]))
  }

  /** The peak is the largest end ever granted, and zero before any grant. */
  ghost predicate PeakExact(peak: nat, granted: seq<Span>) {
    && (forall i :: 0 <= i < |granted| ==> granted[i].end <= peak)
    && (peak > 0 ==> exists i :: 0 <= i < |granted| && granted[i].end == peak)
  }

  ghost predicate ArenaInv(a: Arena) {
    && Separate(a.size, a.slices)
    && PeakExact(a.peak, a.granted)
    && (forall s :: s in a.slices ==> s in a.granted)
  }

  lemma AfterInv(a: Arena, q: Request)
    requires ArenaInv(a)
    ensures ArenaInv(After(a, q))
  {
    var a' := After(a, q);
    if a' != a {
      if SpanOf(q) !in a.slices {
        assert Inside(a.size, SpanOf(q));
        assert forall i :: 0 <= i < |a.slices| ==> a.slices[i] in a.slices;
      }
      assert a'.granted[|a.granted|] == SpanOf(q);
      if a'.peak == a.peak && a.peak > 0 {
        var i :| 0 <= i < |a.granted| && a.granted[i].end == a.peak;
        assert a'.granted[i].end == a'.peak;
      }
    }
  }

  // ---------------------------------------------------------------------------
  // Whole runs
  // ---------------------------------------------------------------------------

  datatype Call = Take(q: Request) | Clear

  ghost function Step(a: Arena, c: Call): Arena {
    match c
    case Take(q) => After(a, q)
    case Clear => Cleared(a)
  }

  ghost function Run(a: Arena, calls: seq<Call>): Arena {
    if calls == [] then a else Step(Run(a, calls[..|calls| - 1]), calls[|calls| - 1])
  }

  ghost function Empty(size: nat): Arena { Arena(size, [], 0, []) }

  /** After any run of Slice and Reset the slices are separate and the peak is exact,
      across resets. */
  lemma {:induction false} RunInv(size: nat, calls: seq<Call>)
    ensures ArenaInv(Run(Empty(size), calls)) && Run(Empty(size), calls).size == size
  {
    if calls != [] {
      var before := Run(Empty(size), calls[..|calls| - 1]);
      RunInv(size, calls[..|calls| - 1]);
      match calls[|calls| - 1]
      case Take(q) => AfterInv(before, q);
      case Clear =>
    }
  }

  ghost function Takes(qs: seq<Request>): (calls: seq<Call>)
    ensures |calls| == |qs|
    ensures forall i :: 0 <= i < |qs| ==> calls[i] == Take(qs[i])
  {
    seq(|qs|, i requires 0 <= i < |qs| => Take(qs[i]))
  }

  /** The last request is granted after all the others were made. */
  ghost predicate GrantedLast(size: nat, qs: seq<Request>) {
    qs != [] && Grants(Run(Empty(size), Takes(qs[..|qs| - 1])), qs[|qs| - 1])
  }

  /** Every request of the list is granted when it is made. */
  ghost predicate AllGranted(size: nat, qs: seq<Request>) {
    qs != [] ==> AllGranted(size, qs[..|qs| - 1]) && GrantedLast(size, qs)
  }

  /** Two requests fit one workspace: the same bytes, or no byte in common. */
  predicate Compatible(p: Request, q: Request) { SpanOf(p) == SpanOf(q) || Disjoint(SpanOf(p), SpanOf(q)) }

  ghost predicate FitTogether(size: nat, qs: seq<Request>) {
    && (forall i :: 0 <= i < |qs| ==> Legal(size, qs[i]))
    && (forall i, j :: 0 <= i < j < |qs| ==> Compatible(qs[i], qs[j]))
  }

  ghost predicate RecordsAll(slices: seq<Span>, qs: seq<Request>) {
    && (forall i :: 0 <= i < |qs| ==> SpanOf(qs[i]) in slices)
    && (forall s :: s in slices ==> exists i :: 0 <= i < |qs| && SpanOf(qs[i]) == s)
  }

  lemma RunSnoc(size: nat, qs: seq<Request>)
    requires qs != []
    ensures Run(Empty(size), Takes(qs)) == After(Run(Empty(size), Takes(qs[..|qs| - 1])), qs[|qs| - 1])
  {
    assert Takes(qs)[..|qs| - 1] == Takes(qs[..|qs| - 1]);
  }

  /** Once every request was granted, the recorded slices are exactly their spans. */
  lemma {:induction false} GrantedAreRecorded(size: nat, qs: seq<Request>)
    requires AllGranted(size, qs)
    ensures RecordsAll(Run(Empty(size), Takes(qs)).slices, qs)
  {
    if qs == [] {
      assert Takes(qs) == [];
    } else {
      hide Run, Grants;
      var n := |qs| - 1;
      GrantedAreRecorded(size, qs[..n]);
      RunSnoc(size, qs);
      RecordSnoc(Run(Empty(size), Takes(qs[..n])), qs);
    }
  }

  lemma RecordSnoc(a: Arena, qs: seq<Request>)
    requires qs != [] && RecordsAll(a.slices, qs[..|qs| - 1]) && Grants(a, qs[|qs| - 1])
    ensures RecordsAll(After(a, qs[|qs| - 1]).slices, qs)
  {
    var n, slices := |qs| - 1, After(a, qs[|qs| - 1]).slices;
    forall s | s in slices ensures exists i :: 0 <= i < |qs| && SpanOf(qs[i]) == s {
      if s in a.slices {
        var i :| 0 <= i < n && SpanOf(qs[..n][i]) == s;
        assert SpanOf(qs[i]) == s;
      } else {
        assert SpanOf(qs[n]) == s;
      }
    }
    forall i | 0 <= i < |qs| ensures SpanOf(qs[i]) in slices {
      if i < n {
        assert SpanOf(qs[..n][i]) in a.slices;
      }
    }
  }

  /** A planned layout works exactly when each request is legal and any two are equal or
      disjoint; so the order in which the requests are made does not matter. */
  lemma {:induction false} GrantedExactly(size: nat, qs: seq<Request>)
    ensures AllGranted(size, qs) <==> FitTogether(size, qs)
  {
    if qs != [] {
      hide Run, Grants;
      GrantedExactly(size, qs[..|qs| - 1]);
      if FitTogether(size, qs) {
        FitPrefix(size, qs);
      }
      if FitTogether(size, qs[..|qs| - 1]) {
        LastFits(size, qs);
      }
    }
  }

  /** Only which requests are made matters, not their order or how often each is made. */
  lemma AnyOrder(size: nat, ps: seq<Request>, qs: seq<Request>)
    requires forall q :: q in ps <==> q in qs
    ensures AllGranted(size, ps) <==> AllGranted(size, qs)
  {
    GrantedExactly(size, ps);
    GrantedExactly(size, qs);
    FitsAsSet(size, ps);
    FitsAsSet(size, qs);
  }

  lemma FitsAsSet(size: nat, qs: seq<Request>)
    ensures FitTogether(size, qs) <==> (forall p, q :: p in qs && q in qs ==> Legal(size, p) && Compatible(p, q))
  {
    if FitTogether(size, qs) {
      forall p, q | p in qs && q in qs ensures Legal(size, p) && Compatible(p, q) {
        var i :| 0 <= i < |qs| && qs[i] == p;
        var j :| 0 <= j < |qs| && qs[j] == q;
        if i < j {
          assert Compatible(qs[i], qs[j]);
        } else if j < i {
          assert Compatible(qs[j], qs[i]);
        }
      }
    } else {
      assert forall i :: 0 <= i < |qs| ==> qs[i] in qs;
    }
  }

  lemma FitPrefix(size: nat, qs: seq<Request>)
    requires FitTogether(size, qs) && qs != []
    ensures FitTogether(size, qs[..|qs| - 1])
  {
  }

  /** Given that all but the last request were granted, the last one is granted exactly
      when the whole list fits together. */
  lemma LastFits(size: nat, qs: seq<Request>)
    requires qs != [] && AllGranted(size, qs[..|qs| - 1]) && FitTogether(size, qs[..|qs| - 1])
    ensures GrantedLast(size, qs) <==> FitTogether(size, qs)
  {
    hide Run;
    var n := |qs| - 1;
    var a := Run(Empty(size), Takes(qs[..n]));
    RunInv(size, Takes(qs[..n]));
    GrantedAreRecorded(size, qs[..n]);
    LastAgainstRecorded(a, qs);
  }

  lemma LastAgainstRecorded(a: Arena, qs: seq<Request>)
    requires qs != [] && ArenaInv(a) && RecordsAll(a.slices, qs[..|qs| - 1]) && FitTogether(a.size, qs[..|qs| - 1])
    ensures Grants(a, qs[|qs| - 1]) <==> FitTogether(a.size, qs)
  {
    var n, q := |qs| - 1, qs[|qs| - 1];
    assert forall i :: 0 <= i < n ==> qs[..n][i] == qs[i];
    if Grants(a, q) {
      forall i | 0 <= i < n ensures Compatible(qs[i], q) {
        assert SpanOf(qs[..n][i]) in a.slices;
        if SpanOf(q) in a.slices {
          RecordedApart(a, SpanOf(qs[i]), SpanOf(q));
        }
      }
    }
    if FitTogether(a.size, qs) && SpanOf(q) !in a.slices {
      forall s | s in a.slices ensures Disjoint(SpanOf(q), s) {
        var i :| 0 <= i < n && SpanOf(qs[..n][i]) == s;
        assert Compatible(qs[i], q);
      }
    }
  }

  lemma RecordedApart(a: Arena, s: Span, t: Span)
    requires ArenaInv(a) && s in a.slices && t in a.slices
    ensures s == t || Disjoint(s, t)
  {
    var i :| 0 <= i < |a.slices| && a.slices[i] == s;
    var j :| 0 <= j < |a.slices| && a.slices[j] == t;
    if i < j {
      assert Disjoint(a.slices[i], a.slices[j]);
    } else if j < i {
      assert Disjoint(a.slices[j], a.slices[i]);
    }
  }

  /** When a request is granted, over the recorded slices alone: any other slice must lie
      beside it. */
  lemma GrantsIs(a: Arena, q: Request)
    requires ArenaInv(a)
    ensures Grants(a, q) <==>
              && q.bytes > 0 && q.align > 0 && q.offset % q.align == 0 && q.offset + q.bytes <= a.size
              && forall s :: s in a.slices ==>
                   s == Span(q.offset, q.offset + q.bytes) || s.end <= q.offset || q.offset + q.bytes <= s.begin
  {
    if Grants(a, q) && SpanOf(q) in a.slices {
      forall s | s in a.slices ensures s == SpanOf(q) || Disjoint(SpanOf(q), s) {
        RecordedApart(a, s, SpanOf(q));
      }
    }
  }

  // ---------------------------------------------------------------------------
  // The class
  // ---------------------------------------------------------------------------

  datatype SliceResult = Granted(address: nat) | WorkspaceExceeded

  class Workspace {
    var ready: bool
    var bytes: nat
    var peakBytes: nat
    var slices: seq<Span>
    ghost var granted: seq<Span>

    ghost function State(): Arena reads this { Arena(bytes, slices, peakBytes, granted) }

    ghost predicate Valid() reads this { ArenaInv(State()) && (!ready ==> slices == []) }

    /** `bytes` of scratch memory, or an uninitialised workspace when the size is zero or
        the allocation fails. */
    constructor (size: nat, allocates: bool)
      ensures Valid() && ready == (size > 0 && allocates)
      ensures State() == Empty(if ready then size else 0)
    {
      ready := size > 0 && allocates;
      bytes := if size > 0 && allocates then size else 0;
      peakBytes, slices, granted := 0, [], [];
    }

    method Slice(offset: nat, size: nat, align: nat) returns (r: SliceResult)
      requires Valid()
      modifies this
      ensures Valid() && ready == old(ready)
      ensures r.Granted? <==> old(ready) && Grants(old(State()), Request(offset, size, align))
      ensures r.Granted? <==>
                && old(ready) && size > 0 && align > 0 && offset % align == 0 && offset + size <= old(bytes)
                && forall s :: s in old(slices) ==>
                     s == Span(offset, offset + size) || s.end <= offset || offset + size <= s.begin
      ensures r.Granted? ==> r.address == offset && align > 0 && r.address % align == 0
      ensures State() == if old(ready) then After(old(State()), Request(offset, size, align)) else old(State())
    {
      hide ArenaInv;
      GrantsIs(State(), Request(offset, size, align));
      if !ready || size == 0 { return WorkspaceExceeded; }
      if align == 0 || offset % align != 0 { return WorkspaceExceeded; }
      if offset > bytes || size > bytes - offset { return WorkspaceExceeded; }
      var begin, end := offset, offset + size;
      var overlaps, identical := Scan(begin, end);
      if overlaps && !identical { return WorkspaceExceeded; }
      AfterInv(State(), Request(offset, size, align));
      if !identical { slices := slices + [Span(begin, end)]; }
      peakBytes := if peakBytes < end then end else peakBytes;
      granted := granted + [Span(begin, end)];
      r := Granted(begin);
    }

    /** Whether [begin, end) meets a recorded slice, and whether it is one. */
    method Scan(begin: nat, end: nat) returns (overlaps: bool, identical: bool)
      ensures identical <==> Span(begin, end) in slices
      ensures overlaps <==> exists s :: s in slices && !Disjoint(Span(begin, end), s)
    {
      overlaps, identical := false, false;
      for i := 0 to |slices|
        invariant identical <==> Span(begin, end) in slices[..i]
        invariant overlaps <==> exists j :: 0 <= j < i && !Disjoint(Span(begin, end), slices[j])
      {
        assert slices[..i + 1] == slices[..i] + [slices[i]];
        var s := slices[i];
        if begin == s.begin && end == s.end { identical := true; }
        var disjoint := end <= s.begin || begin >= s.end;
        assert disjoint == Disjoint(Span(begin, end), slices[i]);
        if !disjoint { overlaps := true; }
      }
      assert slices[..|slices|] == slices;
    }

    method Reset() returns (ok: bool)
      requires Valid()
      modifies this
      ensures Valid() && ok == ready == old(ready)
      ensures State() == Cleared(old(State()))
    {
      ok := ready;
      if ok { slices := []; }
    }
  }

  /** An exact repeat is granted and changes nothing but the history. */
  lemma RepeatAddsNothing(a: Arena, q: Request, align: nat)
    requires ArenaInv(a) && Grants(a, q) && align > 0 && q.offset % align == 0
    ensures Grants(After(a, q), q.(align := align))
    ensures After(After(a, q), q.(align := align)).slices == After(a, q).slices
    ensures After(After(a, q), q.(align := align)).peak == After(a, q).peak
  {
    assert SpanOf(q) in After(a, q).slices;
  }
}
