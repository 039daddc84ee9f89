/** Flat buffers seen as rows of equal width: page tables as one row per sequence,
    KV layers as one row of bytes per slot. */
module SlotRows {
  import opened Arith
  import opened KvKernels

  function RowAt<T>(buf: seq<T>, w: nat, s: nat): (r: seq<T>)
    requires (s + 1) * w <= |buf|
    ensures |r| == w
  {
    assert (s + 1) * w == s * w + w;
    assert s * w >= 0;
    buf[s * w..s * w + w]
  }

  lemma RowInside<T>(buf: seq<T>, w: nat, n: nat, s: nat)
    requires |buf| == n * w && s < n
    ensures (s + 1) * w <= |buf|
    ensures (s + 1) * w == s * w + w
  {
    RowFits(s, n, w);
    assert (s + 1) * w == s * w + w;
  }

  function SetRow<T>(buf: seq<T>, w: nat, s: nat, row: seq<T>): (r: seq<T>)
    requires (s + 1) * w <= |buf| && |row| == w
    ensures |r| == |buf|
  {
    assert (s + 1) * w == s * w + w;
    assert s * w >= 0;
    buf[..s * w] + row + buf[s * w + w..]
  }

  /** Writing row s changes row s and no other. */
  lemma SetRowRows<T>(buf: seq<T>, w: nat, n: nat, s: nat, row: seq<T>, x: nat)
    requires |buf| == n * w && s < n && x < n && |row| == w
    ensures (s + 1) * w <= |buf| && (x + 1) * w <= |buf|
    ensures RowAt(SetRow(buf, w, s, row), w, x) == if x == s then row else RowAt(buf, w, x)
  {
    RowInside(buf, w, n, s);
    RowInside(buf, w, n, x);
    if x < s {
      RowFits(x, s, w);
    } else if s < x {
      RowFits(s, x, w);
    }
  }

  /** Element i of row s in the flat buffer. */
  lemma RowElement<T>(buf: seq<T>, w: nat, n: nat, s: nat, i: nat)
    requires |buf| == n * w && s < n && i < w
    ensures (s + 1) * w <= |buf| && s * w + i < |buf|
    ensures buf[s * w + i] == RowAt(buf, w, s)[i]
  {
    RowInside(buf, w, n, s);
  }

  lemma SetSameRow<T>(buf: seq<T>, w: nat, n: nat, s: nat)
    requires |buf| == n * w && s < n
    ensures (s + 1) * w <= |buf| && SetRow(buf, w, s, RowAt(buf, w, s)) == buf
  {
    RowInside(buf, w, n, s);
    assert s * w >= 0;
  }

  /** A short row inside a long row. */
  lemma RowOfRow<T>(buf: seq<T>, w: nat, m: nat, n: nat, s: nat, i: nat)
    requires |buf| == n * (m * w) && s < n && i < m
    ensures (s + 1) * (m * w) <= |buf| && (s * m + i + 1) * w <= |buf| && (i + 1) * w <= m * w
    ensures RowAt(buf, w, s * m + i) == RowAt(RowAt(buf, m * w, s), w, i)
  {
    RowOfRowBounds(|buf|, w, m, n, s, i);
    SliceOfSlice(buf, s * (m * w), m * w, i * w, w);
  }

  lemma SliceOfSlice<T>(buf: seq<T>, start: nat, len: nat, inner: nat, n: nat)
    requires start + len <= |buf| && inner + n <= len
    ensures buf[start..start + len][inner..inner + n] == buf[start + inner..start + inner + n]
  {
    var left, right := buf[start..start + len][inner..inner + n], buf[start + inner..start + inner + n];
    assert |left| == |right|;
    forall k | 0 <= k < n ensures left[k] == right[k] {
      assert left[k] == buf[start..start + len][inner + k] == buf[start + (inner + k)];
    }
  }

  lemma RowOfRowBounds(len: nat, w: nat, m: nat, n: nat, s: nat, i: nat)
    requires len == n * (m * w) && s < n && i < m
    ensures (s + 1) * (m * w) == s * (m * w) + m * w <= len && 0 <= s * (m * w)
    ensures (i + 1) * w == i * w + w <= m * w && 0 <= i * w
    ensures (s * m + i) * w == s * (m * w) + i * w && (s * m + i + 1) * w == (s * m + i) * w + w
  {
    RowFits(s, n, m * w);
    RowFits(i, m, w);
  }

  /** Emptying a row and then listing `xs` at its start. */
  lemma RewriteRow(buf: seq<int>, w: nat, n: nat, s: nat, empty: seq<int>, xs: seq<int>)
    requires |buf| == n * w && s < n && |xs| <= w && empty == seq(w, i => -1)
    ensures (s + 1) * w <= |buf|
    ensures var row := RowAt(buf, w, s);
            var cleared := SetRow(buf, w, s, row[..0] + empty + row[w..]);
            var row' := RowAt(cleared, w, s);
            SetRow(cleared, w, s, row'[..0] + xs + row'[|xs|..]) == SetRow(buf, w, s, xs + seq(w - |xs|, i => -1))
  {
    RowInside(buf, w, n, s);
    var row := RowAt(buf, w, s);
    var row0 := row[..0] + empty + row[w..];
    assert row0 == empty;
    SetRowRows(buf, w, n, s, empty, s);
    SetRowTwice(buf, w, n, s, empty, xs + empty[|xs|..]);
    assert empty[..0] + xs + empty[|xs|..] == xs + seq(w - |xs|, i => -1);
  }

  lemma SetRowTwice<T>(buf: seq<T>, w: nat, n: nat, s: nat, a: seq<T>, b: seq<T>)
    requires |buf| == n * w && s < n && |a| == |b| == w
    ensures (s + 1) * w <= |buf| && SetRow(SetRow(buf, w, s, a), w, s, b) == SetRow(buf, w, s, b)
  {
    RowInside(buf, w, n, s);
    assert s * w >= 0;
  }

  type Row = seq<byte>

  function Rows(buf: seq<byte>, w: nat, n: nat): (rows: seq<Row>)
    requires |buf| == n * w
    ensures |rows| == n
    ensures forall s :: 0 <= s < n ==> |rows[s]| == w
  {
    seq(n, s requires 0 <= s < n => RowInside(buf, w, n, s); RowAt(buf, w, s))
  }

  /** Byte a of the buffer is byte a % w of row a / w. */
  lemma RowsByte(buf: seq<byte>, w: nat, n: nat, s: nat, i: nat)
    requires |buf| == n * w && s < n && i < w
    ensures s * w + i < |buf| && Rows(buf, w, n)[s][i] == buf[s * w + i]
    ensures (s * w + i) / w == s && (s * w + i) % w == i
  {
    RowElement(buf, w, n, s, i);
    DivModIs(s * w + i, w, s, i);
  }

  function ZeroRow(w: nat): (r: Row)
    ensures |r| == w
  {
    seq(w, i => 0)
  }

  function FirstIndex(xs: seq<int>, x: int): (i: nat)
    requires x in xs
    ensures i < |xs| && xs[i] == x
  {
    if xs[0] == x then 0 else 1 + FirstIndex(xs[1..], x)
  }

  /** Slot s receives the row of the token mapped to it. */
  function PutRows(rows: seq<Row>, slots: seq<int>, tokens: seq<Row>): (r: seq<Row>)
    requires |slots| == |tokens|
    ensures |r| == |rows|
    ensures forall s :: 0 <= s < |rows| && s !in slots ==> r[s] == rows[s]
  {
    seq(|rows|, s requires 0 <= s < |rows| => if s in slots then tokens[FirstIndex(slots, s)] else rows[s])
  }

  ghost predicate Distinct(xs: seq<int>) {
    forall t, u :: 0 <= t < u < |xs| ==> xs[t] != xs[u]
  }

  /** No two tokens share one of the first n slots; other entries are free. */
  ghost predicate DistinctBelow(slots: seq<int>, n: nat) {
    forall t, u :: 0 <= t < u < |slots| && 0 <= slots[t] < n ==> slots[t] != slots[u]
  }

  lemma PutRowsAt(rows: seq<Row>, slots: seq<int>, tokens: seq<Row>, t: nat)
    requires |slots| == |tokens| && t < |slots| && Distinct(slots) && 0 <= slots[t] < |rows|
    ensures PutRows(rows, slots, tokens)[slots[t]] == tokens[t]
  {
    assert slots[FirstIndex(slots, slots[t])] == slots[t];
  }

  /** A scatter of distinct slots puts every token's row in its slot and leaves all
      other rows alone. */
  lemma ScatterIsPutRows(before: seq<byte>, after: seq<byte>, src: seq<byte>, slots: seq<int>, w: nat, n: nat)
    requires w > 0 && |src| == |slots| * w && |before| == n * w && DistinctBelow(slots, n)
    requires Scattered(before, after, src, slots, w)
    ensures Rows(after, w, n) == PutRows(Rows(before, w, n), slots, Rows(src, w, |slots|))
  {
    forall s | 0 <= s < n
      ensures Rows(after, w, n)[s] == PutRows(Rows(before, w, n), slots, Rows(src, w, |slots|))[s]
    {
      ScatterRow(before, after, src, slots, w, n, s);
    }
  }

  lemma ScatterRow(before: seq<byte>, after: seq<byte>, src: seq<byte>, slots: seq<int>, w: nat, n: nat, s: nat)
    requires w > 0 && |src| == |slots| * w && |before| == n * w && DistinctBelow(slots, n) && s < n
    requires Scattered(before, after, src, slots, w)
    ensures Rows(after, w, n)[s]
         == if s in slots then Rows(src, w, |slots|)[FirstIndex(slots, s)] else Rows(before, w, n)[s]
  {
    var row := if s in slots then Rows(src, w, |slots|)[FirstIndex(slots, s)] else Rows(before, w, n)[s];
    forall i | 0 <= i < w ensures Rows(after, w, n)[s][i] == row[i] {
      ScatterRowByte(before, after, src, slots, w, n, s, i);
    }
  }

  lemma ScatterRowByte(before: seq<byte>, after: seq<byte>, src: seq<byte>, slots: seq<int>, w: nat, n: nat, s: nat,
                       i: nat)
    requires w > 0 && |src| == |slots| * w && |before| == n * w && DistinctBelow(slots, n) && s < n && i < w
    requires Scattered(before, after, src, slots, w)
    ensures Rows(after, w, n)[s][i]
         == if s in slots then Rows(src, w, |slots|)[FirstIndex(slots, s)][i] else Rows(before, w, n)[s][i]
  {
    hide Rows;
    var a := s * w + i;
    RowsByte(after, w, n, s, i);
    RowsByte(before, w, n, s, i);
    assert ScatteredAt(before, after, src, slots, w, a);
    if s in slots {
      var t :| 0 <= t && FromToken(after, src, slots, w, a, t);
      assert t == FirstIndex(slots, s);
      RowsByte(src, w, |slots|, t, i);
    }
  }

  /** Rows of the listed blocks are zero, all others as before. */
  function ZeroBlocks(rows: seq<Row>, ids: seq<int>, blockSize: nat, w: nat): (r: seq<Row>)
    requires blockSize > 0
    ensures |r| == |rows|
    ensures forall s :: 0 <= s < |rows| ==> r[s] == if s / blockSize in ids then ZeroRow(w) else rows[s]
  {
    seq(|rows|, s requires 0 <= s < |rows| => if s / blockSize in ids then ZeroRow(w) else rows[s])
  }

  lemma ZeroedIsZeroBlocks(before: seq<byte>, after: seq<byte>, ids: seq<int>, blockSize: nat, w: nat, n: nat)
    requires w > 0 && blockSize > 0 && |before| == |after| == n * w && blockSize * w > 0
    requires forall a :: 0 <= a < |before| ==> after[a] == ZeroedByte(before, ids, blockSize * w, a)
    ensures Rows(after, w, n) == ZeroBlocks(Rows(before, w, n), ids, blockSize, w)
  {
    forall s | 0 <= s < n
      ensures Rows(after, w, n)[s] == ZeroBlocks(Rows(before, w, n), ids, blockSize, w)[s]
    {
      forall i | 0 <= i < w
        ensures Rows(after, w, n)[s][i] == ZeroBlocks(Rows(before, w, n), ids, blockSize, w)[s][i]
      {
        ZeroedRowByte(before, after, ids, blockSize, w, n, s, i);
      }
    }
  }

  lemma ZeroedRowByte(before: seq<byte>, after: seq<byte>, ids: seq<int>, blockSize: nat, w: nat, n: nat, s: nat,
                      i: nat)
    requires w > 0 && blockSize > 0 && |before| == |after| == n * w && blockSize * w > 0 && s < n && i < w
    requires forall a :: 0 <= a < |before| ==> after[a] == ZeroedByte(before, ids, blockSize * w, a)
    ensures Rows(after, w, n)[s][i] == if s / blockSize in ids then 0 else Rows(before, w, n)[s][i]
  {
    hide Rows;
    RowsByte(after, w, n, s, i);
    RowsByte(before, w, n, s, i);
    BlockOfByte(s, i, blockSize, w);
  }

  lemma BlockOfByte(s: nat, i: nat, blockSize: nat, w: nat)
    requires i < w && blockSize > 0
    ensures blockSize * w > 0 && (s * w + i) / (blockSize * w) == s / blockSize
  {
    MulMono(1, blockSize, w);
    DivModOf(s, blockSize);
    var b, o := s / blockSize, s % blockSize;
    RowFits(o, blockSize, w);
    assert s * w == b * (blockSize * w) + o * w;
    DivModIs(s * w + i, blockSize * w, b, o * w + i);
  }

  /** Overwrite consecutive entries. */
  method WriteRun(a: array<int>, start: nat, xs: seq<int>)
    requires start + |xs| <= a.Length
    modifies a
    ensures a[..] == old(a[..start]) + xs + old(a[start + |xs|..])
  {
    ghost var before := a[..];
    for i := 0 to |xs|
      invariant a[..] == before[..start] + xs[..i] + before[start + i..]
    {
      a[start + i] := xs[i];
    }
  }

  /** Entries overwritten inside row s amount to that row replaced. */
  lemma RunInRow<T>(buf: seq<T>, w: nat, n: nat, s: nat, offset: nat, xs: seq<T>)
    requires |buf| == n * w && s < n && offset + |xs| <= w
    ensures (s + 1) * w <= |buf| && s * w + w <= |buf|
    ensures var row := RowAt(buf, w, s);
            buf[..s * w + offset] + xs + buf[s * w + offset + |xs|..]
              == SetRow(buf, w, s, row[..offset] + xs + row[offset + |xs|..])
  {
    RowInside(buf, w, n, s);
    assert s * w >= 0;
  }

  /** Overwrite consecutive entries of a table row; the result is the table with that
      row replaced. */
  method WriteEntries(a: array<int>, w: nat, n: nat, s: nat, offset: nat, xs: seq<int>)
    requires a.Length == n * w && s < n && offset + |xs| <= w
    modifies a
    ensures (s + 1) * w <= a.Length
    ensures var row := RowAt(old(a[..]), w, s);
            a[..] == SetRow(old(a[..]), w, s, row[..offset] + xs + row[offset + |xs|..])
  {
    hide SetRow, RowAt;
    RunInRow(a[..], w, n, s, offset, xs);
    WriteRun(a, s * w + offset, xs);
  }

  /** Number of leading mapped entries of a row. */
  function LeadingUsed(row: seq<int>): (n: nat)
    ensures n <= |row|
    ensures forall i :: 0 <= i < n ==> row[i] >= 0
    ensures n < |row| ==> row[n] < 0
  {
    if row == [] || row[0] < 0 then 0 else 1 + LeadingUsed(row[1..])
  }

  function CountMapped(row: seq<int>): (n: nat)
    ensures n <= |row|
  {
    if row == [] then 0 else CountMapped(row[..|row| - 1]) + if row[|row| - 1] >= 0 then 1 else 0
  }

  lemma LeadingUsedIs(row: seq<int>, n: nat)
    requires n <= |row| && forall i :: 0 <= i < n ==> row[i] >= 0
    requires n < |row| ==> row[n] < 0
    ensures LeadingUsed(row) == n
  {
  }

  /** Scan row s for its first empty entry. */
  method UsedEntries(a: array<int>, w: nat, n: nat, s: nat) returns (used: nat)
    requires a.Length == n * w && s < n
    ensures (s + 1) * w <= a.Length && used == LeadingUsed(RowAt(a[..], w, s))
  {
    RowInside(a[..], w, n, s);
    var start := s * w;
    ghost var row := RowAt(a[..], w, s);
    used := 0;
    while used < w && a[start + used] >= 0
      invariant used <= w
      invariant forall i :: 0 <= i < used ==> row[i] >= 0
    {
      assert row[used] == a[start + used];
      used := used + 1;
    }
    assert used < w ==> row[used] == a[start + used];
    LeadingUsedIs(row, used);
  }

  /** Count the mapped entries of row s. */
  method MappedEntries(a: array<int>, w: nat, n: nat, s: nat) returns (count: nat)
    requires a.Length == n * w && s < n
    ensures (s + 1) * w <= a.Length && count == CountMapped(RowAt(a[..], w, s))
  {
    RowInside(a[..], w, n, s);
    var start := s * w;
    assert start + w <= a.Length;
    ghost var row := RowAt(a[..], w, s);
    count := 0;
    for i := 0 to w
      invariant count == CountMapped(row[..i])
    {
      assert row[..i + 1][..i] == row[..i] && row[i] == a[start + i];
      if a[start + i] >= 0 { count := count + 1; }
    }
    assert row[..w] == row;
  }

  /** Copy a table to its mirror. */
  method CopyTable(src: array<int>, dst: array<int>)
    requires src != dst && src.Length == dst.Length
    modifies dst
    ensures dst[..] == src[..]
  {
    for i := 0 to src.Length
      invariant forall x :: 0 <= x < i ==> dst[x] == src[x]
    {
      dst[i] := src[i];
    }
  }
}
