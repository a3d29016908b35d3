/** How a scatter list or a cyclic buffer is cut into hardware segments, and why the cut is
    an exact tiling. */
module Splitting {
  import opened Registers

  /** `len` bytes from bus address `addr`: a scatter-list entry, or one segment's share. */
  datatype Range = Range(addr: nat, len: nat)

  function Min(a: nat, b: nat): nat { if a <= b then a else b }

  /** One entry, cut greedily at the hardware limit. */
  function Pieces(addr: nat, len: nat): seq<Range>
    decreases len
  {
    if len == 0 then []
    else
      var copy := Min(len, MAX_TRANS_LEN);
      [Range(addr, copy)] + Pieces(addr + copy, len - copy)
  }

  /** A whole scatter list, entry by entry. */
  function Split(entries: seq<Range>): seq<Range> {
    if entries == [] then []
    else Pieces(entries[0].addr, entries[0].len) + Split(entries[1..])
  }

  /** The scatter list a cyclic transfer amounts to: one entry per period. */
  function Periods(buf: nat, period: nat, n: nat): seq<Range> {
    seq(n, i requires i >= 0 => Range(buf + period * i, period))
  }

  /** len / MAX_TRANS_LEN, rounded up. */
  function PieceCount(len: nat): nat {
    (len + MAX_TRANS_LEN - 1) / MAX_TRANS_LEN
  }

  function SegmentsNeeded(entries: seq<Range>): nat {
    if entries == [] then 0 else PieceCount(entries[0].len) + SegmentsNeeded(entries[1..])
  }

  function TotalLength(entries: seq<Range>): nat {
    if entries == [] then 0 else entries[0].len + TotalLength(entries[1..])
  }

  /** The bus addresses of a range, in order. */
  function RangeBytes(addr: nat, len: nat): seq<nat> {
    seq(len, i requires i >= 0 => addr + i)
  }

  /** The bus addresses a list of ranges transfers, in transfer order. */
  function Bytes(entries: seq<Range>): seq<nat> {
    if entries == [] then [] else RangeBytes(entries[0].addr, entries[0].len) + Bytes(entries[1..])
  }

  lemma {:induction false} SplitConcat(a: seq<Range>, b: seq<Range>)
    ensures Split(a + b) == Split(a) + Split(b)
  {
    if a == [] {
      assert a + b == b;
    } else {
      assert (a + b)[1..] == a[1..] + b;
      SplitConcat(a[1..], b);
    }
  }

  lemma {:induction false} BytesConcat(a: seq<Range>, b: seq<Range>)
    ensures Bytes(a + b) == Bytes(a) + Bytes(b)
  {
    if a == [] {
      assert a + b == b;
    } else {
      assert (a + b)[1..] == a[1..] + b;
      BytesConcat(a[1..], b);
    }
  }

  /** An entry's pieces, in closed form: all but the last are exactly MAX_TRANS_LEN long. */
  lemma {:induction false} PiecesExact(addr: nat, len: nat)
    ensures |Pieces(addr, len)| == PieceCount(len)
    ensures forall k :: 0 <= k < PieceCount(len) ==>
      MAX_TRANS_LEN * k < len &&
      Pieces(addr, len)[k] == Range(addr + MAX_TRANS_LEN * k, Min(len - MAX_TRANS_LEN * k, MAX_TRANS_LEN))
    decreases len
  {
    if len > MAX_TRANS_LEN {
      PiecesExact(addr + MAX_TRANS_LEN, len - MAX_TRANS_LEN);
      var rest := Pieces(addr + MAX_TRANS_LEN, len - MAX_TRANS_LEN);
      assert Pieces(addr, len) == [Range(addr, MAX_TRANS_LEN)] + rest;
      forall k | 0 < k < PieceCount(len)
        ensures MAX_TRANS_LEN * k < len
        ensures Pieces(addr, len)[k] == Range(addr + MAX_TRANS_LEN * k, Min(len - MAX_TRANS_LEN * k, MAX_TRANS_LEN))
      {
        assert Pieces(addr, len)[k] == rest[k - 1];
      }
    } else if len > 0 {
      assert Pieces(addr, len) == [Range(addr, len)] + Pieces(addr + len, 0);
    }
  }

  lemma PiecesNumber(addr: nat, len: nat)
    ensures |Pieces(addr, len)| == PieceCount(len)
  {
    PiecesExact(addr, len);
  }

  lemma {:induction false} PiecesBytes(addr: nat, len: nat)
    ensures Bytes(Pieces(addr, len)) == RangeBytes(addr, len)
    decreases len
  {
    if len > 0 {
      var copy := Min(len, MAX_TRANS_LEN);
      PiecesBytes(addr + copy, len - copy);
      assert Pieces(addr, len)[1..] == Pieces(addr + copy, len - copy);
      assert RangeBytes(addr, len) == RangeBytes(addr, copy) + RangeBytes(addr + copy, len - copy);
    }
  }

  lemma {:induction false} PiecesBounded(addr: nat, len: nat)
    ensures forall p :: p in Pieces(addr, len) ==> 1 <= p.len <= MAX_TRANS_LEN
    decreases len
  {
    if len > 0 {
      var copy := Min(len, MAX_TRANS_LEN);
      PiecesBounded(addr + copy, len - copy);
    }
  }

  /** Exact tiling: the segments transfer the scatter list's bytes, each once and in order;
      every segment is non-empty and within the hardware limit; and their number is the sum
      of the rounded-up quotients. */
  lemma {:induction false} SplitTiles(entries: seq<Range>)
    ensures Bytes(Split(entries)) == Bytes(entries)
    ensures forall p :: p in Split(entries) ==> 1 <= p.len <= MAX_TRANS_LEN
    ensures |Split(entries)| == SegmentsNeeded(entries)
  {
    if entries != [] {
      var e := entries[0];
      SplitTiles(entries[1..]);
      PiecesBytes(e.addr, e.len);
      PiecesBounded(e.addr, e.len);
      PiecesExact(e.addr, e.len);
      BytesConcat(Pieces(e.addr, e.len), Split(entries[1..]));
    }
  }

  lemma {:induction false} BytesLength(entries: seq<Range>)
    ensures |Bytes(entries)| == TotalLength(entries)
  {
    if entries != [] { BytesLength(entries[1..]); }
  }

  /** Splitting conserves the byte count. */
  lemma SplitLength(entries: seq<Range>)
    ensures TotalLength(Split(entries)) == TotalLength(entries)
  {
    SplitTiles(entries);
    BytesLength(entries);
    BytesLength(Split(entries));
  }

  /** A list with at least one byte needs at least one segment. */
  lemma {:induction false} NonEmptySplit(entries: seq<Range>)
    ensures Split(entries) != [] <==> TotalLength(entries) > 0
  {
    if entries != [] {
      NonEmptySplit(entries[1..]);
      PiecesExact(entries[0].addr, entries[0].len);
    }
  }

  lemma PeriodsStep(buf: nat, period: nat, n: nat)
    requires n > 0
    ensures Periods(buf, period, n) == Periods(buf, period, n - 1) + [Range(buf + period * (n - 1), period)]
  {
  }

  /** The segments of n periods are those of n - 1 periods and then those of the last. */
  lemma PeriodsSplitStep(buf: nat, period: nat, n: nat)
    requires n > 0
    ensures Split(Periods(buf, period, n)) ==
            Split(Periods(buf, period, n - 1)) + Pieces(buf + period * (n - 1), period)
  {
    var last := [Range(buf + period * (n - 1), period)];
    PeriodsStep(buf, period, n);
    SplitConcat(Periods(buf, period, n - 1), last);
    assert Split(last) == Pieces(buf + period * (n - 1), period) + Split([]);
  }

  lemma TimesStep(n: nat, c: nat)
    requires n > 0
    ensures n * c == (n - 1) * c + c && c * n == c * (n - 1) + c
  {
  }

  lemma RangeBytesSplit(addr: nat, a: nat, b: nat)
    ensures RangeBytes(addr, a + b) == RangeBytes(addr, a) + RangeBytes(addr + a, b)
  {
  }

  lemma {:induction false} CyclicCount(buf: nat, period: nat, n: nat)
    ensures |Split(Periods(buf, period, n))| == n * PieceCount(period)
  {
    if n == 0 {
      assert Periods(buf, period, 0) == [];
    } else {
      CyclicCount(buf, period, n - 1);
      PeriodsSplitStep(buf, period, n);
      PiecesNumber(buf + period * (n - 1), period);
      TimesStep(n, PieceCount(period));
    }
  }

  lemma {:induction false} CyclicBytes(buf: nat, period: nat, n: nat)
    ensures Bytes(Split(Periods(buf, period, n))) == RangeBytes(buf, period * n)
  {
    if n == 0 {
      assert Periods(buf, period, 0) == [];
    } else {
      var start := buf + period * (n - 1);
      CyclicBytes(buf, period, n - 1);
      PeriodsSplitStep(buf, period, n);
      BytesConcat(Split(Periods(buf, period, n - 1)), Pieces(start, period));
      PiecesBytes(start, period);
      TimesStep(n, period);
      RangeBytesSplit(buf, period * (n - 1), period);
    }
  }

  /** Cyclic tiling: the segments cover exactly the first n periods of the buffer, and each
      period takes the same number of segments, so every period boundary is a boundary
      between segments. */
  lemma CyclicTiles(buf: nat, period: nat, n: nat)
    ensures Bytes(Split(Periods(buf, period, n))) == RangeBytes(buf, period * n)
    ensures |Split(Periods(buf, period, n))| == n * PieceCount(period)
  {
    CyclicBytes(buf, period, n);
    CyclicCount(buf, period, n);
  }

  lemma FirstPiece(addr: nat, len: nat)
    requires len > 0
    ensures Pieces(addr, len) != [] && Pieces(addr, len)[0].addr == addr
  {
  }

  /** Period i starts with segment i * PieceCount(period). */
  lemma {:induction false} PeriodBoundary(buf: nat, period: nat, n: nat, i: nat)
    requires period > 0 && i < n
    ensures i * PieceCount(period) < |Split(Periods(buf, period, n))|
    ensures Split(Periods(buf, period, n))[i * PieceCount(period)].addr == buf + period * i
    decreases n
  {
    CyclicCount(buf, period, n);
    CyclicCount(buf, period, n - 1);
    PeriodsSplitStep(buf, period, n);
    if i < n - 1 {
      PeriodBoundary(buf, period, n - 1, i);
    } else {
      FirstPiece(buf + period * i, period);
    }
  }
}
