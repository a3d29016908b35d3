/** What preparation leaves in segment memory, read back the way the engine reads it. */
module Preparation {
  import opened Bits
  import opened ChannelState
  import opened Memory
  import opened Options
  import opened Pool
  import opened Progress
  import opened Registers
  import opened Runs
  import opened Splitting

  /** The transfers described by the buffer-address and control words of `segs`. */
  function Described(hw: Bank, segs: seq<SegId>): seq<Range> {
    seq(|segs|, k requires 0 <= k < |segs| => Range(hw[segs[k]].buf, Length(hw[segs[k]].control)))
  }

  lemma RepeatFree(q: seq<SegId>, i: nat, j: nat)
    requires NoRepeats(q) && i < j < |q|
    ensures q[i] != q[j]
  {
    assert q == q[..j] + [q[j]] + q[j + 1..];
    PartNoRepeats(q[..j] + [q[j]], q[j + 1..]);
    PartNoRepeats(q[..j], [q[j]]);
    assert q[i] in q[..j];
  }

  lemma {:induction false} FillContents(hw: Bank, segs: seq<SegId>, ps: seq<Range>, app: Option<App>, n: nat)
    requires n <= |segs| && n <= |ps| && NoRepeats(segs)
    ensures forall k :: 0 <= k < n ==> Fill(hw, segs, ps, app, n)[segs[k]] == FillSegment(hw[segs[k]], ps[k], app)
  {
    if n > 0 {
      FillContents(hw, segs, ps, app, n - 1);
      FillFrame(hw, segs, ps, app, n - 1);
      forall k | 0 <= k < n ensures Fill(hw, segs, ps, app, n)[segs[k]] == FillSegment(hw[segs[k]], ps[k], app) {
        if k < n - 1 {
          RepeatFree(segs, k, n - 1);
        } else if segs[k] in segs[..n - 1] {
          var j :| 0 <= j < n - 1 && segs[j] == segs[k];
          RepeatFree(segs, j, k);
        }
      }
    }
  }

  lemma MarkContents(hw: Bank, segs: Segs, mark: bool, k: nat)
    requires NoRepeats(segs) && k < |segs|
    ensures MarkPacket(hw, segs, mark)[segs[k]] ==
            hw[segs[k]].(control := ControlWord(hw[segs[k]].control, mark, k == 0, k == |segs| - 1))
  {
    if k > 0 { RepeatFree(segs, 0, k); }
    if k < |segs| - 1 { RepeatFree(segs, k, |segs| - 1); }
  }

  /** Segment k of a prepared descriptor: its link as before, piece k, the packet flags on the
      first and the last, the application words only towards the device. */
  lemma PrepContents(s: State, ps: seq<Range>, mark: bool, app: Option<App>, k: nat)
    requires PrepFits(s, ps) && NoRepeats(s.free) && k < |ps|
    ensures
      var was, now := s.hw[s.free[k]], Prep(s, ps, mark, app).state.hw[s.free[k]];
      && now.next == was.next && now.status == was.status
      && now.buf == ps[k].addr % 0x1_0000_0000
      && now.control == ControlWord(ps[k].len, mark, k == 0, k == |ps| - 1)
      && now.app == (if mark && app.Some? then app.value else was.app)
  {
    var segs := s.free[..|ps|];
    var words := if mark then app else None;
    assert s.free == segs + s.free[|ps|..];
    PartNoRepeats(segs, s.free[|ps|..]);
    FillContents(s.hw, segs, ps, words, |ps|);
    var filled := Fill(s.hw, segs, ps, words, |ps|);
    assert filled[segs[k]] == FillSegment(s.hw[segs[k]], ps[k], words);
    MarkContents(filled, segs, mark, k);
    assert Prep(s, ps, mark, app).state.hw == MarkPacket(filled, segs, mark);
  }

  /** No entry runs past the 32-bit bus address space. */
  predicate InAddressSpace(entries: seq<Range>) {
    forall e :: e in entries ==> e.addr + e.len <= 0x1_0000_0000
  }

  lemma {:induction false} PiecesInSpace(addr: nat, len: nat)
    requires addr + len <= 0x1_0000_0000
    ensures forall p :: p in Pieces(addr, len) ==> p.addr < 0x1_0000_0000
    decreases len
  {
    if len > 0 { PiecesInSpace(addr + Min(len, MAX_TRANS_LEN), len - Min(len, MAX_TRANS_LEN)); }
  }

  lemma {:induction false} SplitInSpace(entries: seq<Range>)
    requires InAddressSpace(entries)
    ensures forall p :: p in Split(entries) ==> p.addr < 0x1_0000_0000
  {
    if entries != [] {
      PiecesInSpace(entries[0].addr, entries[0].len);
      SplitInSpace(entries[1..]);
    }
  }

  lemma ReadBackAt(s: State, ps: seq<Range>, mark: bool, app: Option<App>, k: nat)
    requires PrepFits(s, ps) && NoRepeats(s.free) && k < |ps|
    requires ps[k].addr < 0x1_0000_0000 && ps[k].len <= MAX_TRANS_LEN
    ensures
      var h := Prep(s, ps, mark, app).state.hw[s.free[k]];
      Range(h.buf, Length(h.control)) == ps[k]
  {
    PrepContents(s, ps, mark, app, k);
    ControlWordExact(ps[k].len, mark, k == 0, k == |ps| - 1);
  }

  /** Reading back what a preparation wrote gives the pieces it was asked to write. */
  lemma ReadBack(s: State, entries: seq<Range>, mark: bool, app: Option<App>)
    requires PrepFits(s, Split(entries)) && NoRepeats(s.free) && InAddressSpace(entries)
    ensures
      var p := Prep(s, Split(entries), mark, app);
      Described(p.state.hw, p.desc.value.segs) == Split(entries)
  {
    var ps := Split(entries);
    var p := Prep(s, ps, mark, app);
    SplitTiles(entries);
    SplitInSpace(entries);
    forall k | 0 <= k < |ps| ensures Described(p.state.hw, p.desc.value.segs)[k] == ps[k] {
      assert ps[k] in ps;
      ReadBackAt(s, ps, mark, app, k);
    }
  }

  lemma SgFits(s: State, entries: seq<Range>)
    requires TotalLength(entries) > 0
    ensures |Split(entries)| == SegmentsNeeded(entries)
    ensures PrepFits(s, Split(entries)) <==> SegmentsNeeded(entries) <= |s.free|
    ensures forall p :: p in Split(entries) ==> 1 <= p.len <= MAX_TRANS_LEN
    ensures Bytes(Split(entries)) == Bytes(entries)
  {
    SplitTiles(entries);
    NonEmptySplit(entries);
  }

  lemma PrepTaken(s: State, ps: seq<Range>, mark: bool, app: Option<App>)
    requires PrepFits(s, ps)
    ensures
      var Prepared(t, Some(d)) := Prep(s, ps, mark, app);
      d.segs + t.free == s.free && |d.segs| == |ps| && d.phys == Addr(t.base, d.segs[0]) && !d.cyclic
  {
  }

  /** Preparation is all or nothing. It succeeds exactly when the rounded-up segment count fits
      the free list, taking the free list's head; then the transfers in segment memory are,
      byte by byte and in order, the scatter list. Otherwise nothing at all has changed. */
  lemma SgAllOrNothing(y: System, entries: seq<Range>, mark: bool, app: Option<App>)
    requires Conserved(y) && TotalLength(entries) > 0 && InAddressSpace(entries)
    ensures
      match PrepSg(y.ch, entries, mark, app)
      case Prepared(s, None) => s == y.ch && SegmentsNeeded(entries) > |y.ch.free|
      case Prepared(s, Some(d)) =>
        && d.segs + s.free == y.ch.free && |d.segs| == SegmentsNeeded(entries)
        && d.phys == Addr(s.base, d.segs[0]) && !d.cyclic
        && Bytes(Described(s.hw, d.segs)) == Bytes(entries)
        && Marked(s.hw, d.segs, mark)
        && s == y.ch.(hw := s.hw, free := s.free)
  {
    SgFits(y.ch, entries);
    if PrepFits(y.ch, Split(entries)) {
      OwnersApart(y);
      PrepTaken(y.ch, Split(entries), mark, app);
      ReadBack(y.ch, entries, mark, app);
      FlagsExact(y, Split(entries), mark, app);
    }
  }

  /** Towards the device, the start-of-packet flag is on the first segment only and the
      end-of-packet flag on the last only; otherwise there are none. */
  ghost predicate Marked(hw: Bank, segs: seq<SegId>, mark: bool) {
    forall k :: 0 <= k < |segs| ==>
      && (Bit(hw[segs[k]].control, 27) <==> mark && k == 0)
      && (Bit(hw[segs[k]].control, 26) <==> mark && k == |segs| - 1)
  }

  lemma FlagsExact(y: System, ps: seq<Range>, mark: bool, app: Option<App>)
    requires Conserved(y) && PrepFits(y.ch, ps) && forall p :: p in ps ==> p.len <= MAX_TRANS_LEN
    ensures
      var Prepared(s, Some(d)) := Prep(y.ch, ps, mark, app);
      Marked(s.hw, d.segs, mark)
  {
    var Prepared(s, Some(d)) := Prep(y.ch, ps, mark, app);
    OwnersApart(y);
    forall k | 0 <= k < |d.segs|
      ensures Bit(s.hw[d.segs[k]].control, 27) <==> mark && k == 0
      ensures Bit(s.hw[d.segs[k]].control, 26) <==> mark && k == |d.segs| - 1
    {
      PrepContents(y.ch, ps, mark, app, k);
      assert ps[k] in ps;
      ControlWordExact(ps[k].len, mark, k == 0, k == |ps| - 1);
    }
  }

  lemma PeriodsInSpace(buf: nat, len: nat, period: nat)
    requires period > 0 && buf + len <= 0x1_0000_0000
    ensures InAddressSpace(Periods(buf, period, len / period))
  {
    var n := len / period;
    DivBound(len, period);
    forall e | e in Periods(buf, period, n) ensures e.addr + e.len <= 0x1_0000_0000 {
      var i :| 0 <= i < n && e == Range(buf + period * i, period);
      PeriodEnd(period, i, n);
    }
  }

  lemma DivBound(len: nat, period: nat)
    requires period > 0
    ensures period * (len / period) <= len
  {
  }

  lemma PeriodEnd(period: nat, i: nat, n: nat)
    requires i < n
    ensures period * i + period <= period * n
  {
    assert period * n == period * i + period * (n - i);
    assert period * (n - i) == period + period * (n - i - 1);
  }

  /** The segments a cyclic buffer needs: the same number for each whole period. */
  lemma CyclicFits(s: State, buf: nat, len: nat, period: nat)
    requires 0 < period <= len
    ensures
      var ps := Split(Periods(buf, period, len / period));
      && |ps| == (len / period) * PieceCount(period)
      && Bytes(ps) == RangeBytes(buf, period * (len / period))
      && ps != [] && (PrepFits(s, ps) <==> |ps| <= |s.free|)
  {
    var n := len / period;
    CyclicTiles(buf, period, n);
    AtLeastOne(len, period);
    PeriodBoundary(buf, period, n, 0);
  }

  /** A cyclic preparation of at least one whole period succeeds exactly when its segments fit
      the free list; it then transfers exactly the whole periods of the buffer, with the same
      number of segments for each, and enables cyclic mode. Otherwise nothing has changed. */
  lemma CyclicAllOrNothing(y: System, buf: nat, len: nat, period: nat, mark: bool)
    requires Conserved(y) && 0 < period <= len && buf + len <= 0x1_0000_0000
    ensures
      var needed := (len / period) * PieceCount(period);
      match PrepCyclic(y.ch, buf, len, period, mark)
      case Prepared(s, None) => s == y.ch && needed > |y.ch.free|
      case Prepared(s, Some(d)) =>
        && d.segs + s.free == y.ch.free && |d.segs| == needed && d.cyclic
        && d.phys == Addr(s.base, d.segs[0])
        && Bytes(Described(s.hw, d.segs)) == RangeBytes(buf, period * (len / period))
        && Marked(s.hw, d.segs, mark)
        && (forall k: nat :: Bit(s.ctrl, k) == (k == 4 || Bit(y.ch.ctrl, k)))
        && s == y.ch.(hw := s.hw, free := s.free, ctrl := s.ctrl, regs := y.ch.regs.(control := s.ctrl))
  {
    var ps := Split(Periods(buf, period, len / period));
    CyclicFits(y.ch, buf, len, period);
    if PrepFits(y.ch, ps) {
      PeriodsInSpace(buf, len, period);
      CyclicReadBack(y, buf, len, period, mark);
      CyclicTaken(y.ch, buf, len, period, mark);
      CyclicMarked(y, buf, len, period, mark);
    }
  }

  lemma CyclicTaken(s: State, buf: nat, len: nat, period: nat, mark: bool)
    requires period > 0 && PrepFits(s, Split(Periods(buf, period, len / period)))
    ensures
      var Prepared(t, Some(d)) := PrepCyclic(s, buf, len, period, mark);
      && d.segs + t.free == s.free && |d.segs| == |Split(Periods(buf, period, len / period))|
      && d.cyclic && d.phys == Addr(t.base, d.segs[0])
      && (forall k: nat :: Bit(t.ctrl, k) == (k == 4 || Bit(s.ctrl, k)))
      && t == s.(hw := t.hw, free := t.free, ctrl := t.ctrl, regs := s.regs.(control := t.ctrl))
  {
    CyclicBit(s.ctrl);
  }

  lemma CyclicMarked(y: System, buf: nat, len: nat, period: nat, mark: bool)
    requires Conserved(y) && period > 0 && PrepFits(y.ch, Split(Periods(buf, period, len / period)))
    ensures
      var Prepared(s, Some(d)) := PrepCyclic(y.ch, buf, len, period, mark);
      Marked(s.hw, d.segs, mark)
  {
    SplitTiles(Periods(buf, period, len / period));
    FlagsExact(y, Split(Periods(buf, period, len / period)), mark, None);
  }

  lemma CyclicReadBack(y: System, buf: nat, len: nat, period: nat, mark: bool)
    requires Conserved(y) && 0 < period && InAddressSpace(Periods(buf, period, len / period))
    requires PrepFits(y.ch, Split(Periods(buf, period, len / period)))
    ensures
      var Prepared(s, Some(d)) := PrepCyclic(y.ch, buf, len, period, mark);
      Described(s.hw, d.segs) == Split(Periods(buf, period, len / period))
  {
    OwnersApart(y);
    ReadBack(y.ch, Periods(buf, period, len / period), mark, None);
  }

  lemma AtLeastOne(len: nat, period: nat)
    requires 0 < period <= len
    ensures len / period > 0
  {
  }

  lemma CyclicBit(ctrl: nat)
    ensures forall k: nat :: Bit(Or(ctrl, CR_CYCLIC_BD_EN), k) == (k == 4 || Bit(ctrl, k))
  {
    PowersOfTwo();
    forall k: nat ensures Bit(Or(ctrl, CR_CYCLIC_BD_EN), k) == (k == 4 || Bit(ctrl, k)) {
      BitOr(ctrl, CR_CYCLIC_BD_EN, k);
      BitPow2(4, k);
    }
  }

  lemma {:induction false} TotalOfClean(hw: Bank, segs: seq<SegId>)
    requires forall i :: i in segs ==> hw[i].status == 0
    ensures TotalRemaining(hw, segs) == TotalLength(Described(hw, segs))
    decreases |segs|
  {
    if segs != [] {
      var front := segs[..|segs| - 1];
      TotalOfClean(hw, front);
      assert Described(hw, segs) == Described(hw, front) + [Range(hw[Last(segs)].buf, Length(hw[Last(segs)].control))];
      TotalConcat(Described(hw, front), [Range(hw[Last(segs)].buf, Length(hw[Last(segs)].control))]);
      assert Length(0) == 0;
      LengthIsMod(hw[Last(segs)].control);
    }
  }

  lemma {:induction false} TotalConcat(a: seq<Range>, b: seq<Range>)
    ensures TotalLength(a + b) == TotalLength(a) + TotalLength(b)
  {
    if a == [] {
      assert a + b == b;
    } else {
      assert (a + b)[1..] == a[1..] + b;
      TotalConcat(a[1..], b);
    }
  }

  /** Round trip between preparation and status: before the hardware reports anything, the
      residue of a prepared descriptor is the byte count that was asked for. */
  lemma FreshResidue(y: System, entries: seq<Range>, mark: bool, app: Option<App>)
    requires Conserved(y) && FreeClean(y.ch) && InAddressSpace(entries) && PrepFits(y.ch, Split(entries))
    ensures
      var Prepared(s, Some(d)) := PrepSg(y.ch, entries, mark, app);
      Residue(s.hw, d.segs) == TotalLength(entries)
  {
    var Prepared(s, Some(d)) := PrepSg(y.ch, entries, mark, app);
    OwnersApart(y);
    AtMostPool(y);
    forall i | i in d.segs ensures s.hw[i].status == 0 {
      var k :| 0 <= k < |d.segs| && d.segs[k] == i;
      PrepContents(y.ch, Split(entries), mark, app, k);
      assert y.ch.free[k] in y.ch.free;
    }
    ReadBack(y.ch, entries, mark, app);
    TotalOfClean(s.hw, d.segs);
    SplitLength(entries);
    ResidueSum(s.hw, d.segs);
  }
}
