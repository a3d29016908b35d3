/** The driver's operations as it performs them: on the fields of the channel and, for segment
    memory, in place. Each is proved to compute the corresponding function of ChannelState. */
module Driver {
  import opened Bits
  import opened ChannelState
  import opened Effects
  import opened Memory
  import opened Options
  import opened Preparation
  import opened Registers
  import opened Runs
  import opened Splitting

  datatype Direction = MemToDev | DevToMem | NotSlave

  // ---- Facts the loops need -------------------------------------------------------------

  lemma FreeSegsStep(s: State, a: seq<SegId>, b: seq<SegId>)
    ensures FreeSegs(FreeSegs(s, a), b) == FreeSegs(s, a + b)
  {
    assert s.free + a + b == s.free + (a + b);
    assert CleanAll(CleanAll(s.hw, a), b) == CleanAll(s.hw, a + b);
  }

  lemma FreeSegsNone(s: State)
    ensures FreeSegs(s, []) == s
  {
    assert CleanAll(s.hw, []) == s.hw;
    assert s.free + [] == s.free;
  }

  lemma {:induction false} FillPrefix(hw: Bank, segs: seq<SegId>, ps: seq<Range>, app: Option<App>, m: nat, n: nat)
    requires n <= m <= |segs| && n <= |ps|
    ensures Fill(hw, segs[..m], ps, app, n) == Fill(hw, segs, ps, app, n)
  {
    if n > 0 { FillPrefix(hw, segs, ps, app, m, n - 1); }
  }

  /** The state once n segments have been taken and filled. */
  function Filling(s: State, ps: seq<Range>, app: Option<App>, n: nat): State
    requires n <= |s.free| && n <= |ps|
  {
    s.(free := s.free[n..], hw := Fill(s.hw, s.free, ps, app, n))
  }

  lemma FillingNone(s: State, ps: seq<Range>, app: Option<App>)
    ensures Filling(s, ps, app, 0) == s
  {
    assert s.free[0..] == s.free;
  }

  /** Freeing everything a failed preparation took restores the state exactly, because the
      segments were clean when taken and the free list was emptied. */
  lemma UndoFilling(s: State, ps: seq<Range>, app: Option<App>)
    requires FreeClean(s) && |s.free| <= |ps|
    ensures FreeSegs(Filling(s, ps, app, |s.free|), s.free) == s
  {
    var n := |s.free|;
    FillFrame(s.hw, s.free, ps, app, n);
    var hw := Fill(s.hw, s.free, ps, app, n);
    assert s.free[..n] == s.free;
    forall i: SegId ensures CleanAll(hw, s.free)[i] == s.hw[i] { }
    assert CleanAll(hw, s.free) == s.hw;
    assert s.free[n..] + s.free == s.free;
  }

  /** The state once the first k active descriptors have moved to the done list. */
  function Completing(s: State, k: nat): State
    requires k <= |s.active|
  {
    s.(active := s.active[k..], done := s.done + s.active[..k],
       completed := CompletedBy(s.active[..k], s.completed))
  }

  lemma CompletedStep(s: State, k: nat)
    requires k < |s.active|
    ensures
      var t, d := Completing(s, k), s.active[k];
      && t.active != [] && t.active[0] == d
      && Completing(s, k + 1) == t.(active := t.active[1..], done := t.done + [d],
                                    completed := if d.cyclic then t.completed else d.cookie)
  {
    assert s.active[..k + 1] == s.active[..k] + [s.active[k]];
    assert s.active[..k + 1][..k] == s.active[..k];
    assert s.done + s.active[..k] + [s.active[k]] == s.done + s.active[..k + 1];
  }

  /** `segments` are the head of the free list, one for each of the first pieces. */
  ghost predicate Taken(s: State, ps: seq<Range>, segments: seq<SegId>) {
    |segments| <= |s.free| && |segments| <= |ps| && segments == s.free[..|segments|]
  }

  /** Moreover `rest` are the pieces that are still to come. */
  ghost predicate Cut(s: State, ps: seq<Range>, segments: seq<SegId>, rest: seq<Range>) {
    Taken(s, ps, segments) && ps[|segments|..] == rest
  }

  /** The next piece of a range that is being filled. */
  lemma NextPiece(s: State, ps: seq<Range>, segments: seq<SegId>, addr: nat, len: nat, rest: seq<Range>)
    requires len > 0 && Cut(s, ps, segments, Pieces(addr, len) + rest)
    ensures
      var copy, n := Min(len, MAX_TRANS_LEN), |segments|;
      && n < |ps| && ps[n] == Range(addr, copy)
      && |Pieces(addr, len)| == 1 + |Pieces(addr + copy, len - copy)|
      && (n < |s.free| ==> Cut(s, ps, segments + [s.free[n]], Pieces(addr + copy, len - copy) + rest))
  {
    var copy, n := Min(len, MAX_TRANS_LEN), |segments|;
    var more := Pieces(addr + copy, len - copy) + rest;
    assert Pieces(addr, len) + rest == [Range(addr, copy)] + more;
    assert ps[n] == ps[n..][0];
    assert ps[n + 1..] == ps[n..][1..] == more;
  }

  /** One more segment taken and filled. */
  lemma FillingStep(s: State, ps: seq<Range>, app: Option<App>, n: nat)
    requires n < |s.free| && n < |ps|
    ensures
      var t, i := Filling(s, ps, app, n), s.free[n];
      && t.free != [] && t.free[0] == i && t.free[1..] == s.free[n + 1..]
      && Filling(s, ps, app, n + 1).hw == t.hw[i := FillSegment(t.hw[i], ps[n], app)]
  {
  }

  /** The next entry of the scatter list. */
  lemma NextEntry(entries: seq<Range>, i: nat)
    requires i < |entries|
    ensures Split(entries[i..]) == Pieces(entries[i].addr, entries[i].len) + Split(entries[i + 1..])
  {
    assert entries[i..][1..] == entries[i + 1..];
  }

  class Channel {
    const base: nat
    const sg: bool
    const hw: array<Hw>
    var free: seq<SegId>
    var pending: seq<Desc>
    var active: seq<Desc>
    var done: seq<Desc>
    var count: nat
    var idle: bool
    var err: bool
    var cyclic: bool
    var ctrl: nat
    var cookie: nat
    var completed: nat
    var regs: Regs
    var bug: bool

    ghost predicate Valid()
      reads this
    {
      hw.Length == NUM_DESCS
    }

    /** The channel's state as a value. */
    ghost function Now(): (s: State)
      requires Valid()
      reads this, hw
    {
      State(base, sg, hw[..], free, pending, active, done, count, idle, err, cyclic, ctrl, cookie,
            completed, regs, bug)
    }

    /** Probe's fields, then xilinx_dma_alloc_chan_resources: link the ring, fill the free
        list, reset the cookies and enable interrupts. */
    constructor (base: nat, sg: bool, ctrl: nat, regs: Regs)
      ensures Valid() && fresh(hw)
      ensures Now() == Init(base, sg, ctrl, regs)
      ensures this.regs.control == this.ctrl && forall k: nat :: Bit(this.ctrl, k) <==> 12 <= k <= 14 || Bit(ctrl, k)
    {
      this.base, this.sg := base, sg;
      hw := new Hw[NUM_DESCS](_ => Hw(0, 0, 0, 0, NO_APP));
      free, pending, active, done := [], [], [], [];
      count, idle, err, cyclic, bug := 0, true, false, false, false;
      cookie, completed := 1, 1;
      this.ctrl := Or(ctrl, IRQ_ALL);
      this.regs := regs.(control := Or(ctrl, IRQ_ALL));
      new;
      var i := 0;
      while i < NUM_DESCS
        invariant 0 <= i <= NUM_DESCS
        invariant free == AllSegs()[..i]
        invariant forall k :: 0 <= k < i ==> hw[k] == Hw(Addr(base, Succ(k)), 0, 0, 0, NO_APP)
        invariant forall k :: i <= k < NUM_DESCS ==> hw[k] == Hw(0, 0, 0, 0, NO_APP)
        invariant this.base == base && this.sg == sg && Valid() && fresh(hw)
        invariant pending == [] && active == [] && done == []
        invariant count == 0 && idle && !err && !cyclic && !bug && cookie == 1 && completed == 1
        invariant this.ctrl == Or(ctrl, IRQ_ALL) && this.regs == regs.(control := Or(ctrl, IRQ_ALL))
      {
        hw[i] := hw[i].(next := base + SEG_SIZE * ((i + 1) % NUM_DESCS));
        free := free + [i as SegId];
        i := i + 1;
      }
      assert hw[..] == Init(base, sg, ctrl, regs).hw;
      AllocationExact(base, sg, ctrl, regs);
    }

    // ---- Segments ---------------------------------------------------------------------

    method AllocTxSegment() returns (segment: Option<SegId>)
      requires Valid()
      modifies this
      ensures Valid()
      ensures old(free) == [] ==> segment == None && Now() == old(Now())
      ensures old(free) != [] ==>
        segment == Some(old(free)[0]) && Now() == old(Now()).(free := old(free)[1..])
    {
      segment := None;
      if free != [] {
        segment := Some(free[0]);
        free := free[1..];
      }
    }

    method FreeTxSegment(segment: SegId)
      requires Valid()
      modifies this, hw
      ensures Valid() && Now() == FreeSegs(old(Now()), [segment])
      ensures hw[segment].next == old(hw[segment].next) && Blank(hw[segment])
    {
      hw[segment] := Hw(hw[segment].next, 0, 0, 0, NO_APP);
      free := free + [segment];
      assert hw[..] == CleanAll(old(Now()).hw, [segment]);
    }

    /** The segments of a descriptor, or of one only partly built, go back in order. */
    method FreeTxDescriptor(segments: seq<SegId>)
      requires Valid()
      modifies this, hw
      ensures Valid() && Now() == FreeSegs(old(Now()), segments)
    {
      FreeSegsNone(Now());
      for k := 0 to |segments|
        invariant Valid() && Now() == FreeSegs(old(Now()), segments[..k])
      {
        FreeTxSegment(segments[k]);
        FreeSegsStep(old(Now()), segments[..k], [segments[k]]);
        assert segments[..k + 1] == segments[..k] + [segments[k]];
      }
      assert segments[..|segments|] == segments;
    }

    method FreeDescList(list: seq<Desc>)
      requires Valid()
      modifies this, hw
      ensures Valid() && Now() == FreeSegs(old(Now()), Flat(list))
    {
      FreeSegsNone(Now());
      for k := 0 to |list|
        invariant Valid() && Now() == FreeSegs(old(Now()), Flat(list[..k]))
      {
        FreeTxDescriptor(list[k].segs);
        FreeSegsStep(old(Now()), Flat(list[..k]), list[k].segs);
        assert list[..k + 1] == list[..k] + [list[k]];
        FlatConcat(list[..k], [list[k]]);
        FlatOne(list[k]);
      }
      assert list[..|list|] == list;
    }

    method FreeDescriptors()
      requires Valid()
      modifies this, hw
      ensures Valid()
      ensures Now() == FreeSegs(old(Now()), Flat(old(pending) + old(done) + old(active)))
                         .(pending := [], done := [], active := [])
    {
      FreeDescList(pending);
      pending := [];
      FreeDescList(done);
      done := [];
      FreeDescList(active);
      active := [];
      FreeSegsStep(old(Now()), Flat(old(pending)), Flat(old(done)));
      FreeSegsStep(old(Now()), Flat(old(pending)) + Flat(old(done)), Flat(old(active)));
      FlatConcat(old(pending), old(done));
      FlatConcat(old(pending) + old(done), old(active));
    }

    // ---- Preparation --------------------------------------------------------------------

    /** Take a free segment and describe one piece in it. */
    method TakeAndFill(addr: nat, copy: nat, words: Option<App>, ghost s: State, ghost ps: seq<Range>, ghost n: nat)
      returns (segment: Option<SegId>)
      requires Valid() && n <= |s.free| && n < |ps| && ps[n] == Range(addr, copy)
      requires Now() == Filling(s, ps, words, n)
      modifies this, hw
      ensures Valid()
      ensures segment == None <==> n == |s.free|
      ensures segment == None ==> Now() == Filling(s, ps, words, n)
      ensures segment != None ==> segment == Some(s.free[n]) && Now() == Filling(s, ps, words, n + 1)
    {
      segment := AllocTxSegment();
      if segment != None {
        FillingStep(s, ps, words, n);
        var i := segment.value;
        hw[i] := hw[i].(buf := addr % WORD, control := copy,
                        app := if words.Some? then words.value else hw[i].app);
        assert hw[..] == Filling(s, ps, words, n + 1).hw;
      }
    }

    /** One more segment for the `left` bytes of a range that are still to be described. */
    method FillPiece(addr: nat, left: nat, words: Option<App>, taken: seq<SegId>,
                     ghost s: State, ghost ps: seq<Range>, ghost rest: seq<Range>)
      returns (segments: seq<SegId>, copy: nat, ok: bool)
      requires Valid() && left > 0 && Cut(s, ps, taken, Pieces(addr, left) + rest)
      requires Now() == Filling(s, ps, words, |taken|)
      modifies this, hw
      ensures Valid() && Taken(s, ps, segments) && Now() == Filling(s, ps, words, |segments|)
      ensures 0 < copy <= left
      ensures ok ==> Cut(s, ps, segments, Pieces(addr + copy, left - copy) + rest)
      ensures ok ==> |segments| + |Pieces(addr + copy, left - copy)| == |taken| + |Pieces(addr, left)|
      ensures !ok ==> |segments| == |s.free| < |ps|
    {
      NextPiece(s, ps, taken, addr, left, rest);
      copy := Min(left, MAX_TRANS_LEN);
      var segment := TakeAndFill(addr, copy, words, s, ps, |taken|);
      ok := segment != None;
      segments := if ok then taken + [segment.value] else taken;
    }

    /** The inner loop of both preparations: cut one range into segments, appending them to
        those already taken. It stops when the pool runs dry. */
    method FillRange(addr: nat, len: nat, words: Option<App>, taken: seq<SegId>,
                     ghost s: State, ghost ps: seq<Range>, ghost rest: seq<Range>)
      returns (segments: seq<SegId>, ok: bool)
      requires Valid() && Cut(s, ps, taken, Pieces(addr, len) + rest) && Now() == Filling(s, ps, words, |taken|)
      modifies this, hw
      ensures Valid() && Taken(s, ps, segments) && Now() == Filling(s, ps, words, |segments|)
      ensures ok ==> |segments| == |taken| + |Pieces(addr, len)| && Cut(s, ps, segments, rest)
      ensures !ok ==> |segments| == |s.free| < |ps|
    {
      segments, ok := taken, true;
      var used := 0;
      while used < len
        invariant 0 <= used <= len && Valid() && ok
        invariant Cut(s, ps, segments, Pieces(addr + used, len - used) + rest)
        invariant Now() == Filling(s, ps, words, |segments|)
        invariant |segments| + |Pieces(addr + used, len - used)| == |taken| + |Pieces(addr, len)|
      {
        var copy: nat;
        segments, copy, ok := FillPiece(addr + used, len - used, words, segments, s, ps, rest);
        if !ok {
          return;
        }
        used := used + copy;
      }
      assert Pieces(addr + used, len - used) + rest == rest;
    }

    /** The error exit of both preparations. */
    method GiveBack(segments: seq<SegId>, ghost s: State, ghost ps: seq<Range>, ghost words: Option<App>)
      requires Valid() && FreeClean(s) && |s.free| <= |ps| && segments == s.free[..|s.free|]
      requires Now() == Filling(s, ps, words, |s.free|)
      modifies this, hw
      ensures Valid() && Now() == s
    {
      UndoFilling(s, ps, words);
      assert segments == s.free;
      FreeTxDescriptor(segments);
    }

    /** `wild`: the driver would now take the first segment of a descriptor that has none,
        having changed nothing so far. */
    method PrepSlaveSg(entries: seq<Range>, direction: Direction, app: Option<App>, memory: bool)
      returns (desc: Option<Desc>, wild: bool)
      requires Valid() && FreeClean(Now())
      modifies this, hw
      ensures Valid()
      ensures wild <==> direction != NotSlave && memory && TotalLength(entries) == 0
      ensures direction == NotSlave || !memory || wild ==> desc == None && Now() == old(Now())
      ensures direction != NotSlave && memory && !wild ==>
        Prepared(Now(), desc) == PrepSg(old(Now()), entries, direction == MemToDev, app)
    {
      if direction == NotSlave || !memory {
        return None, false;
      }
      ghost var s, ps := Now(), Split(entries);
      NonEmptySplit(entries);
      var mark := direction == MemToDev;
      var words := if mark then app else None;
      var segments: seq<SegId> := [];
      FillingNone(s, ps, words);
      for i := 0 to |entries|
        invariant Valid() && Cut(s, ps, segments, Split(entries[i..]))
        invariant Now() == Filling(s, ps, words, |segments|)
      {
        var ok: bool;
        NextEntry(entries, i);
        segments, ok := FillRange(entries[i].addr, entries[i].len, words, segments, s, ps, Split(entries[i + 1..]));
        if !ok {
          GiveBack(segments, s, ps, words);
          return None, false;
        }
      }
      assert entries[|entries|..] == [];
      if segments == [] {
        return None, true;
      }
      desc := FinishDescriptor(segments, mark, s, ps, words);
      wild := false;
    }

    /** The common end of both preparations: the descriptor's bus address and packet flags. */
    method FinishDescriptor(segments: seq<SegId>, mark: bool,
                            ghost s: State, ghost ps: seq<Range>, ghost words: Option<App>)
      returns (desc: Option<Desc>)
      requires Valid() && 0 < |segments| == |ps| <= |s.free|
      requires segments == s.free[..|ps|] && Now() == Filling(s, ps, words, |ps|)
      modifies this, hw
      ensures Valid()
      ensures desc == Some(Desc(segments, Addr(s.base, segments[0]), false, false, 0))
      ensures Now() == s.(free := s.free[|ps|..],
                          hw := MarkPacket(Fill(s.hw, s.free[..|ps|], ps, words, |ps|), segments, mark))
    {
      FillPrefix(s.hw, s.free, ps, words, |ps|, |ps|);
      var segs: Segs := segments;
      if mark {
        var segment := segs[0];
        hw[segment] := hw[segment].(control := Or(hw[segment].control, BD_SOP));
        segment := Last(segs);
        hw[segment] := hw[segment].(control := Or(hw[segment].control, BD_EOP));
      }
      desc := Some(Desc(segs, Addr(base, segs[0]), false, false, 0));
    }

    /** The outer loop of the cyclic preparation: one range per period. */
    method FillPeriods(buf: nat, period: nat, periods: nat, ghost s: State, ghost entries: seq<Range>)
      returns (segments: seq<SegId>, ok: bool)
      requires Valid() && FreeClean(s) && Now() == s && |entries| == periods
      requires forall i :: 0 <= i < periods ==> entries[i] == Range(buf + period * i, period)
      modifies this, hw
      ensures Valid()
      ensures ok ==> |segments| == |Split(entries)| <= |s.free| && segments == s.free[..|segments|]
      ensures ok ==> Now() == Filling(s, Split(entries), None, |segments|)
      ensures !ok ==> |s.free| < |Split(entries)| && Now() == s
    {
      segments, ok := [], true;
      ghost var ps := Split(entries);
      FillingNone(s, ps, None);
      assert entries[0..] == entries;
      for i := 0 to periods
        invariant Valid() && ok && Cut(s, ps, segments, Split(entries[i..]))
        invariant Now() == Filling(s, ps, None, |segments|)
      {
        NextEntry(entries, i);
        segments, ok := FillRange(buf + period * i, period, None, segments, s, ps, Split(entries[i + 1..]));
        if !ok {
          GiveBack(segments, s, ps, None);
          return;
        }
      }
      assert entries[periods..] == [];
    }

    /** `wild`: the driver would divide by zero, or take the first segment of a descriptor
        that has none. */
    method PrepDmaCyclic(buf: nat, len: nat, period: nat, direction: Direction, memory: bool)
      returns (desc: Option<Desc>, wild: bool)
      requires Valid() && FreeClean(Now())
      modifies this, hw
      ensures Valid()
      ensures wild <==> period == 0 || (direction != NotSlave && memory && len < period)
      ensures direction == NotSlave || !memory || wild ==> desc == None && Now() == old(Now())
      ensures direction != NotSlave && memory && !wild ==>
        Prepared(Now(), desc) == PrepCyclic(old(Now()), buf, len, period, direction == MemToDev)
    {
      if period == 0 {
        return None, true;
      }
      var periods := len / period;
      if direction == NotSlave || !memory {
        return None, false;
      }
      ghost var s, ps := Now(), Split(Periods(buf, period, periods));
      var mark := direction == MemToDev;
      var segments, ok := FillPeriods(buf, period, periods, s, Periods(buf, period, periods));
      if !ok {
        return None, false;
      }
      if segments == [] {
        return None, true;
      }
      CyclicFits(s, buf, len, period);
      desc := FinishDescriptor(segments, mark, s, ps, None);
      desc := Some(desc.value.(cyclic := true));
      ctrl := Or(ctrl, CR_CYCLIC_BD_EN);
      regs := regs.(control := ctrl);
      wild := false;
    }

    // ---- Submission ----------------------------------------------------------------------

    method AppendDescQueue(desc: Desc)
      requires Valid()
      modifies this, hw
      ensures Valid() && Now() == Append(old(Now()), desc)
    {
      if pending != [] {
        var tail := Last(Last(pending).segs);
        hw[tail] := hw[tail].(next := desc.phys);
      }
      pending := pending + [desc];
      count := count + 1;
      if count > COALESCE_MAX {
        count := COALESCE_MAX;
        bug := true;
      }
    }

    /** `after`: the control register when reset polling ends. */
    method ChanReset(after: nat) returns (ok: bool)
      requires Valid() && err
      modifies this
      ensures Valid() && Now() == Reset(old(Now()), after) && ok == !err
    {
      ctrl := regs.control;
      regs := regs.(control := after);
      ok := And(after, CR_RESET) == 0;
      if ok { err := false; }
    }

    /** What is left of submission once the channel is sound. */
    method Accept(desc: Desc) returns (outcome: Outcome)
      requires Valid()
      modifies this, hw
      ensures Valid() && Submitted(Now(), outcome) == Enqueue(old(Now()), desc)
    {
      cookie := cookie + 1;
      outcome := Accepted(cookie);
      AppendDescQueue(desc.(cookie := cookie));
      if desc.cyclic && !bug {
        cyclic := true;
      }
    }

    method TxSubmit(desc: Desc, after: nat) returns (outcome: Outcome)
      requires Valid()
      modifies this, hw
      ensures Valid() && Submitted(Now(), outcome) == Submit(old(Now()), desc, after)
      ensures !old(cyclic) && old(err) ==> ctrl == old(regs).control && regs.control == after
    {
      SubmissionExactly(Now(), desc, after);
      if cyclic {
        FreeTxDescriptor(desc.segs);
        return Busy;
      }
      if err {
        var ok := ChanReset(after);
        if !ok {
          return ResetFailed;
        }
      }
      outcome := Accept(desc);
    }

    // ---- Starting and completing -----------------------------------------------------------

    /** `ok`: the engine reported running within the poll limit. */
    method StartEngine(ok: bool)
      requires Valid()
      modifies this
      ensures Valid()
      ensures Now() == old(Now()).(ctrl := Or(old(ctrl), CR_RUNSTOP),
                                   regs := old(regs).(control := Or(old(ctrl), CR_RUNSTOP)),
                                   err := old(err) || !ok)
    {
      ctrl := Or(ctrl, CR_RUNSTOP);
      regs := regs.(control := ctrl);
      if !ok { err := true; }
    }

    /** Ask for an interrupt after the counted descriptors, and name the first segment. */
    method ProgramBatch(head: Desc)
      requires Valid()
      modifies this
      ensures Valid()
      ensures
        var ctrl' := if old(count) <= COALESCE_MAX then SetCoalesce(old(ctrl), old(count)) else old(ctrl);
        ctrl == ctrl' &&
        Now() == old(Now()).(ctrl := ctrl',
          regs := old(regs).(control := if old(count) <= COALESCE_MAX then ctrl' else old(regs).control,
                             curdesc := if sg then head.phys else old(regs).curdesc))
    {
      if count <= COALESCE_MAX {
        ctrl := SetCoalesce(ctrl, count);
        regs := regs.(control := ctrl);
      }
      if sg {
        regs := regs.(curdesc := head.phys);
      }
    }

    /** Name the last segment, or the one transfer: this makes the engine go. */
    method ProgramTail(head: Desc, tail: Desc)
      requires Valid()
      modifies this`regs
      ensures Valid()
      ensures
        var first := hw[head.segs[0]];
        regs == if sg then old(regs).(taildesc := Addr(base, Last(tail.segs)))
                else old(regs).(srcdst := first.buf, btt := Length(first.control))
    {
      if sg {
        regs := regs.(taildesc := Addr(base, Last(tail.segs)));
      } else {
        var first := hw[head.segs[0]];
        regs := regs.(srcdst := first.buf, btt := Length(first.control));
      }
    }

    /** Program the pending batch and set the engine running. */
    method Launch(head: Desc, ok: bool)
      requires Valid() && !err
      modifies this
      ensures Valid()
      ensures Now() == old(Now()).(
        ctrl := StartControl(old(Now())), err := !ok,
        regs := old(regs).(control := StartControl(old(Now())), curdesc := if sg then head.phys else old(regs).curdesc))
    {
      ProgramBatch(head);
      StartEngine(ok);
    }

    method StartTransfer(ok: bool)
      requires Valid()
      modifies this
      ensures Valid() && Now() == Start(old(Now()), ok)
      ensures old(!err && pending != [] && idle) ==>
        regs.control == ctrl && Bit(ctrl, 0) && (old(count) <= 255 ==> Field(ctrl) == old(count))
    {
      StartExactly(Now(), ok);
      if err || pending == [] || !idle {
        return;
      }
      var head, tail := pending[0], Last(pending);
      Launch(head, ok);
      if err {
        return;
      }
      ProgramTail(head, tail);
      active := active + pending;
      pending := [];
      count := 0;
      idle := false;
    }

    method IssuePending(ok: bool)
      requires Valid()
      modifies this
      ensures Valid() && Now() == Start(old(Now()), ok)
    {
      StartTransfer(ok);
    }

    method CompleteDescriptor()
      requires Valid()
      modifies this
      ensures Valid() && Now() == Complete(old(Now()))
    {
      ghost var s := Now();
      ghost var k := 0;
      assert s.done + s.active[..0] == s.done;
      while active != []
        invariant 0 <= k <= |s.active| && Valid()
        invariant Now() == Completing(s, k)
        decreases |active|
      {
        CompletedStep(s, k);
        var desc := active[0];
        active := active[1..];
        if !desc.cyclic {
          completed := desc.cookie;
        }
        done := done + [desc];
        k := k + 1;
      }
      assert s.active[..k] == s.active;
    }

    /** `ack`: what is written back to the status register. */
    method IrqHandler(status: nat, ok: bool) returns (handled: bool, ack: nat)
      requires Valid()
      modifies this
      ensures Valid() && Now() == Irq(old(Now()), status, ok)
      ensures handled <==> Bit(status, 12) || Bit(status, 13) || Bit(status, 14)
      ensures forall k: nat :: Bit(ack, k) <==> Bit(status, k) && 12 <= k <= 14
    {
      StatusBits(status);
      AckBits(status);
      ack := And(status, IRQ_ALL);
      handled := ack != 0;
      if !handled {
        return;
      }
      if And(status, IRQ_ERROR) != 0 {
        err := true;
      }
      if And(status, IRQ_IOC) != 0 {
        CompleteDescriptor();
        idle := true;
        StartTransfer(ok);
      }
    }

    // ---- Cleanup and termination -------------------------------------------------------------

    /** Cleanup up to the point where it releases the lock for the callback of an unlinked
        descriptor; FreeTxDescriptor is the rest. */
    method TakeDone() returns (desc: Desc)
      requires Valid() && CanTake(Now())
      modifies this
      ensures Valid() && Now() == Take(old(Now())) && desc == old(done)[0]
    {
      desc := done[0];
      done := done[1..];
    }

    method Halt(ok: bool)
      requires Valid()
      modifies this
      ensures Valid()
      ensures Now() == old(Now()).(ctrl := AndNot(old(ctrl), CR_RUNSTOP),
                                   regs := old(regs).(control := AndNot(old(ctrl), CR_RUNSTOP)),
                                   err := old(err) || !ok)
    {
      ctrl := AndNot(ctrl, CR_RUNSTOP);
      regs := regs.(control := ctrl);
      if !ok { err := true; }
    }

    method TerminateAll(ok: bool)
      requires Valid()
      modifies this, hw
      ensures Valid() && Now() == Terminate(old(Now()), ok)
      ensures (err <==> old(err) || !ok) && regs.control == ctrl
    {
      Halt(ok);
      FreeDescriptors();
      if cyclic {
        ctrl := AndNot(ctrl, CR_CYCLIC_BD_EN);
        regs := regs.(control := ctrl);
        cyclic := false;
      }
    }

    // ---- Status --------------------------------------------------------------------------------

    /** Completion, and for a caller that wants it the residue of the last active descriptor,
        summed in 32 bits. `wild`: there is no such descriptor, and the driver would read the
        list head as one. */
    method TxStatus(cookie: nat, wanted: bool) returns (complete: bool, residue: nat, wild: bool)
      requires Valid()
      ensures complete == IsComplete(Now(), cookie)
      ensures wild <==> wanted && !QuerySafe(Now(), cookie)
      ensures complete || !wanted || !sg || wild ==> residue == 0
      ensures !complete && wanted && sg && !wild ==> residue == Residue(Now().hw, Last(active).segs)
    {
      residue, wild := 0, false;
      complete := cookie <= completed || this.cookie < cookie;
      if complete || !wanted {
        return;
      }
      if sg {
        if active == [] {
          wild := true;
          return;
        }
        var desc := Last(active);
        for k := 0 to |desc.segs|
          invariant residue == Residue(Now().hw, desc.segs[..k])
        {
          var h := hw[desc.segs[k]];
          residue := (residue + And((h.control - h.status) % WORD, MAX_TRANS_LEN)) % WORD;
          assert desc.segs[..k + 1][..k] == desc.segs[..k];
        }
        assert desc.segs[..|desc.segs|] == desc.segs;
      }
    }
  }
}
