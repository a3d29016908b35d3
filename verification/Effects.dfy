/** What each operation leaves in the registers, the flags and segment memory, from any state and
    for every answer of the hardware, in the hardware's own numbers. */
module Effects {
  import opened Bits
  import opened ChannelState
  import opened Decisions
  import opened Registers

  /** Bits 16 to 23 of a word. */
  function Field(word: nat): nat { word / 0x1_0000 % 0x100 }

  /** A segment that holds nothing but its link. */
  predicate Blank(h: Hw) { h.buf == 0 && h.control == 0 && h.status == 0 && h.app == [0, 0, 0, 0, 0] }

  /** Allocation: a ring of 255 blank segments of 128 bytes, all free, in order; all interrupts
      enabled, in the driver's copy of the control register and in the register; and the first
      cookie given out will be 2. */
  lemma AllocationExact(base: nat, sg: bool, ctrl: nat, regs: Regs)
    ensures
      var s := Init(base, sg, ctrl, regs);
      && s.base == base && s.sg == sg && |s.free| == 255 && |s.hw| == 255
      && (forall i :: 0 <= i < 255 ==>
            s.free[i] == i && s.hw[i].next == base + 128 * ((i + 1) % 255) && Blank(s.hw[i]))
      && s.pending == [] && s.active == [] && s.done == [] && s.count == 0 && s.cookie == 1 && s.completed == 1
      && s.idle && !s.err && !s.cyclic && !s.bug
      && s.regs == regs.(control := s.ctrl)
      && (forall k: nat :: Bit(s.ctrl, k) <==> 12 <= k <= 14 || Bit(ctrl, k))
  {
    forall k: nat ensures Bit(Or(ctrl, IRQ_ALL), k) <==> 12 <= k <= 14 || Bit(ctrl, k) {
      BitOr(ctrl, IRQ_ALL, k);
      IrqAllBit(k);
    }
  }

  /** Segments that are given back go to the end of the free list, blank but for their links. */
  lemma FreeExactly(s: State, segs: seq<SegId>)
    ensures
      var t := FreeSegs(s, segs);
      && t == s.(hw := t.hw, free := s.free + segs)
      && forall i: SegId :: if i in segs then t.hw[i].next == s.hw[i].next && Blank(t.hw[i]) else t.hw[i] == s.hw[i]
  {
  }

  /** What a start writes to the control register. */
  lemma StartControlBits(s: State)
    ensures Field(StartControl(s)) == if s.count <= 255 then s.count else Field(s.ctrl)
    ensures forall k: nat :: !(16 <= k < 24) ==> (Bit(StartControl(s), k) <==> k == 0 || Bit(s.ctrl, k))
  {
    var ctrl := if s.count <= COALESCE_MAX then SetCoalesce(s.ctrl, s.count) else s.ctrl;
    RunstopExact(ctrl);
    CoalesceIsField(Or(ctrl, CR_RUNSTOP));
    CoalesceIsField(ctrl);
    if s.count <= COALESCE_MAX { SetCoalesceExact(s.ctrl, s.count); }
  }

  /** Every start: nothing at all unless the channel is sound, idle and has something pending.
      Otherwise the control register gets the run bit and the pending count and keeps all its
      other bits, and CURDESC the first segment's address. If the engine then runs, TAILDESC gets
      the last segment's, or without scatter-gather the two transfer registers the first
      segment's buffer and length; and the whole batch becomes active. If it does not, that is an
      error, and everything else stays. */
  lemma StartExactly(s: State, ok: bool)
    ensures
      var t := Start(s, ok);
      if s.err || s.pending == [] || !s.idle then
        t == s
      else
        var first := s.hw[s.pending[0].segs[0]];
        var last: nat := Last(Last(s.pending).segs);
        && t.regs.control == t.ctrl
        && Field(t.ctrl) == (if s.count <= 255 then s.count else Field(s.ctrl))
        && (forall k: nat :: !(16 <= k < 24) ==> (Bit(t.ctrl, k) <==> k == 0 || Bit(s.ctrl, k)))
        && t.regs.curdesc == (if s.sg then s.pending[0].phys else s.regs.curdesc)
        && t.regs.taildesc == (if s.sg && ok then s.base + 128 * last else s.regs.taildesc)
        && t.regs.srcdst == (if !s.sg && ok then first.buf else s.regs.srcdst)
        && t.regs.btt == (if !s.sg && ok then first.control % 0x80_0000 else s.regs.btt)
        && t == (if ok then
                   s.(ctrl := t.ctrl, regs := t.regs, active := s.active + s.pending, pending := [], count := 0,
                      idle := false)
                 else s.(ctrl := t.ctrl, regs := t.regs, err := true))
  {
    if CanStart(s) {
      StartControlBits(s);
      LengthIsMod(s.hw[s.pending[0].segs[0]].control);
    }
  }

  /** Every interrupt: one without bits 12 to 14 is another device's. Bit 14 raises the error flag;
      bit 12 completes the whole active list, marks the channel idle and attempts a start. */
  lemma InterruptExactly(s: State, status: nat, ok: bool)
    ensures
      var t := Irq(s, status, ok);
      var u := s.(err := s.err || Bit(status, 14));
      if Bit(status, 12) then
        t == Start(u.(done := s.done + s.active, active := [], idle := true,
                      completed := CompletedBy(s.active, s.completed)), ok)
      else t == u
    ensures !Bit(status, 12) && !Bit(status, 13) && !Bit(status, 14) ==> Irq(s, status, ok) == s
  {
    StatusBits(status);
    assert !Bit(status, 14) ==> s.(err := s.err || Bit(status, 14)) == s;
  }

  /** Every submission. While cyclic: the descriptor's segments come back blank, at the end of the
      free list. After an error: the driver's copy of the control register becomes what was in the
      register, and the register is what the reset left there, whether or not it succeeds, which it
      does if bit 2 has cleared. Accepted: the next cookie, the end of the pending list, a link to
      it from the segment before, and a count that stops at 255. */
  lemma SubmissionExactly(s: State, d: Desc, after: nat)
    ensures
      var Submitted(t, outcome) := Submit(s, d, after);
      if s.cyclic then
        && outcome == Busy && t == s.(hw := t.hw, free := s.free + d.segs)
        && forall i: SegId :: if i in d.segs then t.hw[i].next == s.hw[i].next && Blank(t.hw[i]) else t.hw[i] == s.hw[i]
      else if s.err && Bit(after, 2) then
        outcome == ResetFailed && t == s.(ctrl := s.regs.control, regs := s.regs.(control := after))
      else
        && outcome == Accepted(s.cookie + 1)
        && Enqueued(s, t, d.(cookie := s.cookie + 1))
        && t.ctrl == (if s.err then s.regs.control else s.ctrl)
        && t.regs == (if s.err then s.regs.(control := after) else s.regs)
  {
    PowersOfTwo();
    TestBit(after, 2);
    if !s.cyclic && !(s.err && Bit(after, 2)) { EnqueueExactly(if s.err then Reset(s, after) else s, d); }
  }

  lemma EnqueueExactly(s: State, d: Desc)
    requires !s.cyclic && !s.err
    ensures
      var Submitted(t, outcome) := Enqueue(s, d);
      && outcome == Accepted(s.cookie + 1) && Enqueued(s, t, d.(cookie := s.cookie + 1))
      && t.ctrl == s.ctrl && t.regs == s.regs
  {
  }

  /** The descriptor is the new end of the pending list. */
  ghost predicate Enqueued(s: State, t: State, d: Desc) {
    && t == s.(hw := t.hw, pending := s.pending + [d], cookie := d.cookie, count := t.count, bug := t.bug, err := false,
               cyclic := d.cyclic && !t.bug, ctrl := t.ctrl, regs := t.regs)
    && t.count == (if s.count < 255 then s.count + 1 else 255) && t.bug == (s.bug || s.count >= 255)
    && forall i: SegId ::
         t.hw[i] == if s.pending != [] && i == Last(Last(s.pending).segs) then s.hw[i].(next := d.phys) else s.hw[i]
  }

  /** Every termination: the control register loses the run bit, and that of cyclic mode on a
      cyclic channel; a halt that fails is an error, one that succeeds clears none; the pending,
      done and active segments come back blank, in that order; nothing is counted off. */
  lemma TerminationExactly(s: State, ok: bool)
    ensures
      var t := Terminate(s, ok);
      var gone := Flat(s.pending + s.done + s.active);
      && t == s.(hw := t.hw, free := s.free + gone, pending := [], done := [], active := [], cyclic := false,
                 err := s.err || !ok, ctrl := t.ctrl, regs := s.regs.(control := t.ctrl))
      && (forall k: nat :: Bit(t.ctrl, k) <==> Bit(s.ctrl, k) && k != 0 && (s.cyclic ==> k != 4))
      && forall i: SegId :: if i in gone then t.hw[i].next == s.hw[i].next && Blank(t.hw[i]) else t.hw[i] == s.hw[i]
  {
    forall k: nat ensures Bit(Terminate(s, ok).ctrl, k) <==> Bit(s.ctrl, k) && k != 0 && (s.cyclic ==> k != 4) {
      TerminateDecides(s, ok, k);
    }
  }
}
