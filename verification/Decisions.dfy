/** How flag bits decide what an operation does: interrupts, submission, termination. */
module Decisions {
  import opened Bits
  import opened ChannelState
  import opened Registers
  import opened Runs

  lemma HasIocBit(status: nat)
    ensures HasIoc(status) <==> Bit(status, 12)
    ensures And(status, IRQ_ERROR) != 0 <==> Bit(status, 14)
  {
    StatusBits(status);
  }

  lemma IocWord()
    ensures HasIoc(IRQ_IOC) && And(IRQ_IOC, IRQ_ERROR) == 0
  {
    PowersOfTwo();
    BitPow2(12, 12);
    BitPow2(12, 14);
    StatusBits(IRQ_IOC);
  }

  lemma ErrorWord()
    ensures !HasIoc(IRQ_ERROR) && And(IRQ_ERROR, IRQ_ERROR) != 0
  {
    PowersOfTwo();
    BitPow2(14, 12);
    BitPow2(14, 14);
    StatusBits(IRQ_ERROR);
  }

  /** Bit 14 of the status raises the error flag, and a raised flag stops the next start; bit
      12 completes the active list and marks the channel idle unless a batch starts. */
  lemma IrqDecides(s: State, status: nat, ok: bool)
    ensures
      var t := Irq(s, status, ok);
      if Bit(status, 12) then
        && t.done == s.done + s.active
        && (if s.err || Bit(status, 14) then t.err && t.idle && t.active == [] && t.pending == s.pending
            else if s.pending != [] && ok then !t.err && !t.idle && t.active == s.pending && t.pending == []
            else t.idle && t.active == [] && t.pending == s.pending && (t.err <==> s.pending != []))
      else t == s.(err := s.err || Bit(status, 14))
  {
    StatusBits(status);
    if !Bit(status, 12) {
      if !Bit(status, 14) { assert s.(err := s.err || Bit(status, 14)) == s; }
    } else {
      var s1 := Completed(s, status);
      assert Irq(s, status, ok) == Start(s1, ok);
    }
  }

  /** A cyclic channel refuses; otherwise an error must be reset first, and submission is
      accepted exactly when there is none or the reset bit has cleared. */
  lemma SubmitDecides(s: State, d: Desc, after: nat)
    ensures Submit(s, d, after).outcome.Busy? <==> s.cyclic
    ensures Submit(s, d, after).outcome.Accepted? <==> !s.cyclic && (s.err ==> !Bit(after, 2))
    ensures Submit(s, d, after).outcome.Accepted? ==> !Submit(s, d, after).state.err
    ensures Submit(s, d, after).outcome.ResetFailed? ==>
      Submit(s, d, after).state == s.(ctrl := s.regs.control, regs := s.regs.(control := after))
  {
    PowersOfTwo();
    TestBit(after, 2);
  }

  /** Termination clears the run bit, and the cyclic bit of a channel that was cyclic, and no
      other; the channel takes submissions again. */
  lemma TerminateDecides(s: State, ok: bool, k: nat)
    ensures !Terminate(s, ok).cyclic && Terminate(s, ok).regs.control == Terminate(s, ok).ctrl
    ensures Bit(Terminate(s, ok).ctrl, k) <==> Bit(s.ctrl, k) && k != 0 && (s.cyclic ==> k != 4)
  {
    PowersOfTwo();
    BitAndNot(s.ctrl, CR_RUNSTOP, k);
    BitAndNot(AndNot(s.ctrl, CR_RUNSTOP), CR_CYCLIC_BD_EN, k);
    BitPow2(0, k);
    BitPow2(4, k);
  }
}
