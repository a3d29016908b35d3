/** What whole runs leave in the control register and in the error flag. */
module Ledger {
  import opened Bits
  import opened ChannelState
  import opened CyclicMode
  import opened Decisions
  import opened Effects
  import opened Memory
  import opened Options
  import opened Preparation
  import opened Queues
  import opened Runs

  /** The step attempts a start: an issue on an idle channel, or a completion interrupt that
      reports no error. */
  predicate Attempts(y: System, step: Step) {
    && !y.ch.bug && !y.ch.err && y.ch.pending != []
    && match step
       case StepIssue(_) => y.ch.idle
       case StepIrq(status, _) => Bit(status, 12) && !Bit(status, 14)
       case _ => false
  }

  // ---- The control register -------------------------------------------------------------------

  /** The step resets the engine. */
  predicate Resetting(y: System, step: Step) { !y.ch.bug && ResetsEngine(y, step) }

  /** The step writes the driver's copy of the control register to the register. */
  predicate Writes(y: System, step: Step) {
    Attempts(y, step) || (!y.ch.bug && (PreparesCyclic(y, step) || step.StepTerminate?))
  }

  /** The control register's bit k, outside the coalesce field, once the step has written it. */
  predicate BitWritten(y: System, step: Step, k: nat) {
    match step
    case StepPrepCyclic(_, _, _, _) => k == 4 || Bit(y.ch.ctrl, k)
    case StepTerminate(_) => Bit(y.ch.ctrl, k) && k != 0 && (y.ch.cyclic ==> k != 4)
    case _ => k == 0 || Bit(y.ch.ctrl, k)
  }

  /** The register after a step that writes it: the driver's copy, in which a start sets bit 0 and
      the coalesce field, a cyclic preparation sets bit 4, and a terminate clears bit 0 and that. */
  ghost predicate Written(y: System, step: Step, t: State) {
    && t.regs.control == t.ctrl
    && (forall k: nat :: !(16 <= k < 24) ==> (Bit(t.ctrl, k) <==> BitWritten(y, step, k)))
    && (if Attempts(y, step) then Field(t.ctrl) == |y.ch.pending| + y.h.stale
        else forall k: nat :: 16 <= k < 24 ==> (Bit(t.ctrl, k) <==> Bit(y.ch.ctrl, k)))
  }

  /** What the step does to the control register. */
  ghost predicate Moved(y: System, step: Step, t: State) {
    if Resetting(y, step) then t.ctrl == y.ch.regs.control && t.regs.control == step.after
    else if Writes(y, step) then Written(y, step, t)
    else t.ctrl == y.ch.ctrl && t.regs.control == y.ch.regs.control
  }

  /** Exactly which steps change the control register, and how. */
  lemma ControlNext(y: System, step: Step)
    requires QueueInv(y)
    ensures Moved(y, step, Next(y, step).ch)
  {
    if y.ch.bug {
      assert Next(y, step) == y;
    } else if IsPrep(step) {
      PrepControl(y, step);
    } else if step.StepSubmit? {
      SubmitControl(y, step);
    } else if step.StepIssue? {
      IssueControl(y, step.ok);
    } else if step.StepIrq? {
      IrqControl(y, step.status, step.ok);
    } else if step.StepTerminate? {
      TerminateControl(y, step.ok);
    } else {
      OtherControl(y, step);
    }
  }

  lemma PrepControl(y: System, step: Step)
    requires !y.ch.bug && IsPrep(step)
    ensures Moved(y, step, Next(y, step).ch)
  {
    if PreparesCyclic(y, step) { CyclicBit(y.ch.ctrl); }
  }

  lemma SubmitControl(y: System, step: Step)
    requires !y.ch.bug && step.StepSubmit?
    ensures Moved(y, step, Next(y, step).ch)
  {
    if step.j < |y.prepared| { SubmissionExactly(y.ch, y.prepared[step.j].(callback := step.callback), step.after); }
  }

  lemma StartWrites(y: System, s: State, step: Step, ok: bool)
    requires QueueInv(y) && !y.ch.bug && !IsPrep(step) && !step.StepTerminate? && !step.StepSubmit?
    requires s.ctrl == y.ch.ctrl && s.regs == y.ch.regs && s.count == y.ch.count && s.pending == y.ch.pending
    requires Attempts(y, step) <==> !s.err && s.pending != [] && s.idle
    ensures Moved(y, step, Start(s, ok))
  {
    StartExactly(s, ok);
  }

  lemma IssueControl(y: System, ok: bool)
    requires QueueInv(y) && !y.ch.bug
    ensures Moved(y, StepIssue(ok), Next(y, StepIssue(ok)).ch)
  {
    StartWrites(y, y.ch, StepIssue(ok), ok);
  }

  lemma IrqControl(y: System, status: nat, ok: bool)
    requires QueueInv(y) && !y.ch.bug
    ensures Moved(y, StepIrq(status, ok), Next(y, StepIrq(status, ok)).ch)
  {
    InterruptExactly(y.ch, status, ok);
    if Bit(status, 12) {
      var u := y.ch.(err := y.ch.err || Bit(status, 14), done := y.ch.done + y.ch.active, active := [], idle := true,
                     completed := CompletedBy(y.ch.active, y.ch.completed));
      StartWrites(y, u, StepIrq(status, ok), ok);
    }
  }

  lemma TerminateControl(y: System, ok: bool)
    requires !y.ch.bug
    ensures Moved(y, StepTerminate(ok), Next(y, StepTerminate(ok)).ch)
  {
    var t := Halted(y.ch, ok);
  }

  lemma Halted(s: State, ok: bool) returns (t: State)
    ensures t == Terminate(s, ok) && t.regs.control == t.ctrl
    ensures forall k: nat :: Bit(t.ctrl, k) <==> Bit(s.ctrl, k) && k != 0 && (s.cyclic ==> k != 4)
  {
    TerminationExactly(s, ok);
    t := Terminate(s, ok);
  }

  lemma OtherControl(y: System, step: Step)
    requires !IsPrep(step) && !step.StepSubmit? && !step.StepIssue? && !step.StepIrq? && !step.StepTerminate?
    ensures Moved(y, step, Next(y, step).ch)
  {
  }

  /** What the control register holds: the driver's copy, or what the last reset left there, if no
      step has written it since. */
  predicate Holding(s: State, left: Option<nat>) {
    s.regs.control == if left.Some? then left.value else s.ctrl
  }

  function LeftAfter(y: System, step: Step, left: Option<nat>): Option<nat> {
    if Resetting(y, step) then Some(step.after) else if Writes(y, step) then None else left
  }

  function LeftByReset(y: System, steps: seq<Step>, left: Option<nat>): Option<nat>
    decreases |steps|
  {
    if steps == [] then left else LeftByReset(Next(y, steps[0]), steps[1..], LeftAfter(y, steps[0], left))
  }

  lemma {:induction false} RegisterFrom(y: System, steps: seq<Step>, left: Option<nat>)
    requires ChannelInv(y) && Holding(y.ch, left)
    ensures Holding(Run(y, steps).ch, LeftByReset(y, steps, left))
    decreases |steps|
  {
    if steps != [] {
      ControlNext(y, steps[0]);
      MemoryNext(y, steps[0]);
      QueueNext(y, steps[0]);
      RegisterFrom(Next(y, steps[0]), steps[1..], LeftAfter(y, steps[0], left));
    }
  }

  /** In every run from allocation the control register is the driver's copy, as the last start,
      cyclic preparation or terminate wrote it, or what a reset has left there since. */
  lemma RegisterInEveryRun(base: nat, sg: bool, ctrl: nat, regs: Regs, steps: seq<Step>)
    ensures
      var y := Boot(base, sg, ctrl, regs);
      Holding(Run(y, steps).ch, LeftByReset(y, steps, None))
  {
    BootChannel(base, sg, ctrl, regs);
    RegisterFrom(Boot(base, sg, ctrl, regs), steps, None);
  }

  // ---- The address registers ------------------------------------------------------------------

  /** The other registers once a start has been attempted from state s. */
  ghost predicate Addressing(s: State, ok: bool, regs: Regs) {
    s.pending != [] &&
    var first := s.hw[s.pending[0].segs[0]];
    var last: nat := Last(Last(s.pending).segs);
    && regs.curdesc == (if s.sg then s.pending[0].phys else s.regs.curdesc)
    && regs.taildesc == (if s.sg && ok then s.base + 128 * last else s.regs.taildesc)
    && regs.srcdst == (if !s.sg && ok then first.buf else s.regs.srcdst)
    && regs.btt == (if !s.sg && ok then first.control % 0x80_0000 else s.regs.btt)
  }

  ghost predicate Addresses(y: System, step: Step, t: State) {
    if Attempts(y, step) then Addressing(y.ch, step.ok, t.regs) else t.regs == y.ch.regs.(control := t.regs.control)
  }

  /** Only a start writes to the other registers: which ones, and what. */
  lemma AddressesNext(y: System, step: Step)
    ensures Addresses(y, step, Next(y, step).ch)
  {
    if !y.ch.bug {
      if IsPrep(step) {
        var z := PrepStep(y, step);
      } else if step.StepSubmit? {
        SubmitAddresses(y, step);
      } else if step.StepIssue? {
        StartExactly(y.ch, step.ok);
      } else if step.StepIrq? {
        IrqAddresses(y, step.status, step.ok);
      } else if step.StepTerminate? {
        TerminateAddresses(y.ch, step.ok);
      }
    }
  }

  lemma SubmitAddresses(y: System, step: Step)
    requires !y.ch.bug && step.StepSubmit?
    ensures Addresses(y, step, Next(y, step).ch)
  {
    if step.j < |y.prepared| { SubmissionExactly(y.ch, y.prepared[step.j].(callback := step.callback), step.after); }
  }

  lemma IrqAddresses(y: System, status: nat, ok: bool)
    requires !y.ch.bug
    ensures Addresses(y, StepIrq(status, ok), Next(y, StepIrq(status, ok)).ch)
  {
    InterruptExactly(y.ch, status, ok);
    if Bit(status, 12) {
      var u := y.ch.(err := y.ch.err || Bit(status, 14), done := y.ch.done + y.ch.active, active := [], idle := true,
                     completed := CompletedBy(y.ch.active, y.ch.completed));
      StartExactly(u, ok);
    }
  }

  lemma TerminateAddresses(s: State, ok: bool)
    ensures Terminate(s, ok).regs == s.regs.(control := Terminate(s, ok).regs.control)
  {
    TerminationExactly(s, ok);
  }

  /** Exactly when the batch in progress is lost: when a submission has reset the engine, or tried
      to, since the batch was started. */
  lemma LostNext(y: System, step: Step)
    ensures Next(y, step).h.lost <==> Resetting(y, step) || (y.h.lost && !(Attempts(y, step) && step.ok))
  {
    if !y.ch.bug {
      if IsPrep(step) {
        var z := PrepStep(y, step);
      } else if step.StepSubmit? {
        SubmitLoses(y, step);
      } else if step.StepIrq? {
        IrqLoses(y, step.status, step.ok);
      }
    }
  }

  lemma SubmitLoses(y: System, step: Step)
    requires !y.ch.bug && step.StepSubmit?
    ensures Next(y, step).h.lost <==> Resetting(y, step) || y.h.lost
  {
    if step.j < |y.prepared| { SubmissionExactly(y.ch, y.prepared[step.j].(callback := step.callback), step.after); }
  }

  lemma IrqLoses(y: System, status: nat, ok: bool)
    requires !y.ch.bug
    ensures Next(y, StepIrq(status, ok)).h.lost <==> y.h.lost && !(Attempts(y, StepIrq(status, ok)) && ok)
  {
    HasIocBit(status);
  }

  // ---- The error flag -------------------------------------------------------------------------

  /** Whether the channel is in error after a step, knowing whether it was before: an error
      interrupt, a start that fails and a halt that fails raise the flag; only a submission whose
      reset succeeds clears it. */
  predicate ErrAfter(y: System, step: Step, err: bool) {
    if y.ch.bug then err
    else
      match step
      case StepIssue(ok) => err || (Attempts(y, step) && !ok)
      case StepIrq(status, ok) => err || Bit(status, 14) || (Attempts(y, step) && !ok)
      case StepTerminate(ok) => err || !ok
      case StepSubmit(_, _, after) => err && !(Resetting(y, step) && !Bit(after, 2))
      case _ => err
  }

  lemma ErrNext(y: System, step: Step)
    ensures Next(y, step).ch.err <==> ErrAfter(y, step, y.ch.err)
  {
    if !y.ch.bug {
      if IsPrep(step) {
        var z := PrepStep(y, step);
      } else if step.StepSubmit? {
        SubmitErr(y, step);
      } else if step.StepIrq? {
        IrqDecides(y.ch, step.status, step.ok);
      } else if step.StepTerminate? {
        TerminationExactly(y.ch, step.ok);
      } else {
        OtherErr(y, step);
      }
    }
  }

  lemma SubmitErr(y: System, step: Step)
    requires !y.ch.bug && step.StepSubmit?
    ensures Next(y, step).ch.err <==> ErrAfter(y, step, y.ch.err)
  {
    if step.j < |y.prepared| { SubmissionExactly(y.ch, y.prepared[step.j].(callback := step.callback), step.after); }
  }

  lemma OtherErr(y: System, step: Step)
    requires !IsPrep(step) && !step.StepSubmit? && !step.StepIrq? && !step.StepTerminate?
    ensures Next(y, step).ch.err <==> ErrAfter(y, step, y.ch.err)
  {
    if step.StepIssue? { StartExactly(y.ch, step.ok); }
  }

  predicate Faulty(y: System, steps: seq<Step>, err: bool)
    decreases |steps|
  {
    if steps == [] then err else Faulty(Next(y, steps[0]), steps[1..], ErrAfter(y, steps[0], err))
  }

  lemma {:induction false} ErrFrom(y: System, steps: seq<Step>)
    ensures Run(y, steps).ch.err <==> Faulty(y, steps, y.ch.err)
    decreases |steps|
  {
    if steps != [] {
      ErrNext(y, steps[0]);
      ErrFrom(Next(y, steps[0]), steps[1..]);
    }
  }

  /** In every run from allocation the channel is in error exactly when something has raised the
      flag that no successful reset has cleared since. */
  lemma ErrInEveryRun(base: nat, sg: bool, ctrl: nat, regs: Regs, steps: seq<Step>)
    ensures
      var y := Boot(base, sg, ctrl, regs);
      Run(y, steps).ch.err <==> Faulty(y, steps, false)
  {
    ErrFrom(Boot(base, sg, ctrl, regs), steps);
  }

  /** No step of the run resets the engine successfully. */
  predicate NeverReset(y: System, steps: seq<Step>)
    decreases |steps|
  {
    steps == [] ||
    (!(Resetting(y, steps[0]) && !Bit(steps[0].after, 2)) && NeverReset(Next(y, steps[0]), steps[1..]))
  }

  /** An error lasts, terminates or not, until a submission resets the engine; meanwhile no start
      is attempted. */
  lemma {:induction false} ErrorLasts(y: System, steps: seq<Step>)
    requires y.ch.err && NeverReset(y, steps)
    ensures Run(y, steps).ch.err && forall step :: !Attempts(Run(y, steps), step)
    decreases |steps|
  {
    if steps != [] {
      ErrNext(y, steps[0]);
      ErrorLasts(Next(y, steps[0]), steps[1..]);
    }
  }
}
