/** The cyclic bit of the control register against the channel's own `cyclic` flag: preparation
    sets the one, submission the other, and termination clears both only if the second is set. */
module CyclicMode {
  import opened Bits
  import opened Batches
  import opened ChannelState
  import opened Decisions
  import opened Hazards
  import opened Memory
  import opened Preparation
  import opened Queues
  import opened Registers
  import opened Runs
  import opened Sketches
  import opened Splitting

  /** The engine is in cyclic mode exactly when a cyclic transfer has been accepted. */
  predicate Agrees(s: State) {
    Bit(s.ctrl, 4) <==> s.cyclic
  }

  predicate PreparesCyclic(y: System, step: Step) {
    step.StepPrepCyclic? && step.period > 0 &&
    PrepFits(y.ch, Split(Periods(step.buf, step.period, step.len / step.period)))
  }

  predicate AcceptsCyclic(y: System, step: Step) {
    step.StepSubmit? && step.j < |y.prepared| && Accepting(y.ch, step.after) && y.prepared[step.j].cyclic
  }

  /** The submission has to reset the engine first, which rewrites the register. */
  predicate ResetsEngine(y: System, step: Step) {
    step.StepSubmit? && step.j < |y.prepared| && !y.ch.cyclic && y.ch.err
  }

  lemma StartKeepsBit(s: State, ok: bool)
    requires s.count <= COALESCE_MAX
    ensures Bit(Start(s, ok).ctrl, 4) <==> Bit(s.ctrl, 4)
    ensures Start(s, ok).cyclic == s.cyclic
  {
    SetCoalesceExact(s.ctrl, s.count);
    RunstopExact(SetCoalesce(s.ctrl, s.count));
  }

  lemma CompletedKeepsBit(s: State, status: nat)
    ensures Completed(s, status).ctrl == s.ctrl && Completed(s, status).cyclic == s.cyclic
    ensures Completed(s, status).count == s.count
  {
  }

  lemma IrqKeepsBit(s: State, status: nat, ok: bool)
    requires s.count <= COALESCE_MAX
    ensures Bit(Irq(s, status, ok).ctrl, 4) <==> Bit(s.ctrl, 4)
    ensures Irq(s, status, ok).cyclic == s.cyclic
  {
    if HasIoc(status) {
      CompletedKeepsBit(s, status);
      StartKeepsBit(Completed(s, status), ok);
      assert Irq(s, status, ok) == Start(Completed(s, status), ok);
    }
  }

  lemma SubmitKeepsBit(s: State, d: Desc, after: nat)
    requires !s.bug && (s.cyclic || !s.err)
    ensures
      var t := Submit(s, d, after).state;
      t.ctrl == s.ctrl && (t.bug || (t.cyclic <==> s.cyclic || d.cyclic))
  {
  }

  lemma PrepSetsBit(y: System, step: Step)
    requires !y.ch.bug && IsPrep(step)
    ensures Bit(Next(y, step).ch.ctrl, 4) <==> PreparesCyclic(y, step) || Bit(y.ch.ctrl, 4)
    ensures Next(y, step).ch.cyclic == y.ch.cyclic
  {
    CyclicBit(y.ch.ctrl);
  }

  /** Exactly which steps keep the two in agreement: all but preparing a cyclic transfer on a
      channel that is not cyclic, and accepting one that has been prepared before. */
  lemma AgreesNext(y: System, step: Step)
    requires QueueInv(y) && !y.ch.bug && Agrees(y.ch) && !ResetsEngine(y, step) && !Next(y, step).ch.bug
    ensures Agrees(Next(y, step).ch) <==>
            !(PreparesCyclic(y, step) && !y.ch.cyclic) && !AcceptsCyclic(y, step)
  {
    match step
    case StepPrepSg(_, _, _) => PrepSetsBit(y, step);
    case StepPrepCyclic(_, _, _, _) => PrepSetsBit(y, step);
    case StepSubmit(j, callback, after) =>
      if j < |y.prepared| { SubmitKeepsBit(y.ch, y.prepared[j].(callback := callback), after); }
    case StepIssue(ok) => StartKeepsBit(y.ch, ok);
    case StepIrq(status, ok) => IrqKeepsBit(y.ch, status, ok);
    case StepTerminate(ok) => TerminateDecides(y.ch, ok, 4);
    case StepTake =>
    case StepFree =>
    case StepRing =>
    case StepCall =>
    case StepRung =>
    case StepHwWrite(_, _, _) =>
    case StepHwFinish =>
  }

  // ---- What a start runs --------------------------------------------------------------------------

  /** Whether the engine is in cyclic mode after the step, knowing whether it was before: a cyclic
      preparation that succeeds turns it on, terminating a cyclic channel off, and resetting reads
      back what was left in the register. */
  predicate ModeAfter(y: System, step: Step, mode: bool) {
    if y.ch.bug then mode
    else if PreparesCyclic(y, step) then true
    else if step.StepTerminate? && y.ch.cyclic then false
    else if ResetsEngine(y, step) then Bit(y.ch.regs.control, 4)
    else mode
  }

  predicate Mode(y: System, steps: seq<Step>, mode: bool)
    decreases |steps|
  {
    if steps == [] then mode else Mode(Next(y, steps[0]), steps[1..], ModeAfter(y, steps[0], mode))
  }

  lemma ResetSetsBit(s: State, d: Desc, after: nat)
    requires !s.cyclic && s.err
    ensures Submit(s, d, after).state.ctrl == s.regs.control
  {
  }

  lemma SubmitMode(y: System, j: nat, callback: bool, after: nat)
    requires !y.ch.bug && j < |y.prepared|
    ensures
      var t := NextSubmit(y, j, callback, after).ch;
      t.ctrl == if !y.ch.cyclic && y.ch.err then y.ch.regs.control else y.ch.ctrl
  {
    var d := y.prepared[j].(callback := callback);
    if !y.ch.cyclic && y.ch.err { ResetSetsBit(y.ch, d, after); } else { SubmitKeepsBit(y.ch, d, after); }
  }

  lemma ModeNext(y: System, step: Step, mode: bool)
    requires y.ch.count <= COALESCE_MAX && (Bit(y.ch.ctrl, 4) <==> mode)
    ensures Bit(Next(y, step).ch.ctrl, 4) <==> ModeAfter(y, step, mode)
  {
    if y.ch.bug {
    } else if IsPrep(step) {
      PrepSetsBit(y, step);
    } else if step.StepSubmit? {
      if step.j < |y.prepared| { SubmitMode(y, step.j, step.callback, step.after); }
    } else if step.StepIssue? {
      StartKeepsBit(y.ch, step.ok);
    } else if step.StepIrq? {
      IrqKeepsBit(y.ch, step.status, step.ok);
    } else if step.StepTerminate? {
      TerminateDecides(y.ch, step.ok, 4);
    }
  }

  lemma {:induction false} ModeInEveryRun(y: System, steps: seq<Step>, mode: bool)
    requires ChannelInv(y) && (Bit(y.ch.ctrl, 4) <==> mode)
    ensures ChannelInv(Run(y, steps)) && (Bit(Run(y, steps).ch.ctrl, 4) <==> Mode(y, steps, mode))
    decreases |steps|
  {
    if steps != [] {
      ModeNext(y, steps[0], mode);
      MemoryNext(y, steps[0]);
      QueueNext(y, steps[0]);
      ModeInEveryRun(Next(y, steps[0]), steps[1..], ModeAfter(y, steps[0], mode));
    }
  }

  lemma StartShows(s: State, t: State)
    requires CyclicLast(s) && !s.bug && CanStart(s) && t == Start(s, true) && s.active == [] && s.count <= COALESCE_MAX
    ensures t.active != [] && (Last(t.active).cyclic <==> s.cyclic) && (Bit(t.ctrl, 4) <==> Bit(s.ctrl, 4))
  {
    StartKeepsBit(s, true);
    assert t.active == s.pending;
    assert Listed(s)[|Listed(s)| - 1] == Last(s.pending);
  }

  lemma CompletedCyclicLast(s: State, status: nat)
    requires CyclicLast(s)
    ensures CyclicLast(Completed(s, status))
  {
    CompletedShape(s, status);
    assert Listed(Completed(s, status)) == Listed(s);
  }

  lemma StartsShow(y: System, start: Step)
    requires ChannelInv(y) && Starts(y, start)
    ensures
      var t := Next(y, start).ch;
      t.active != [] && (Last(t.active).cyclic <==> y.ch.cyclic) && (Bit(t.ctrl, 4) <==> Bit(y.ch.ctrl, 4))
  {
    match start
    case StepIssue(ok) => StartShows(y.ch, Next(y, start).ch);
    case StepIrq(status, ok) =>
      CompletedCyclicLast(y.ch, status);
      CompletedKeepsBit(y.ch, status);
      CompletedShape(y.ch, status);
      StartShows(Completed(y.ch, status), Next(y, start).ch);
  }

  /** Exactly when a batch is run in the mode it needs, cyclic if and only if it ends in a cyclic
      descriptor: when the channel is marked cyclic if and only if a cyclic preparation has
      succeeded since a cyclic channel was last terminated, or the register was so to begin with. */
  lemma StartRunsExactly(base: nat, sg: bool, ctrl: nat, regs: Regs, steps: seq<Step>, start: Step)
    requires Starts(Run(Boot(base, sg, ctrl, regs), steps), start)
    ensures
      var y := Boot(base, sg, ctrl, regs);
      var z := Run(y, steps);
      var t := Next(z, start).ch;
      && t.active != []
      && ((Bit(t.ctrl, 4) <==> Last(t.active).cyclic) <==>
          (z.ch.cyclic <==> Mode(y, steps, Bit(y.ch.ctrl, 4))))
  {
    var y := Boot(base, sg, ctrl, regs);
    BootChannel(base, sg, ctrl, regs);
    ModeInEveryRun(y, steps, Bit(y.ch.ctrl, 4));
    StartsShow(Run(y, steps), start);
  }

  // ---- Out of agreement -------------------------------------------------------------------------

  lemma RingPrepared(y: System)
    requires !y.ch.bug && y.ch.free != [] && y.prepared == []
    ensures
      var z := Next(y, PREP_RING);
      && Bit(z.ch.ctrl, 4) && z.ch.cyclic == y.ch.cyclic && z.ch.free == y.ch.free[1..]
      && |z.prepared| == 1 && z.held == y.held && z.ch.idle == y.ch.idle && z.ch.err == y.ch.err && z.ch.bug == y.ch.bug
      && z.ch.pending == y.ch.pending && z.ch.active == y.ch.active && z.ch.done == y.ch.done && z.ch.count == y.ch.count
  {
    OnePeriod();
    PrepSetsBit(y, PREP_RING);
  }

  lemma NothingTerminated(y: System)
    requires !y.ch.bug && !y.ch.err && !y.ch.cyclic && y.ch.pending == [] && y.ch.active == [] && y.ch.done == []
    ensures
      var z := Next(y, StepTerminate(true));
      && (Bit(z.ch.ctrl, 4) <==> Bit(y.ch.ctrl, 4)) && !z.ch.cyclic && z.ch.free == y.ch.free
      && z.prepared == y.prepared && z.ch.idle == y.ch.idle && !z.ch.err && !z.ch.bug
      && z.ch.pending == [] && z.ch.active == [] && z.ch.done == [] && z.ch.count == y.ch.count
  {
    TerminateDecides(y.ch, true, 4);
    TerminateShape(y.ch, true);
  }

  lemma FiniteStarted(y: System)
    requires !y.ch.bug && !y.ch.err && !y.ch.cyclic && y.ch.idle && y.ch.count < COALESCE_MAX
    requires y.ch.free != [] && y.ch.pending == [] && y.ch.active == [] && Bit(y.ch.ctrl, 4)
    ensures
      var z := Run(y, [PREP_ONE, SubmitNth(|y.prepared|), StepIssue(true)]);
      |z.ch.active| == 1 && !z.ch.active[0].cyclic && Bit(z.ch.ctrl, 4) && !z.ch.cyclic
  {
    var n := |y.prepared|;
    var y1 := Next(y, PREP_ONE);
    var y2 := Next(y1, SubmitNth(n));
    RunThree(y, PREP_ONE, SubmitNth(n), StepIssue(true));
    PrepOne(y);
    SubmitSound(y1, n);
    SubmitKeepsBit(y1.ch, y1.prepared[n].(callback := false), 0);
    StartKeepsBit(y2.ch, true);
    StartSound(y2);
  }

  /** A cyclic transfer that is prepared and never submitted leaves its mark: after a terminate,
      a finite batch runs with the engine in cyclic mode. */
  lemma FiniteBatchInCyclicMode(base: nat, sg: bool, ctrl: nat, regs: Regs)
    ensures
      var z := Run(Boot(base, sg, ctrl, regs),
                   [PREP_RING, StepTerminate(true)] + [PREP_ONE, SubmitNth(1), StepIssue(true)]);
      |z.ch.active| == 1 && !z.ch.active[0].cyclic && Bit(z.ch.ctrl, 4) && !z.ch.cyclic
  {
    var y := Boot(base, sg, ctrl, regs);
    RunConcat(y, [PREP_RING, StepTerminate(true)], [PREP_ONE, SubmitNth(1), StepIssue(true)]);
    assert [PREP_RING, StepTerminate(true)] == [PREP_RING] + [StepTerminate(true)];
    Runs.RunStep(y, PREP_RING, [StepTerminate(true)]);
    RunOne(Next(y, PREP_RING), StepTerminate(true));
    RingPrepared(y);
    NothingTerminated(Next(y, PREP_RING));
    FiniteStarted(Next(Next(y, PREP_RING), StepTerminate(true)));
  }

  lemma RingSubmitted(y: System)
    requires !y.ch.bug && !y.ch.err && !y.ch.cyclic && y.prepared != [] && y.prepared[0].cyclic
    requires y.ch.count < COALESCE_MAX
    ensures
      var z := Next(y, SubmitNth(0));
      && z.ch.cyclic && !z.ch.err && !z.ch.bug && z.ch.idle == y.ch.idle && z.ch.count == y.ch.count + 1
      && z.ch.ctrl == y.ch.ctrl && z.prepared == y.prepared[1..]
      && z.ch.active == y.ch.active && z.ch.done == y.ch.done && z.ch.pending != [] && Last(z.ch.pending).cyclic
  {
    SubmitSound(y, 0);
    SubmitKeepsBit(y.ch, y.prepared[0].(callback := false), 0);
  }

  lemma RingTerminated(y: System)
    requires !y.ch.bug && !y.ch.err && y.ch.cyclic
    ensures
      var z := Next(y, StepTerminate(true));
      && !Bit(z.ch.ctrl, 4) && !z.ch.cyclic && !z.ch.err && !z.ch.bug && z.ch.idle == y.ch.idle
      && z.ch.count == y.ch.count && z.prepared == y.prepared
      && z.ch.pending == [] && z.ch.active == [] && z.ch.done == []
  {
    TerminateDecides(y.ch, true, 4);
    TerminateShape(y.ch, true);
  }

  lemma RingStarted(y: System)
    requires !y.ch.bug && CanStart(y.ch) && y.ch.active == [] && y.ch.count <= COALESCE_MAX && !Bit(y.ch.ctrl, 4)
    ensures
      var z := Next(y, StepIssue(true));
      z.ch.active == y.ch.pending && !Bit(z.ch.ctrl, 4)
  {
    StartKeepsBit(y.ch, true);
    StartSound(y);
  }

  lemma TwoRingsPrepared(y: System)
    requires !y.ch.bug && |y.ch.free| >= 2 && y.prepared == []
    ensures
      var z := Next(Next(y, PREP_RING), PREP_RING);
      && |z.prepared| == 2 && z.prepared[0].cyclic && z.prepared[1].cyclic
      && z.ch == y.ch.(hw := z.ch.hw, free := z.ch.free, ctrl := z.ch.ctrl, regs := z.ch.regs)
  {
    OnePeriod();
  }

  /** Two cyclic transfers prepared, one submitted and terminated, the other submitted: it is
      started as an active cyclic batch with the engine out of cyclic mode. */
  lemma CyclicBatchInFiniteMode(base: nat, sg: bool, ctrl: nat, regs: Regs)
    ensures
      var z := Run(Boot(base, sg, ctrl, regs),
                   [PREP_RING, PREP_RING, SubmitNth(0)] + [StepTerminate(true), SubmitNth(0), StepIssue(true)]);
      z.ch.active != [] && Last(z.ch.active).cyclic && !Bit(z.ch.ctrl, 4)
  {
    var y := Boot(base, sg, ctrl, regs);
    RunConcat(y, [PREP_RING, PREP_RING, SubmitNth(0)], [StepTerminate(true), SubmitNth(0), StepIssue(true)]);
    RunThree(y, PREP_RING, PREP_RING, SubmitNth(0));
    TwoRingsPrepared(y);
    RingSubmitted(Next(Next(y, PREP_RING), PREP_RING));
    SecondRing(Run(y, [PREP_RING, PREP_RING, SubmitNth(0)]));
  }

  lemma SecondRing(y: System)
    requires !y.ch.bug && !y.ch.err && y.ch.cyclic && y.ch.idle && y.ch.count < COALESCE_MAX
    requires y.prepared != [] && y.prepared[0].cyclic
    ensures
      var z := Run(y, [StepTerminate(true), SubmitNth(0), StepIssue(true)]);
      z.ch.active != [] && Last(z.ch.active).cyclic && !Bit(z.ch.ctrl, 4)
  {
    RunThree(y, StepTerminate(true), SubmitNth(0), StepIssue(true));
    var y1 := Next(y, StepTerminate(true));
    RingTerminated(y);
    RingSubmitted(y1);
    RingStarted(Next(y1, SubmitNth(0)));
  }
}
