/** Starting, completing and draining: what one interrupt may conclude, when a channel
    drains, and when it hangs. */
module Progress {
  import opened Bits
  import opened Decisions
  import opened ChannelState
  import opened Memory
  import opened Pool
  import opened Queues
  import opened Registers
  import opened Runs
  import opened Walk

  // ---- One interrupt for a whole batch --------------------------------------------------------

  /** In every run, a start that succeeds moves the pending list onto an empty active list and
      asks the engine, in its control register, for an interrupt after that many descriptors, plus
      the uncounted ones. It changes no other control bit but RUNSTOP. */
  lemma StartExact(y: System)
    requires ChannelInv(y) && CanStart(y.ch) && !y.ch.bug
    ensures y.ch.active == []
    ensures Start(y.ch, true).active == y.ch.pending && Start(y.ch, true).pending == []
    ensures
      var control := Start(y.ch, true).regs.control;
      && Coalesce(control) == |Start(y.ch, true).active| + y.h.stale && Bit(control, 0)
      && forall k: nat :: k != 0 && !(16 <= k < 24) ==> Bit(control, k) == Bit(y.ch.ctrl, k)
  {
    StartField(y.ch);
    SetCoalesceExact(y.ch.ctrl, y.ch.count);
    RunstopExact(SetCoalesce(y.ch.ctrl, y.ch.count));
  }

  /** The engine raises the completion interrupt of a batch only once it has finished as many
      descriptors as were asked for at its start, or without scatter-gather the one transfer it
      was given; and not once it has been reset. */
  predicate Honest(y: System, step: Step) {
    step.StepIrq? && HasIoc(step.status) && y.ch.active != [] ==>
      && !y.h.lost
      && (if y.ch.sg then y.h.threshold <= y.h.finished else y.h.finished == Given(y.ch))
  }

  predicate HonestRun(y: System, steps: seq<Step>)
    decreases |steps|
  {
    steps == [] || (Honest(y, steps[0]) && HonestRun(Next(y, steps[0]), steps[1..]))
  }

  /** An honest completion interrupt finds all that was given finished, and with scatter-gather
      nothing uncounted. */
  lemma HonestCompletion(y: System, step: Step)
    requires ChannelInv(y) && Honest(y, step) && step.StepIrq? && HasIoc(step.status) && y.ch.active != []
    ensures y.h.finished == Given(y.ch) && !y.h.lost && (y.ch.sg ==> y.h.lag == 0)
  {
  }

  /** The engine has been given all that the batch describes. */
  predicate WhollyGiven(s: State) { s.sg || |Flat(s.active)| == 1 }

  lemma OnlyIrqIsPremature(y: System, step: Step)
    requires !(step.StepIrq? && HasIoc(step.status))
    ensures Next(y, step).h.premature == y.h.premature
  {
    if IsPrep(step) { var z := PrepStep(y, step); }
  }

  /** Exactly when an honest engine's interrupt completes a descriptor that has not been wholly
      transferred: when, without scatter-gather, the batch is not a single segment. */
  lemma PrematureExactly(y: System, step: Step)
    requires ChannelInv(y) && Honest(y, step) && !y.h.premature && !y.ch.bug
    ensures Next(y, step).h.premature <==>
            step.StepIrq? && HasIoc(step.status) && y.ch.active != [] && !WhollyGiven(y.ch)
  {
    if step.StepIrq? && HasIoc(step.status) {
      if y.ch.active != [] { HonestCompletion(y, step); }
    } else {
      OnlyIrqIsPremature(y, step);
    }
  }

  /** With scatter-gather, completing the whole active list on one interrupt is justified in
      every run of an honest engine: no descriptor ever reaches the done list unfinished. */
  lemma {:induction false} OnlyFinishedDescriptorsComplete(y: System, steps: seq<Step>)
    requires ChannelInv(y) && y.ch.sg && !y.h.premature && HonestRun(y, steps)
    ensures !Run(y, steps).h.premature
    decreases |steps|
  {
    if steps != [] {
      if !y.ch.bug { PrematureExactly(y, steps[0]); }
      SameEngine(y, steps[0]);
      MemoryNext(y, steps[0]);
      QueueNext(y, steps[0]);
      OnlyFinishedDescriptorsComplete(Next(y, steps[0]), steps[1..]);
    }
  }

  // ---- Hangs --------------------------------------------------------------------------------

  predicate NoTerminate(steps: seq<Step>) {
    forall s :: s in steps ==> !s.StepTerminate?
  }

  /** A batch whose interrupt cannot come: started with uncounted descriptors, it asks for more
      finished descriptors than the engine was given; or a submission after an error has reset
      the engine under it. */
  predicate Stuck(y: System) {
    y.ch.active != [] && ((y.ch.sg && y.h.lag > 0) || y.h.lost)
  }

  /** Then the channel stays busy with that batch until it is terminated. */
  lemma {:induction false} StuckBatchHangs(y: System, steps: seq<Step>)
    requires ChannelInv(y) && Stuck(y)
    requires HonestRun(y, steps) && NoTerminate(steps)
    ensures Run(y, steps).ch.active == y.ch.active && !Run(y, steps).ch.idle
    ensures Run(y, steps).ch.completed == y.ch.completed
    decreases |steps|
  {
    if steps != [] {
      StuckNeverCompletes(y, steps[0]);
      BusyStep(y, steps[0]);
      MemoryNext(y, steps[0]);
      QueueNext(y, steps[0]);
      StuckBatchHangs(Next(y, steps[0]), steps[1..]);
    }
  }

  lemma StuckNeverCompletes(y: System, step: Step)
    requires ChannelInv(y) && Stuck(y) && Honest(y, step)
    ensures !(step.StepIrq? && HasIoc(step.status))
  {
  }

  /** Without a completion interrupt or a terminate, a busy channel stays as it is. */
  lemma BusyStep(y: System, step: Step)
    requires !y.ch.idle && !step.StepTerminate? && !(step.StepIrq? && HasIoc(step.status))
    ensures
      var z := Next(y, step);
      && z.ch.active == y.ch.active && !z.ch.idle && z.ch.completed == y.ch.completed
      && z.h.lag == y.h.lag && (y.h.lost ==> z.h.lost) && z.ch.sg == y.ch.sg
  {
    match step
    case StepSubmit(j, callback, after) =>
      if j < |y.prepared| { SubmitBusy(y.ch, y.prepared[j].(callback := callback), after); }
    case StepPrepSg(_, _, _) => PrepBusy(y, step);
    case StepPrepCyclic(_, _, _, _) => PrepBusy(y, step);
    case StepIrq(status, ok) =>
      HasIocBit(status);
      IrqDecides(y.ch, status, ok);
    case StepTake =>
    case StepRing =>
    case StepCall =>
    case StepFree =>
    case StepRung =>
    case StepIssue(_) =>
    case StepHwWrite(_, _, _) =>
    case StepHwFinish =>
  }

  lemma PrepBusy(y: System, step: Step)
    requires IsPrep(step)
    ensures
      var z := Next(y, step);
      && z.ch.active == y.ch.active && z.ch.idle == y.ch.idle && z.ch.completed == y.ch.completed && z.h == y.h
      && z.ch.sg == y.ch.sg
  {
    var z := PrepStep(y, step);
  }

  lemma SubmitBusy(s: State, d: Desc, after: nat)
    ensures
      var t := Submit(s, d, after).state;
      t.active == s.active && t.idle == s.idle && t.completed == s.completed && t.sg == s.sg
  {
  }

  lemma {:induction false} HonestConcat(y: System, a: seq<Step>, b: seq<Step>)
    requires HonestRun(y, a) && HonestRun(Run(y, a), b)
    ensures HonestRun(y, a + b)
    decreases |a|
  {
    if a == [] {
      assert a + b == b;
    } else {
      assert (a + b)[1..] == a[1..] + b;
      HonestConcat(Next(y, a[0]), a[1..], b);
    }
  }

  /** The engine finishing n descriptors. */
  function Finishing(n: nat): (r: seq<Step>)
    ensures forall s :: s in r ==> s.StepHwFinish?
  {
    if n == 0 then [] else [StepHwFinish] + Finishing(n - 1)
  }

  lemma {:induction false} FinishesAll(y: System, n: nat)
    requires y.h.finished + n <= Given(y.ch) && !y.ch.bug
    ensures Run(y, Finishing(n)) == y.(h := y.h.(finished := y.h.finished + n))
    ensures HonestRun(y, Finishing(n))
    decreases n
  {
    if n > 0 {
      assert Finishing(n)[1..] == Finishing(n - 1);
      FinishesAll(Next(y, StepHwFinish), n - 1);
    }
  }

  /** The engine has finished what it interrupts for. */
  predicate Interrupts(z: System) {
    z.h.finished == Given(z.ch) && (z.ch.sg ==> z.h.threshold <= z.h.finished)
  }

  /** The engine finishes what is left of the batch, then interrupts. */
  lemma CompletionRuns(y: System, status: nat) returns (steps: seq<Step>)
    requires HasIoc(status) && !y.ch.bug && !y.h.lost
    requires y.h.finished <= Given(y.ch) && (y.ch.sg ==> y.h.threshold == |y.ch.active|)
    ensures HonestRun(y, steps) && NoTerminate(steps)
    ensures Run(y, steps).ch.done == y.ch.done + y.ch.active
    ensures Run(y, steps).h.premature <==> y.h.premature || (y.ch.active != [] && !WhollyGiven(y.ch))
  {
    var n := Given(y.ch) - y.h.finished;
    var z := y.(h := y.h.(finished := Given(y.ch)));
    FinishesAll(y, n);
    ThenInterrupt(y, z, n, status);
    steps := Finishing(n) + [StepIrq(status, true)];
  }

  lemma ThenInterrupt(y: System, z: System, n: nat, status: nat)
    requires HasIoc(status) && !z.ch.bug && Interrupts(z) && !z.h.lost
    requires HonestRun(y, Finishing(n)) && Run(y, Finishing(n)) == z
    ensures
      var steps := Finishing(n) + [StepIrq(status, true)];
      && HonestRun(y, steps) && NoTerminate(steps) && Run(y, steps).ch.done == z.ch.done + z.ch.active
      && (Run(y, steps).h.premature <==> z.h.premature || !Transferred(z))
  {
    LastInterrupt(z, status);
    FinishThen(y, z, n, StepIrq(status, true));
  }

  lemma FinishThen(y: System, z: System, n: nat, b: Step)
    requires HonestRun(y, Finishing(n)) && Run(y, Finishing(n)) == z && HonestRun(z, [b]) && !b.StepTerminate?
    ensures HonestRun(y, Finishing(n) + [b]) && NoTerminate(Finishing(n) + [b])
    ensures Run(y, Finishing(n) + [b]) == Run(z, [b])
  {
    HonestThen(y, z, Finishing(n), [b]);
    OneMore(Finishing(n), b);
  }

  lemma HonestThen(y: System, z: System, a: seq<Step>, b: seq<Step>)
    requires HonestRun(y, a) && Run(y, a) == z && HonestRun(z, b)
    ensures HonestRun(y, a + b) && Run(y, a + b) == Run(z, b)
  {
    HonestConcat(y, a, b);
    RunConcat(y, a, b);
  }

  lemma OneMore(a: seq<Step>, b: Step)
    requires NoTerminate(a) && !b.StepTerminate?
    ensures NoTerminate(a + [b])
  {
  }

  lemma LastInterrupt(z: System, status: nat)
    requires HasIoc(status) && !z.ch.bug && Interrupts(z) && !z.h.lost
    ensures
      var irq := StepIrq(status, true);
      && HonestRun(z, [irq]) && Run(z, [irq]).ch.done == z.ch.done + z.ch.active
      && (Run(z, [irq]).h.premature <==> z.h.premature || !Transferred(z))
  {
    var irq := StepIrq(status, true);
    HasIocBit(status);
    IrqDecides(z.ch, status, true);
    RunStep(z, irq, []);
    assert [irq] == [irq] + [];
    assert HonestRun(Next(z, irq), []);
  }

  /** Every descriptor of y's batch has been completed in z. */
  ghost predicate BatchLeft(y: System, z: System) {
    forall d :: d in y.ch.active ==> d in Left(z)
  }

  lemma ActiveHasNotLeft(z: System, d: Desc)
    requires Fifo(z) && Cookies(z) && d in z.ch.active
    ensures d !in Left(z)
  {
    assert z.h.submitted == [] + Left(z) + (z.ch.active + z.ch.pending);
    CookieSlices([], Left(z), z.ch.active + z.ch.pending);
  }

  lemma StuckNeverLeaves(y: System, steps: seq<Step>)
    requires ChannelInv(y) && Stuck(y) && HonestRun(y, steps) && NoTerminate(steps)
    ensures !BatchLeft(y, Run(y, steps))
  {
    var z := Run(y, steps);
    StuckBatchHangs(y, steps);
    ChannelInEveryRun(y, steps);
    ActiveHasNotLeft(z, y.ch.active[0]);
  }

  /** An honest engine can complete a started batch, without a terminate, exactly when it has not
      been reset since and, with scatter-gather, nothing was uncounted at its start. */
  lemma BatchCompletesExactly(y: System)
    requires ChannelInv(y) && !y.ch.bug && y.ch.active != []
    ensures (exists steps :: HonestRun(y, steps) && NoTerminate(steps) && BatchLeft(y, Run(y, steps)))
            <==> !y.h.lost && (y.ch.sg ==> y.h.lag == 0)
  {
    if !y.h.lost && (y.ch.sg ==> y.h.lag == 0) {
      IocWord();
      var steps := CompletionRuns(y, IRQ_IOC);
      assert BatchLeft(y, Run(y, steps));
    } else {
      forall steps | HonestRun(y, steps) && NoTerminate(steps) ensures !BatchLeft(y, Run(y, steps)) {
        StuckNeverLeaves(y, steps);
      }
    }
  }

  lemma {:induction false} PrematureStays(y: System, steps: seq<Step>)
    requires y.h.premature
    ensures Run(y, steps).h.premature
    decreases |steps|
  {
    if steps != [] {
      if !(steps[0].StepIrq? && HasIoc(steps[0].status)) { OnlyIrqIsPremature(y, steps[0]); }
      PrematureStays(Next(y, steps[0]), steps[1..]);
    }
  }

  lemma PartlyGivenStep(y: System, step: Step)
    requires ChannelInv(y) && !y.ch.bug && y.ch.active != [] && !WhollyGiven(y.ch) && !step.StepTerminate?
    ensures Next(y, step).h.premature || (!Next(y, step).ch.bug ==> Next(y, step).ch.active == y.ch.active)
    ensures step.StepIrq? && HasIoc(step.status) ==> Next(y, step).h.premature
    ensures !(step.StepIrq? && HasIoc(step.status)) ==>
      Next(y, step).ch.active == y.ch.active && Next(y, step).ch.sg == y.ch.sg
  {
    if !(step.StepIrq? && HasIoc(step.status)) { BusyStep(y, step); }
  }

  /** A batch of which the engine was given only a part is never completed truthfully. */
  lemma {:induction false} PartlyGivenLies(y: System, steps: seq<Step>)
    requires ChannelInv(y) && y.ch.active != [] && !WhollyGiven(y.ch) && NoTerminate(steps)
    ensures BatchLeft(y, Run(y, steps)) ==> Run(y, steps).h.premature
    decreases |steps|
  {
    if steps == [] || y.ch.bug {
      FrozenOrDone(y, steps);
      ActiveHasNotLeft(y, y.ch.active[0]);
    } else {
      PartlyGivenStep(y, steps[0]);
      if steps[0].StepIrq? && HasIoc(steps[0].status) {
        PrematureStays(Next(y, steps[0]), steps[1..]);
      } else {
        MemoryNext(y, steps[0]);
        QueueNext(y, steps[0]);
        PartlyGivenLies(Next(y, steps[0]), steps[1..]);
      }
    }
  }

  lemma {:induction false} FrozenOrDone(y: System, steps: seq<Step>)
    requires steps == [] || y.ch.bug
    ensures Run(y, steps) == y
    decreases |steps|
  {
    if steps != [] { FrozenOrDone(Next(y, steps[0]), steps[1..]); }
  }

  /** It can complete it truthfully exactly when, moreover, it was given the whole batch: without
      scatter-gather, when that is one segment. */
  lemma BatchFinishesExactly(y: System)
    requires ChannelInv(y) && !y.ch.bug && y.ch.active != [] && !y.h.premature
    ensures (exists steps :: HonestRun(y, steps) && NoTerminate(steps) && BatchLeft(y, Run(y, steps))
                             && !Run(y, steps).h.premature)
            <==> !y.h.lost && (if y.ch.sg then y.h.lag == 0 else |Flat(y.ch.active)| == 1)
  {
    if !y.h.lost && (if y.ch.sg then y.h.lag == 0 else |Flat(y.ch.active)| == 1) {
      IocWord();
      var steps := CompletionRuns(y, IRQ_IOC);
      assert BatchLeft(y, Run(y, steps));
    } else {
      forall steps | HonestRun(y, steps) && NoTerminate(steps) && BatchLeft(y, Run(y, steps))
        ensures Run(y, steps).h.premature
      {
        if Stuck(y) { StuckNeverLeaves(y, steps); } else { PartlyGivenLies(y, steps); }
      }
    }
  }

  predicate NoCompletion(steps: seq<Step>) {
    forall s :: s in steps && s.StepIrq? ==> !HasIoc(s.status)
  }

  /** Terminating a busy channel leaves it marked busy with nothing active: from then on, until
      a completion interrupt that no active descriptor can cause, nothing is ever started. */
  lemma {:induction false} TerminatedBusyNeverStarts(y: System, steps: seq<Step>)
    requires !y.ch.idle && y.ch.active == [] && NoCompletion(steps)
    ensures !Run(y, steps).ch.idle && Run(y, steps).ch.active == []
    decreases |steps|
  {
    if steps != [] {
      if steps[0].StepTerminate? { TerminateIdle(y.ch, steps[0].ok); } else { BusyStep(y, steps[0]); }
      TerminatedBusyNeverStarts(Next(y, steps[0]), steps[1..]);
    }
  }

  lemma TerminateIdle(s: State, ok: bool)
    ensures Terminate(s, ok).idle == s.idle && Terminate(s, ok).active == []
  {
  }

  /** A channel is busy exactly when a batch is active. */
  ghost predicate BusyIsActive(s: State) {
    s.idle <==> s.active == []
  }

  /** Every step keeps that, except terminating a busy channel, which always breaks it. */
  lemma BusyIsActiveNext(y: System, step: Step)
    requires ChannelInv(y) && BusyIsActive(y.ch)
    ensures BusyIsActive(Next(y, step).ch) <==> (step.StepTerminate? && !y.ch.bug ==> y.ch.idle)
  {
    if step.StepTerminate? {
      TerminateIdle(y.ch, step.ok);
    } else if step.StepIrq? {
      IrqDecides(y.ch, step.status, step.ok);
    } else if step.StepIssue? {
      StartShape(y.ch, step.ok);
    } else {
      SameBusy(y, step);
    }
  }

  lemma SameBusy(y: System, step: Step)
    requires !step.StepTerminate? && !step.StepIrq? && !step.StepIssue?
    ensures Next(y, step).ch.active == y.ch.active && Next(y, step).ch.idle == y.ch.idle
  {
    match step
    case StepSubmit(j, callback, after) =>
      if j < |y.prepared| { SubmitBusy(y.ch, y.prepared[j].(callback := callback), after); }
    case StepPrepSg(_, _, _) => PrepBusy(y, step);
    case StepPrepCyclic(_, _, _, _) => PrepBusy(y, step);
    case _ =>
  }

  // ---- Cleanup and drain --------------------------------------------------------------------

  lemma {:induction false} FiniteAll(ds: seq<Desc>, n: nat)
    requires n <= |ds| && forall k :: 0 <= k < n ==> !ds[k].cyclic
    requires n < |ds| ==> ds[n].cyclic
    ensures Finite(ds) == ds[..n]
    decreases n
  {
    if n > 0 {
      FiniteAll(ds[1..], n - 1);
      assert ds[..n] == [ds[0]] + ds[1..][..n - 1];
    }
  }

  /** In every run, an uninterrupted cleanup ends with nothing done, or with just the cyclic
      descriptor, and frees the segments of the others in order. */
  lemma CleanupEnds(y: System)
    requires ChannelInv(y) && !y.ch.bug
    ensures
      var s := y.ch;
      var t := Cleanup(s);
      if s.done != [] && Last(s.done).cyclic
      then t.done == [Last(s.done)] && t.free == s.free + Flat(s.done[..|s.done| - 1]) && s.active + s.pending == []
      else t.done == [] && t.free == s.free + Flat(s.done)
  {
    if y.ch.done != [] && Last(y.ch.done).cyclic { CyclicCleanup(y.ch); } else { FiniteCleanup(y.ch); }
  }

  lemma FiniteCleanup(s: State)
    requires CyclicLast(s) && !s.bug && (s.done == [] || !Last(s.done).cyclic)
    ensures Cleanup(s).done == [] && Cleanup(s).free == s.free + Flat(s.done)
  {
    FiniteButLast(s);
    CleanupTakes(s, |s.done|);
    assert s.done[..|s.done|] == s.done;
  }

  lemma CyclicCleanup(s: State)
    requires CyclicLast(s) && !s.bug && s.done != [] && Last(s.done).cyclic
    ensures Cleanup(s).done == [Last(s.done)] && Cleanup(s).free == s.free + Flat(s.done[..|s.done| - 1])
    ensures s.active + s.pending == []
  {
    FiniteButLast(s);
    CyclicEnds(s);
    CleanupTakes(s, |s.done| - 1);
  }

  lemma CleanupTakes(s: State, n: nat)
    requires n <= |s.done| && forall k :: 0 <= k < n ==> !s.done[k].cyclic
    requires n < |s.done| ==> s.done[n].cyclic
    ensures Cleanup(s).done == s.done[n..] && Cleanup(s).free == s.free + Flat(s.done[..n])
  {
    FiniteAll(s.done, n);
  }

  lemma CyclicEnds(s: State)
    requires CyclicLast(s) && !s.bug && s.done != [] && Last(s.done).cyclic
    ensures s.active + s.pending == []
  {
    assert Listed(s)[|s.done| - 1] == Last(s.done);
  }

  lemma FiniteButLast(s: State)
    requires CyclicLast(s) && !s.bug
    ensures forall k :: 0 <= k < |s.done| - 1 ==> !s.done[k].cyclic
  {
    forall k | 0 <= k < |s.done| - 1 ensures !s.done[k].cyclic {
      assert Listed(s)[k] == s.done[k];
    }
  }

  lemma FreshCleanup(s: State)
    requires forall d :: d in s.done ==> !d.cyclic
    ensures Cleanup(s).done == [] && Cleanup(s).free == s.free + Flat(s.done)
    ensures Cleanup(s).pending == s.pending && Cleanup(s).active == s.active
    ensures Cleanup(s).idle == s.idle && Cleanup(s).err == s.err
  {
    FiniteAll(s.done, |s.done|);
    assert s.done[..|s.done|] == s.done;
  }

  lemma CompletionIrq(s: State, status: nat)
    requires HasIoc(status) && And(status, IRQ_ERROR) == 0 && !s.err
    ensures
      var t := Irq(s, status, true);
      && !t.err && t.done == s.done + s.active && t.active == s.pending && t.pending == []
      && t.free == s.free && (t.idle <==> s.pending == [])
  {
  }

  lemma FlatThree(a: seq<Desc>, b: seq<Desc>, c: seq<Desc>)
    ensures Flat(a + b + c) == Flat(a + b) + Flat(c)
  {
    FlatConcat(a + b, c);
  }

  /** Every list has moved on by one, and what was done or active is free. */
  ghost predicate Advanced(s: State, t: State) {
    && !t.err && t.done == [] && t.active == s.pending && t.pending == []
    && t.free == s.free + Flat(s.done + s.active) && (t.idle <==> s.pending == [])
  }

  lemma DrainOnce(s: State, status: nat)
    requires !s.err && forall d :: d in s.done || d in s.active ==> !d.cyclic
    requires HasIoc(status) && And(status, IRQ_ERROR) == 0
    ensures Advanced(s, Cleanup(Irq(s, status, true)))
  {
    CompletionIrq(s, status);
    FreshCleanup(Irq(s, status, true));
  }

  lemma AdvancedTwice(s: State, t: State, u: State)
    requires Advanced(s, t) && Advanced(t, u)
    ensures u.pending == [] && u.active == [] && u.done == [] && u.idle
    ensures u.free == s.free + Flat(s.done + s.active + s.pending)
  {
    assert [] + s.pending == s.pending;
    FlatThree(s.done, s.active, s.pending);
  }

  /** From any error-free state without cyclic descriptors, two completion interrupts, each
      with a successful start and an uninterrupted cleanup, empty all three lists and return
      their segments, oldest first. */
  lemma TwoInterruptsDrain(s: State, status1: nat, status2: nat)
    requires !s.err && forall d :: d in Listed(s) ==> !d.cyclic
    requires HasIoc(status1) && And(status1, IRQ_ERROR) == 0
    requires HasIoc(status2) && And(status2, IRQ_ERROR) == 0
    ensures
      var t := Cleanup(Irq(Cleanup(Irq(s, status1, true)), status2, true));
      && t.pending == [] && t.active == [] && t.done == [] && t.idle
      && t.free == s.free + Flat(s.done + s.active + s.pending)
  {
    var t := Cleanup(Irq(s, status1, true));
    assert forall d :: d in s.done || d in s.active || d in s.pending ==> d in Listed(s);
    DrainOnce(s, status1);
    assert forall d :: d in t.done || d in t.active ==> d in s.pending;
    DrainOnce(t, status2);
    AdvancedTwice(s, t, Cleanup(Irq(t, status2, true)));
  }

  // ---- Residue ------------------------------------------------------------------------------

  /** The bytes of a segment less those the hardware reports as transferred, modulo 2^23 if it
      reports more than there are. */
  function Remaining(h: Hw): nat {
    (Length(h.control) - Length(h.status)) % 0x80_0000
  }

  function TotalRemaining(hw: Bank, segs: seq<SegId>): nat {
    if segs == [] then 0 else TotalRemaining(hw, segs[..|segs| - 1]) + Remaining(hw[Last(segs)])
  }

  /** The 32-bit subtraction under the mask is the difference of the length fields, whatever
      flags the two words carry. */
  lemma SegmentResidueExact(h: Hw)
    ensures SegmentResidue(h) == Remaining(h) <= MAX_TRANS_LEN
  {
    LengthIsMod(h.control);
    LengthIsMod(h.status);
    RemainingCases(h);
    var d := Length(h.control) - Length(h.status);
    LowPart(h.control - h.status, h.control / 0x80_0000 - h.status / 0x80_0000, d, Remaining(h));
    LengthIsMod((h.control - h.status) % WORD);
  }

  lemma RemainingCases(h: Hw)
    requires Length(h.control) < 0x80_0000 && Length(h.status) < 0x80_0000
    ensures
      var d := Length(h.control) - Length(h.status);
      Remaining(h) == (if d >= 0 then d else d + 0x80_0000) && Remaining(h) < 0x80_0000
  {
  }

  /** The low 23 bits of a difference reduced to 32 bits. */
  lemma LowPart(x: int, n: int, d: int, v: nat)
    requires x == 0x80_0000 * n + d && (v == d || v == d + 0x80_0000) && v < 0x80_0000
    ensures (x % WORD) % 0x80_0000 == v
  {
    var q := x / WORD;
    var n' := if v == d then n else n - 1;
    assert x % WORD == 0x80_0000 * (n' - 0x200 * q) + v;
    ModSame(x % WORD, 0x80_0000, n' - 0x200 * q, v);
  }

  lemma ModSame(x: nat, m: nat, q: int, r: nat)
    requires m > 0 && x == m * q + r && r < m
    ensures x % m == r
  {
    ModUnique(x, m, q, r);
  }

  lemma {:induction false} ResidueSum(hw: Bank, segs: seq<SegId>)
    requires |segs| <= NUM_DESCS
    ensures Residue(hw, segs) == TotalRemaining(hw, segs) <= |segs| * MAX_TRANS_LEN
    decreases |segs|
  {
    if segs != [] {
      ResidueSum(hw, segs[..|segs| - 1]);
      SegmentResidueExact(hw[Last(segs)]);
      assert |segs| * MAX_TRANS_LEN == (|segs| - 1) * MAX_TRANS_LEN + MAX_TRANS_LEN;
    }
  }

  /** In every run the residue loop over the last active descriptor is exact and never wraps:
      distinctness of the pool bounds it by 255 full segments. */
  lemma ResidueExact(y: System)
    requires Conserved(y) && y.ch.active != []
    ensures Residue(y.ch.hw, Last(y.ch.active).segs) == TotalRemaining(y.ch.hw, Last(y.ch.active).segs)
    ensures TotalRemaining(y.ch.hw, Last(y.ch.active).segs) <= 2139094785
  {
    AtMostPool(y);
    assert Last(y.ch.active) in Owners(y);
    ResidueSum(y.ch.hw, Last(y.ch.active).segs);
  }

  /** Exactly whose residue that is: among all cookies in progress, only the newest active
      descriptor's query reads its own segments. */
  lemma ResidueOwnerExactly(y: System, i: nat)
    requires ChannelInv(y) && y.ch.active != [] && i < |y.h.submitted|
    ensures y.h.submitted[i] == Last(y.ch.active) <==> i == |Left(y)| + |y.ch.active| - 1
  {
    var n := |Left(y)| + |y.ch.active| - 1;
    assert y.h.submitted == Left(y) + y.ch.active + y.ch.pending;
    assert y.h.submitted[n] == Last(y.ch.active);
  }
}
