/** From one batch to the next: where the engine stopped, it can go on. */
module Batches {
  import opened ChannelState
  import opened Memory
  import opened Options
  import opened Ring
  import opened Runs
  import opened Walk

  /** The pool from the oldest pending segment round to the last one given to the engine. */
  function Cycle(y: System): seq<SegId> {
    Flat(y.ch.pending) + Flat(y.prepared) + y.ch.free + Flat(y.held) + Flat(y.ch.done) + Flat(y.ch.active)
  }

  lemma RegroupCycle(h: seq<SegId>, d: seq<SegId>, a: seq<SegId>, p: seq<SegId>, r: seq<SegId>, f: seq<SegId>)
    ensures h + d + a + p + r + f == (h + d + a) + (p + r + f)
    ensures p + r + f + h + d + a == (p + r + f) + (h + d + a)
    ensures p + r + f + h + d + a == (p + (r + f)) + (h + (d + a))
  {
  }

  lemma CycleRing(y: System)
    requires IsRing(Order(y))
    ensures IsRing(Cycle(y))
  {
    var live := Flat(y.held) + Flat(y.ch.done) + Flat(y.ch.active);
    var rest := Flat(y.ch.pending) + Flat(y.prepared) + y.ch.free;
    OrderBlocks(y);
    RegroupCycle(Flat(y.held), Flat(y.ch.done), Flat(y.ch.active), Flat(y.ch.pending), Flat(y.prepared), y.ch.free);
    RingRotate(live, rest);
  }

  /** The address last written to TAILDESC is that of the cycle's end, wherever the batch it
      ended has got to: active, done, being released, or free. */
  ghost predicate InPlace(y: System) {
    Cycle(y) != [] && y.ch.regs.taildesc == Addr(y.ch.base, Last(Cycle(y)))
  }

  /** The link in the segment the engine was last told to stop at. */
  function TailLink(s: State): Option<nat> {
    match SegmentAt(s.base, s.regs.taildesc)
    case None => None
    case Some(i) => Some(s.hw[i].next)
  }

  /** In place, what is pending starts where the last batch's tail links to. */
  lemma LinkToPending(y: System)
    requires RingInv(y) && MemoryInv(y) && InPlace(y) && y.ch.pending != []
    ensures TailLink(y.ch) == Some(HeadAddr(y.ch.pending))
  {
    CycleRing(y);
    BatchEnds(y.ch.pending);
    var q := Cycle(y);
    assert q[0] == y.ch.pending[0].segs[0];
    assert Succ(Last(q)) == q[0];
    SegmentAtAddr(y.ch.base, Last(q));
    assert y.ch.pending[0] in Owners(y);
  }

  // ---- Which steps keep it --------------------------------------------------------------------

  /** Beyond what keeps the ring: accepted submissions strictly oldest first, no refused one
      that leaves others waiting, and no terminate that puts other segments last. */
  predicate KeepsPlace(y: System, step: Step) {
    KeepsRing(y, step) &&
    (y.ch.bug ||
     match step
     case StepSubmit(j, callback, after) =>
       j < |y.prepared| ==>
         if y.ch.cyclic then j == |y.prepared| - 1 && y.ch.free == []
         else Accepting(y.ch, after) ==> j == 0
     case StepTerminate(_) =>
       && !(y.held != [] && y.ch.done + y.ch.active != [])
       && !(y.ch.pending != [] && (y.prepared != [] || y.ch.free != []))
     case _ => true)
  }

  lemma SamePlace(y: System, z: System)
    requires Cycle(z) == Cycle(y) && z.ch.base == y.ch.base && z.ch.regs.taildesc == y.ch.regs.taildesc
    ensures InPlace(z) <==> InPlace(y)
  {
  }

  lemma LastOfSum(a: seq<SegId>, b: seq<SegId>)
    requires b != []
    ensures a + b != [] && Last(a + b) == Last(b)
  {
  }

  /** A block moved behind the end of the ring takes the end away. */
  lemma EndMoves(a: seq<SegId>, b: seq<SegId>)
    requires IsRing(a + b) && a != [] && b != []
    ensures Last(b + a) != Last(a + b)
  {
    var q := a + b;
    LastOfSum(a, b);
    LastOfSum(b, a);
    assert q[|a| - 1] == Last(a) && q[|q| - 1] == Last(b);
    RingApart(q, |a| - 1, |q| - 1);
  }

  lemma AcceptedCycle(y: System, callback: bool, after: nat)
    requires y.prepared != [] && Accepting(y.ch, after)
    ensures Cycle(NextSubmit(y, 0, callback, after)) == Cycle(y)
  {
    var z := NextSubmit(y, 0, callback, after);
    var d := y.prepared[0].(callback := callback);
    AcceptedState(y.ch, d, after);
    var d' := Last(z.ch.pending);
    FlatConcat(y.ch.pending, [d']);
    FlatOne(d');
    assert z.prepared == y.prepared[1..];
    assert Flat(y.prepared) == d.segs + Flat(z.prepared);
    assert Flat(y.ch.pending) + d.segs + Flat(z.prepared) == Flat(y.ch.pending) + Flat(y.prepared);
  }

  /** The other accepted submission that keeps the ring: the newest of several prepared, with
      nothing else anywhere. */
  lemma LoneAcceptedCycle(y: System, j: nat, callback: bool, after: nat)
    requires IsRing(Order(y)) && 0 < j == |y.prepared| - 1 && Queued(y) == [] && y.ch.free == []
    requires Accepting(y.ch, after)
    ensures
      var z := NextSubmit(y, j, callback, after);
      Cycle(z) != [] && Cycle(y) != [] && Last(Cycle(z)) != Last(Cycle(y))
  {
    var z := NextSubmit(y, j, callback, after);
    var d := y.prepared[j].(callback := callback);
    AcceptedState(y.ch, d, after);
    var d' := z.ch.pending[0];
    assert z.ch.pending == [d'] && y.held == [] && y.ch.done == [] && y.ch.active == [] && y.ch.pending == [];
    FlatOne(d');
    FlatRemove(y.prepared, j);
    FlatEmpty(y.prepared[..j]);
    assert y.prepared[j + 1..] == [];
    var before := Flat(y.prepared[..j]);
    assert Cycle(y) == before + d.segs && Cycle(z) == d.segs + before;
    CycleRing(y);
    EndMoves(before, d.segs);
  }

  lemma BusyState(y: System, j: nat, callback: bool, after: nat)
    requires j < |y.prepared| && y.ch.cyclic
    ensures
      var z := NextSubmit(y, j, callback, after);
      && z.prepared == Remove(y.prepared, j) && z.held == y.held
      && z.ch == FreeSegs(y.ch, y.prepared[j].segs)
  {
  }

  lemma BusyCycle(y: System, j: nat, callback: bool, after: nat)
    requires j < |y.prepared| && y.ch.cyclic && j == |y.prepared| - 1 && y.ch.free == []
    ensures Cycle(NextSubmit(y, j, callback, after)) == Cycle(y)
  {
    BusyState(y, j, callback, after);
    FlatRemove(y.prepared, j);
    assert y.prepared[j + 1..] == [];
    Shift(Flat(y.ch.pending), Flat(y.prepared[..j]), y.prepared[j].segs);
  }

  lemma Shift(p: seq<SegId>, b: seq<SegId>, d: seq<SegId>)
    ensures p + (b + d + []) + [] == p + (b + []) + ([] + d)
  {
  }

  lemma LoneBusyCycle(y: System, callback: bool, after: nat)
    requires IsRing(Order(y)) && y.prepared != [] && y.ch.cyclic && Queued(y) == []
    requires !(|y.prepared| == 1 && y.ch.free == [])
    ensures
      var z := NextSubmit(y, 0, callback, after);
      Cycle(z) != [] && Cycle(y) != [] && Last(Cycle(z)) != Last(Cycle(y))
  {
    var z, d := NextSubmit(y, 0, callback, after), y.prepared[0];
    BusyState(y, 0, callback, after);
    FlatEmpty(y.prepared[1..]);
    var rest := Flat(y.prepared[1..]) + y.ch.free;
    assert Cycle(y) == d.segs + rest by { QuietCycle(y); }
    assert z.prepared == y.prepared[1..];
    assert Cycle(z) == rest + d.segs by { QuietCycle(z); }
    CycleRing(y);
    EndMoves(d.segs, rest);
  }

  lemma QuietCycle(y: System)
    requires y.held == [] && y.ch.done == [] && y.ch.active == [] && y.ch.pending == []
    ensures Cycle(y) == Flat(y.prepared) + y.ch.free
  {
  }

  lemma SubmitPlace(y: System, j: nat, callback: bool, after: nat)
    requires RingInv(y) && MemoryInv(y) && InPlace(y) && j < |y.prepared| && !y.ch.bug
    requires KeepsRing(y, StepSubmit(j, callback, after))
    ensures InPlace(NextSubmit(y, j, callback, after)) <==> KeepsPlace(y, StepSubmit(j, callback, after))
  {
    var z := NextSubmit(y, j, callback, after);
    SubmitSameBatch(y.ch, y.prepared[j].(callback := callback), after);
    if y.ch.cyclic {
      if j == |y.prepared| - 1 && y.ch.free == [] {
        BusyCycle(y, j, callback, after);
        SamePlace(y, z);
      } else {
        LoneBusyCycle(y, callback, after);
      }
    } else if Accepting(y.ch, after) {
      if j == 0 {
        AcceptedCycle(y, callback, after);
        SamePlace(y, z);
      } else {
        LoneAcceptedCycle(y, j, callback, after);
      }
    } else {
      SamePlace(y, z);
    }
  }

  /** Four blocks of the ring, and the same with the first two and the last two exchanged. */
  lemma EndOfFour(p: seq<SegId>, r: seq<SegId>, h: seq<SegId>, b: seq<SegId>)
    requires IsRing((p + r) + (h + b))
    requires Count(h != []) + Count(b != []) + Count(p != []) + Count(r != []) <= 2
    ensures Last((r + p) + (b + h)) == Last((p + r) + (h + b)) <==> !(h != [] && b != []) && !(p != [] && r != [])
  {
    if h != [] && b != [] {
      assert (p + r) + (h + b) == h + b && (r + p) + (b + h) == b + h;
      EndMoves(h, b);
    } else if p != [] && r != [] {
      assert (p + r) + (h + b) == p + r && (r + p) + (b + h) == r + p;
      EndMoves(p, r);
    } else {
      assert h + b == b + h && p + r == r + p;
    }
  }

  lemma TerminatedCycle(y: System, ok: bool)
    ensures
      var p, r := Flat(y.ch.pending), Flat(y.prepared) + y.ch.free;
      var h, b := Flat(y.held), Flat(y.ch.done) + Flat(y.ch.active);
      && Cycle(y) == (p + r) + (h + b)
      && Cycle(NextTerminate(y, ok)) == (r + p) + (b + h)
  {
    TerminateShape(y.ch, ok);
    FlatConcat(y.ch.pending + y.ch.done, y.ch.active);
    FlatConcat(y.ch.pending, y.ch.done);
    RegroupCycle(Flat(y.held), Flat(y.ch.done), Flat(y.ch.active), Flat(y.ch.pending), Flat(y.prepared), y.ch.free);
    RegroupTerminated(Flat(y.held), Flat(y.ch.done), Flat(y.ch.active), Flat(y.ch.pending), Flat(y.prepared), y.ch.free);
  }

  lemma RegroupTerminated(h: seq<SegId>, d: seq<SegId>, a: seq<SegId>, p: seq<SegId>, r: seq<SegId>, f: seq<SegId>)
    ensures [] + r + (f + (p + d + a)) + h + [] + [] == ((r + f) + p) + ((d + a) + h)
  {
  }

  lemma TerminateRegs(s: State, ok: bool)
    ensures Terminate(s, ok).regs.taildesc == s.regs.taildesc && Terminate(s, ok).base == s.base
  {
  }

  lemma BlocksEmpty(y: System)
    ensures Flat(y.held) == [] <==> y.held == []
    ensures Flat(y.ch.pending) == [] <==> y.ch.pending == []
    ensures Flat(y.ch.done) + Flat(y.ch.active) == [] <==> y.ch.done + y.ch.active == []
    ensures Flat(y.prepared) + y.ch.free == [] <==> y.prepared == [] && y.ch.free == []
  {
    FlatEmpty(y.held);
    FlatEmpty(y.ch.done);
    FlatEmpty(y.ch.active);
    FlatEmpty(y.ch.pending);
    FlatEmpty(y.prepared);
  }

  lemma EndAfterTerminate(y: System, z: System, ok: bool)
    requires IsRing(Order(y)) && z == NextTerminate(y, ok)
    requires Count(y.held != []) + Count(y.ch.done + y.ch.active != []) + Count(y.ch.pending != [])
             + Count(y.prepared != [] || y.ch.free != []) <= 2
    ensures Cycle(y) != [] && Cycle(z) != []
    ensures Last(Cycle(z)) == Last(Cycle(y)) <==>
            !(y.held != [] && y.ch.done + y.ch.active != [])
            && !(y.ch.pending != [] && (y.prepared != [] || y.ch.free != []))
  {
    TerminatedCycle(y, ok);
    CycleRing(y);
    BlocksEmpty(y);
    EndOfFour(Flat(y.ch.pending), Flat(y.prepared) + y.ch.free, Flat(y.held), Flat(y.ch.done) + Flat(y.ch.active));
  }

  lemma TerminatePlace(y: System, ok: bool)
    requires RingInv(y) && InPlace(y) && !y.ch.bug && KeepsRing(y, StepTerminate(ok))
    ensures InPlace(NextTerminate(y, ok)) <==> KeepsPlace(y, StepTerminate(ok))
  {
    EndAfterTerminate(y, NextTerminate(y, ok), ok);
    TerminateRegs(y.ch, ok);
  }

  // ---- Starts ---------------------------------------------------------------------------------

  /** A start that succeeds puts the channel in place, whatever TAILDESC held before; one that
      does not start leaves it there. */
  lemma StartPlace(y: System, z: System, ok: bool)
    requires y.ch.sg && z.ch == Start(y.ch, ok) && z.prepared == y.prepared && z.held == y.held
    requires InPlace(y) || (CanStart(y.ch) && ok)
    ensures InPlace(z)
  {
    if CanStart(y.ch) && ok {
      BatchEnds(y.ch.pending);
      FlatConcat(y.ch.active, y.ch.pending);
      var rest := Flat(y.prepared) + y.ch.free + Flat(y.held) + Flat(y.ch.done) + Flat(y.ch.active);
      assert Cycle(z) == rest + Flat(y.ch.pending);
      LastOfSum(rest, Flat(y.ch.pending));
    } else {
      SamePlace(y, z);
    }
  }

  lemma CompletedPlace(y: System, status: nat)
    ensures InPlace(y.(ch := Completed(y.ch, status))) <==> InPlace(y)
  {
    var z := y.(ch := Completed(y.ch, status));
    FlatConcat(y.ch.done, y.ch.active);
    var rest := Flat(y.ch.pending) + Flat(y.prepared) + y.ch.free + Flat(y.held);
    assert rest + (Flat(y.ch.done) + Flat(y.ch.active)) + [] == rest + Flat(y.ch.done) + Flat(y.ch.active);
    SamePlace(y, z);
  }

  lemma IrqPlace(y: System, status: nat, ok: bool)
    requires y.ch.sg
    requires InPlace(y) || (HasIoc(status) && CanStart(Completed(y.ch, status)) && ok)
    ensures InPlace(NextIrq(y, status, ok))
  {
    var w := NextIrq(y, status, ok);
    if HasIoc(status) {
      CompletedPlace(y, status);
      StartPlace(y.(ch := Completed(y.ch, status)), w, ok);
    } else {
      SamePlace(y, w);
    }
  }

  lemma PrepPlace(y: System, step: Step)
    requires IsPrep(step)
    ensures InPlace(Next(y, step)) <==> InPlace(y)
  {
    var z := PrepStep(y, step);
    PreparedBlocks(y, z);
    SamePlace(y, z);
  }

  lemma PreparedBlocks(y: System, z: System)
    requires OnlyPrepared(y, z)
    ensures Flat(y.ch.pending) + Flat(y.prepared) + y.ch.free == Flat(z.ch.pending) + Flat(z.prepared) + z.ch.free
  {
    if z.prepared != y.prepared {
      var d := Last(z.prepared);
      FlatConcat(y.prepared, [d]);
      FlatOne(d);
      assert Flat(z.prepared) + z.ch.free == Flat(y.prepared) + y.ch.free;
    }
  }

  /** Unlinking and releasing move segments along the cycle's end without turning it. */
  lemma CleanPlace(y: System, step: Step)
    requires step.StepTake? || step.StepFree?
    ensures InPlace(Next(y, step)) <==> InPlace(y)
  {
    if !y.ch.bug {
      if step.StepFree? {
        FreePlace(y);
      } else if AtLoopHead(y) && CanTake(y.ch) {
        TakePlace(y);
      }
    }
  }

  lemma TakePlace(y: System)
    requires y.held == [] && CanTake(y.ch)
    ensures InPlace(NextTake(y)) <==> InPlace(y)
  {
    var z, d := NextTake(y), y.ch.done[0];
    var front := Flat(y.ch.pending) + Flat(y.prepared) + y.ch.free;
    assert y.ch.done == [d] + z.ch.done;
    FlatOne(d);
    assert front + [] + (d.segs + Flat(z.ch.done)) == front + d.segs + Flat(z.ch.done);
    SamePlace(y, z);
  }

  lemma FreePlace(y: System)
    ensures InPlace(NextFree(y)) <==> InPlace(y)
  {
    var front := Flat(y.ch.pending) + Flat(y.prepared);
    assert front + (y.ch.free + Flat(y.held)) + [] == front + y.ch.free + Flat(y.held);
    SamePlace(y, NextFree(y));
  }

  lemma IssuePlace(y: System, ok: bool)
    requires InPlace(y) && y.ch.sg && !y.ch.bug
    ensures InPlace(Next(y, StepIssue(ok)))
  {
    StartPlace(y, Next(y, StepIssue(ok)), ok);
  }

  lemma EnginePlace(y: System, step: Step)
    requires InPlace(y) && y.ch.sg && !y.ch.bug && !step.StepSubmit? && !step.StepTerminate?
    ensures InPlace(Next(y, step))
  {
    if IsPrep(step) {
      PrepPlace(y, step);
    } else if step.StepIssue? {
      IssuePlace(y, step.ok);
    } else if step.StepIrq? {
      IrqPlace(y, step.status, step.ok);
    } else if step.StepTake? || step.StepFree? {
      CleanPlace(y, step);
    } else {
      StillPlace(y, step);
    }
  }

  lemma StillPlace(y: System, step: Step)
    requires step.StepRing? || step.StepCall? || step.StepRung? || step.StepHwWrite? || step.StepHwFinish?
    ensures InPlace(Next(y, step)) <==> InPlace(y)
  {
    SamePlace(y, Next(y, step));
  }

  /** On the ring and in place, exactly the steps that meet these conditions stay there. */
  lemma PlaceNext(y: System, step: Step)
    requires RingInv(y) && MemoryInv(y) && InPlace(y) && y.ch.sg
    ensures RingInv(Next(y, step)) && InPlace(Next(y, step)) <==> KeepsPlace(y, step)
  {
    RingNext(y, step);
    if KeepsRing(y, step) && !y.ch.bug {
      if step.StepSubmit? {
        if step.j < |y.prepared| { SubmitPlace(y, step.j, step.callback, step.after); }
      } else if step.StepTerminate? {
        TerminatePlace(y, step.ok);
      } else {
        EnginePlace(y, step);
      }
    }
  }

  predicate StaysInPlace(y: System, steps: seq<Step>)
    decreases |steps|
  {
    steps == [] || (KeepsPlace(y, steps[0]) && StaysInPlace(Next(y, steps[0]), steps[1..]))
  }

  lemma {:induction false} PlaceInRun(y: System, steps: seq<Step>)
    requires RingInv(y) && MemoryInv(y) && InPlace(y) && y.ch.sg && StaysInPlace(y, steps)
    ensures
      var z := Run(y, steps);
      RingInv(z) && MemoryInv(z) && InPlace(z) && z.ch.sg
    decreases |steps|
  {
    if steps != [] {
      PlaceNext(y, steps[0]);
      MemoryNext(y, steps[0]);
      SameEngine(y, steps[0]);
      PlaceInRun(Next(y, steps[0]), steps[1..]);
    }
  }

  /** The step starts a batch. */
  predicate Starts(y: System, step: Step) {
    !y.ch.bug &&
    match step
    case StepIssue(ok) => CanStart(y.ch) && ok
    case StepIrq(status, ok) => HasIoc(status) && CanStart(Completed(y.ch, status)) && ok
    case _ => false
  }

  lemma StartsInPlace(y: System, start: Step)
    requires RingInv(y) && MemoryInv(y) && y.ch.sg && Starts(y, start)
    ensures
      var z := Next(y, start);
      RingInv(z) && MemoryInv(z) && InPlace(z) && z.ch.sg
  {
    RingNext(y, start);
    MemoryNext(y, start);
    SameEngine(y, start);
    if start.StepIssue? { StartPlace(y, Next(y, start), start.ok); } else { IrqPlace(y, start.status, start.ok); }
  }

  lemma StartedAt(s: State, t: State)
    requires s.sg && CanStart(s) && t == Start(s, true)
    ensures t.regs.curdesc == HeadAddr(s.pending)
  {
  }

  /** Either kind of start writes the pending head's address to CURDESC. */
  lemma StartsAtHead(y: System, next: Step)
    requires y.ch.sg && Starts(y, next)
    ensures y.ch.pending != [] && Next(y, next).ch.regs.curdesc == HeadAddr(y.ch.pending)
  {
    match next
    case StepIssue(ok) => StartedAt(y.ch, Next(y, next).ch);
    case StepIrq(status, ok) => StartedAt(Completed(y.ch, status), Next(y, next).ch);
  }

  lemma ContinuesAt(y: System, next: Step)
    requires RingInv(y) && MemoryInv(y) && InPlace(y) && y.ch.sg && Starts(y, next)
    ensures TailLink(y.ch) == Some(Next(y, next).ch.regs.curdesc)
  {
    StartsAtHead(y, next);
    LinkToPending(y);
  }

  /** Between one start and the next on a scatter-gather engine, each by issue or by an interrupt,
      in a run that was disciplined before the first and whose steps keep the place after it: the
      address the next start writes to CURDESC is the link of the segment whose address the first
      wrote to TAILDESC, whether that batch is until then active, done, being released or free. */
  lemma NextBatchContinues(base: nat, ctrl: nat, regs: Regs, before: seq<Step>, start: Step,
                           steps: seq<Step>, next: Step)
    requires Disciplined(Boot(base, true, ctrl, regs), before)
    requires Starts(Run(Boot(base, true, ctrl, regs), before), start)
    requires StaysInPlace(Next(Run(Boot(base, true, ctrl, regs), before), start), steps)
    requires Starts(Run(Next(Run(Boot(base, true, ctrl, regs), before), start), steps), next)
    ensures
      var z := Run(Next(Run(Boot(base, true, ctrl, regs), before), start), steps);
      TailLink(z.ch) == Some(Next(z, next).ch.regs.curdesc)
  {
    var y0 := Boot(base, true, ctrl, regs);
    var y := Run(y0, before);
    BootMemory(base, true, ctrl, regs);
    BootRing(base, true, ctrl, regs);
    RingInDisciplinedRun(y0, before);
    BatchRegsInEveryRun(y0, before);
    StartsInPlace(y, start);
    PlaceInRun(Next(y, start), steps);
    ContinuesAt(Run(Next(y, start), steps), next);
  }
}
