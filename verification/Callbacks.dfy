/** Which callbacks are made, in what order, and what may happen while one is being made. A
    finite descriptor is called back once, when it is unlinked; a completed cyclic one is
    called back where it is, on every pass of cleanup, until the channel is terminated. */
module Callbacks {
  import opened ChannelState
  import opened Memory
  import opened Pool
  import opened Queues
  import opened Runs

  /** Cookie order; only a cyclic descriptor may come twice. */
  predicate Precedes(d: Desc, e: Desc) {
    d.cookie < e.cookie || (d == e && d.cyclic)
  }

  /** d is cyclic, asks for callbacks, and is all that is left on the channel. */
  predicate Alone(y: System, d: Desc) {
    && d.cyclic && d.callback
    && y.held == [] && y.ch.done == [d] && y.ch.active == [] && y.ch.pending == []
  }

  /** The callbacks counted since the last terminate, and the one due if it will be. */
  function Promised(y: System): seq<Desc> {
    y.h.called + (if y.due != [] && y.due[0] in y.h.submitted then y.due else [])
  }

  /** All callbacks ever made, and the one due. */
  function Logged(y: System): seq<Desc> { y.h.log + y.due }

  /** Since the last terminate: first those of the finite descriptors released or held, once
      each; then those of a cyclic descriptor that is alone by then. */
  ghost predicate CalledInOrder(y: System) {
    var once := Notified(y.h.freed + y.held);
    && once <= Promised(y)
    && forall k :: |once| <= k < |Promised(y)| ==> Alone(y, Promised(y)[k])
  }

  /** Since allocation, whatever was terminated in between. */
  ghost predicate LoggedInOrder(y: System) {
    && (forall i, j :: 0 <= i < j < |Logged(y)| ==> Precedes(Logged(y)[i], Logged(y)[j]))
    && (forall d :: d in Logged(y) ==> d.cookie <= y.ch.cookie)
    && (forall d, e :: d in Logged(y) && e in Listed(y.ch) ==> Precedes(d, e))
  }

  /** The tasklet holds a descriptor, or rings for one, or neither; what is due is its. */
  ghost predicate InWindow(y: System) {
    && (y.ringing != [] ==>
         y.held == [] && |y.ringing| == 1 && y.ringing[0].cyclic && y.ringing[0].callback)
    && (y.due != [] ==> (y.due == y.held || y.due == y.ringing) && |y.due| == 1 && y.due[0].callback)
  }

  ghost predicate CallbackInv(y: System) {
    CalledInOrder(y) && LoggedInOrder(y) && InWindow(y)
  }

  lemma {:induction false} NotifiedConcat(a: seq<Desc>, b: seq<Desc>)
    ensures Notified(a + b) == Notified(a) + Notified(b)
    decreases |b|
  {
    if b == [] {
      assert a + b == a;
    } else {
      var b' := b[..|b| - 1];
      assert (a + b)[..|a + b| - 1] == a + b' && Last(a + b) == Last(b);
      NotifiedConcat(a, b');
    }
  }

  /** Steps that promise no callback and leave an only cyclic descriptor where it is. */
  lemma NoCall(y: System, z: System)
    requires CallbackInv(y)
    requires Promised(z) == Promised(y) && Logged(z) == Logged(y) && z.h.freed + z.held == y.h.freed + y.held
    requires InWindow(z)
    requires forall d :: Alone(y, d) ==> Alone(z, d)
    requires y.ch.cookie <= z.ch.cookie
    requires forall e :: e in Listed(z.ch) ==> e in Listed(y.ch) || y.ch.cookie < e.cookie
    ensures CallbackInv(z)
  {
  }

  /** What the callbacks depend on, but for the lists. */
  ghost predicate SameTasklet(y: System, z: System) {
    && z.held == y.held && z.ringing == y.ringing && z.due == y.due
    && z.h.called == y.h.called && z.h.log == y.h.log && z.h.freed == y.h.freed
  }

  lemma SameListsNoCall(y: System, z: System)
    requires CallbackInv(y) && SameTasklet(y, z) && z.h.submitted == y.h.submitted
    requires z.ch.pending == y.ch.pending && z.ch.active == y.ch.active && z.ch.done == y.ch.done
    requires z.ch.cookie == y.ch.cookie
    ensures CallbackInv(z)
  {
    NoCall(y, z);
  }

  lemma PrepNoCall(y: System, step: Step)
    requires CallbackInv(y) && IsPrep(step)
    ensures CallbackInv(Next(y, step))
  {
    var z := PrepStep(y, step);
    SameListsNoCall(y, z);
  }

  /** A channel with a cyclic descriptor accepts nothing. */
  lemma AloneIsCyclic(y: System, d: Desc)
    requires CyclicLast(y.ch) && !y.ch.bug && Alone(y, d)
    ensures y.ch.cyclic
  {
    assert Listed(y.ch)[0] == d;
  }

  lemma NoneAlone(y: System)
    requires CyclicLast(y.ch) && !y.ch.bug && !y.ch.cyclic
    ensures forall d :: !Alone(y, d)
  {
    forall d ensures !Alone(y, d) {
      if y.ch.done == [d] { assert Listed(y.ch)[0] == d; }
    }
  }

  /** A descriptor that is due keeps its standing when a younger one is submitted. */
  lemma SamePromise(y: System, z: System, d: Desc)
    requires CallbackInv(y) && SameTasklet(y, z)
    requires z.h.submitted == y.h.submitted + [d] && y.ch.cookie < d.cookie
    ensures Promised(z) == Promised(y)
  {
    if y.due != [] { assert y.due[0] in Logged(y); }
  }

  lemma SubmitNoCall(y: System, j: nat, callback: bool, after: nat)
    requires QueueInv(y) && CallbackInv(y) && !y.ch.bug && j < |y.prepared|
    ensures CallbackInv(NextSubmit(y, j, callback, after))
  {
    var z := NextSubmit(y, j, callback, after);
    var d := y.prepared[j].(callback := callback);
    if Submit(y.ch, d, after).outcome.Accepted? {
      AcceptedShape(y.ch, d, after);
      NoneAlone(y);
      SamePromise(y, z, Last(z.ch.pending));
      NoCall(y, z);
    } else {
      RejectedShape(y.ch, d, after);
      SameListsNoCall(y, z);
    }
  }

  lemma StartNoCall(y: System, z: System, ok: bool)
    requires CallbackInv(y) && z.ch == Start(y.ch, ok) && SameTasklet(y, z) && z.h.submitted == y.h.submitted
    ensures CallbackInv(z)
  {
    StartShape(y.ch, ok);
    NoCall(y, z);
  }

  lemma IrqNoCall(y: System, status: nat, ok: bool)
    requires CallbackInv(y)
    ensures CallbackInv(NextIrq(y, status, ok))
  {
    var w := NextIrq(y, status, ok);
    if HasIoc(status) {
      var z := y.(ch := Completed(y.ch, status));
      CompletedShape(y.ch, status);
      NoCall(y, z);
      StartNoCall(z, w, ok);
    } else {
      SameListsNoCall(y, w);
    }
  }

  lemma LogCall(y: System, z: System, d: Desc, calls: seq<Desc>)
    requires LoggedInOrder(y) && Cookies(y) && Fifo(y) && d in Listed(y.ch)
    requires calls == [] || calls == [d]
    requires Logged(z) == Logged(y) + calls && z.ch.cookie == y.ch.cookie
    requires forall e :: e in Listed(z.ch) ==> e in Listed(y.ch) && Precedes(d, e)
    ensures LoggedInOrder(z)
  {
    assert d in y.h.submitted;
  }

  /** The oldest listed descriptor comes before the others. */
  lemma HeadPrecedes(y: System, e: Desc)
    requires Fifo(y) && Cookies(y) && y.ch.done != [] && e in Listed(y.ch)[1..]
    ensures Precedes(y.ch.done[0], e)
  {
    var k :| 0 <= k < |Listed(y.ch)[1..]| && Listed(y.ch)[1..][k] == e;
    var n := |y.h.freed + y.held|;
    assert y.h.submitted[n] == y.ch.done[0] && y.h.submitted[n + 1 + k] == e;
  }

  /** As long as a finite descriptor heads the done list, only finite ones have been called. */
  lemma OnlyFiniteCalled(y: System)
    requires CalledInOrder(y) && CanTake(y.ch)
    ensures Promised(y) == Notified(y.h.freed + y.held)
  {
    var n := |Notified(y.h.freed + y.held)|;
    assert n < |Promised(y)| ==> Alone(y, Promised(y)[n]);
  }

  lemma NotifiedOne(d: Desc)
    ensures Notified([d]) == if d.callback then [d] else []
  {
    assert [d][..0] == [];
  }

  lemma TakePromises(y: System)
    requires Fifo(y) && CalledInOrder(y) && AtLoopHead(y) && CanTake(y.ch)
    ensures CalledInOrder(NextTake(y)) && InWindow(NextTake(y))
  {
    var z, d := NextTake(y), y.ch.done[0];
    assert y.h.freed + y.held == y.h.freed && z.h.freed + z.held == y.h.freed + [d];
    NotifiedConcat(y.h.freed, [d]);
    NotifiedOne(d);
    OnlyFiniteCalled(y);
    assert Promised(y) == y.h.called;
    assert d in y.h.submitted;
  }

  lemma TakeCalls(y: System)
    requires QueueInv(y) && CallbackInv(y) && AtLoopHead(y) && CanTake(y.ch)
    ensures CallbackInv(NextTake(y))
  {
    TakePromises(y);
    TakeLogs(y);
  }

  lemma TakeLogs(y: System)
    requires Fifo(y) && Cookies(y) && LoggedInOrder(y) && AtLoopHead(y) && CanTake(y.ch)
    ensures LoggedInOrder(NextTake(y))
  {
    var z, d := NextTake(y), y.ch.done[0];
    assert Listed(y.ch) == [d] + Listed(z.ch);
    NotifiedOne(d);
    forall e | e in Listed(z.ch) ensures Precedes(d, e) { HeadPrecedes(y, e); }
    assert Logged(z) == Logged(y) + Notified([d]);
    LogCall(y, z, d, Notified([d]));
  }

  lemma RingCalls(y: System)
    requires QueueInv(y) && CallbackInv(y) && AtLoopHead(y) && CanRing(y.ch) && !y.ch.bug
    ensures CallbackInv(NextRing(y)) && Alone(y, y.ch.done[0])
  {
    var z, d := NextRing(y), y.ch.done[0];
    assert Listed(y.ch)[0] == d;
    assert |Listed(y.ch)| == 1;
    assert y.ch.done == [d] && d in y.h.submitted;
    assert Promised(y) == y.h.called && Promised(z) == Promised(y) + [d];
    assert Logged(z) == Logged(y) + [d];
    LogCall(y, z, d, [d]);
  }

  /** Making a callback keeps the promise of it. */
  lemma CallKeepsPromise(y: System)
    requires y.due != []
    ensures Promised(NextCall(y)) == Promised(y) && Logged(NextCall(y)) == Logged(y)
  {
  }

  lemma CallNoCall(y: System)
    requires CallbackInv(y) && y.due != []
    ensures CallbackInv(NextCall(y))
  {
    CallKeepsPromise(y);
    NoCall(y, NextCall(y));
  }

  lemma TerminatePromise(y: System, ok: bool)
    requires InWindow(y) && |y.held| <= 1
    ensures Promised(NextTerminate(y, ok)) == Notified(y.held)
  {
    if y.held != [] { NotifiedOne(y.held[0]); }
  }

  lemma TerminateCalls(y: System, ok: bool)
    requires CallbackInv(y) && |y.held| <= 1
    ensures CallbackInv(NextTerminate(y, ok))
  {
    TerminatePromise(y, ok);
    var z := Terminated(y, ok);
    assert z.h.freed + z.held == y.held;
  }

  lemma Terminated(y: System, ok: bool) returns (z: System)
    ensures z == NextTerminate(y, ok) && Listed(z.ch) == [] && z.ch.cookie == y.ch.cookie
    ensures z.held == y.held && z.ringing == y.ringing && z.due == y.due
    ensures z.h.freed == [] && Logged(z) == Logged(y)
  {
    TerminateLists(y.ch, ok);
    z := NextTerminate(y, ok);
  }

  lemma FreeNoCall(y: System)
    requires CallbackInv(y) && y.due == []
    ensures CallbackInv(NextFree(y))
  {
    var z := NextFree(y);
    assert z.h.freed + z.held == y.h.freed + y.held;
    NoCall(y, z);
  }

  lemma RungNoCall(y: System)
    requires CallbackInv(y) && y.due == []
    ensures CallbackInv(y.(ringing := []))
  {
    NoCall(y, y.(ringing := []));
  }

  lemma ClientNoCall(y: System, step: Step)
    requires QueueInv(y) && CallbackInv(y) && !y.ch.bug && ClientSide(step)
    ensures CallbackInv(Next(y, step))
  {
    match step
    case StepPrepSg(_, _, _) => PrepNoCall(y, step);
    case StepPrepCyclic(_, _, _, _) => PrepNoCall(y, step);
    case StepSubmit(j, callback, after) => if j < |y.prepared| { SubmitNoCall(y, j, callback, after); }
    case StepIssue(ok) => StartNoCall(y, Next(y, step), ok);
    case StepTerminate(ok) => TerminateCalls(y, ok);
  }

  predicate TaskletSide(step: Step) {
    step.StepTake? || step.StepRing? || step.StepCall? || step.StepFree? || step.StepRung?
  }

  lemma TaskletCalls(y: System, step: Step)
    requires QueueInv(y) && CallbackInv(y) && !y.ch.bug && TaskletSide(step)
    ensures CallbackInv(Next(y, step))
  {
    match step
    case StepTake => if AtLoopHead(y) && CanTake(y.ch) { TakeCalls(y); }
    case StepRing => if AtLoopHead(y) && CanRing(y.ch) { RingCalls(y); }
    case StepCall => if y.due != [] { CallNoCall(y); }
    case StepFree => if y.due == [] { FreeNoCall(y); }
    case StepRung => if y.due == [] { RungNoCall(y); }
  }

  lemma HardwareNoCall(y: System, step: Step)
    requires CallbackInv(y) && (step.StepHwWrite? || step.StepHwFinish?)
    ensures CallbackInv(Next(y, step))
  {
    SameListsNoCall(y, Next(y, step));
  }

  lemma CallbackNext(y: System, step: Step)
    requires QueueInv(y) && CallbackInv(y)
    ensures CallbackInv(Next(y, step))
  {
    if !y.ch.bug {
      if ClientSide(step) {
        ClientNoCall(y, step);
      } else if step.StepIrq? {
        IrqNoCall(y, step.status, step.ok);
      } else if step.StepHwWrite? || step.StepHwFinish? {
        HardwareNoCall(y, step);
      } else {
        TaskletCalls(y, step);
      }
    }
  }

  lemma {:induction false} CallbacksInEveryRun(y: System, steps: seq<Step>)
    requires ChannelInv(y) && CallbackInv(y)
    ensures ChannelInv(Run(y, steps)) && CallbackInv(Run(y, steps))
    decreases |steps|
  {
    if steps != [] {
      MemoryNext(y, steps[0]);
      QueueNext(y, steps[0]);
      CallbackNext(y, steps[0]);
      CallbacksInEveryRun(Next(y, steps[0]), steps[1..]);
    }
  }

  // ---- The window around a cyclic callback ----------------------------------------------------

  /** Everything submitted since the last terminate is younger than d. */
  ghost predicate Outlived(y: System, d: Desc) {
    forall e :: e in y.h.submitted ==> d.cookie < e.cookie
  }

  /** While d's callback is being made: d is still alone, or has been terminated. */
  ghost predicate Window(y: System, d: Desc, terminated: bool) {
    && y.ringing == [d] && y.held == [] && d.cookie <= y.ch.cookie
    && (if terminated then Outlived(y, d) else Alone(y, d) && !y.ch.bug && y.ch.cyclic)
  }

  lemma SubmitWindow(y: System, d: Desc, terminated: bool, j: nat, callback: bool, after: nat)
    requires Window(y, d, terminated) && !y.ch.bug && j < |y.prepared|
    ensures Window(NextSubmit(y, j, callback, after), d, terminated)
    ensures Logged(NextSubmit(y, j, callback, after)) == Logged(y)
  {
    var e := y.prepared[j].(callback := callback);
    if Submit(y.ch, e, after).outcome.Accepted? { AcceptedShape(y.ch, e, after); }
    else { RejectedShape(y.ch, e, after); }
  }

  lemma IrqWindow(y: System, d: Desc, terminated: bool, status: nat, ok: bool)
    requires Window(y, d, terminated) && !y.ch.bug
    ensures Window(NextIrq(y, status, ok), d, terminated) && Logged(NextIrq(y, status, ok)) == Logged(y)
  {
    if HasIoc(status) {
      CompletedShape(y.ch, status);
      StartShape(Completed(y.ch, status), ok);
    }
  }

  lemma PrepWindow(y: System, d: Desc, terminated: bool, step: Step)
    requires Window(y, d, terminated) && IsPrep(step)
    ensures Window(Next(y, step), d, terminated) && Logged(Next(y, step)) == Logged(y)
  {
    var z := PrepStep(y, step);
  }

  lemma ClientWindow(y: System, d: Desc, terminated: bool, step: Step)
    requires Window(y, d, terminated) && !y.ch.bug && ClientSide(step)
    ensures Window(Next(y, step), d, terminated || step.StepTerminate?) && Logged(Next(y, step)) == Logged(y)
  {
    match step
    case StepPrepSg(_, _, _) => PrepWindow(y, d, terminated, step);
    case StepPrepCyclic(_, _, _, _) => PrepWindow(y, d, terminated, step);
    case StepSubmit(j, callback, after) =>
      if j < |y.prepared| { SubmitWindow(y, d, terminated, j, callback, after); }
    case StepIssue(ok) => StartShape(y.ch, ok);
    case StepTerminate(ok) => TerminateLists(y.ch, ok);
  }

  lemma WindowNext(y: System, d: Desc, terminated: bool, step: Step)
    requires Window(y, d, terminated) && !step.StepRung?
    ensures Window(Next(y, step), d, terminated || step.StepTerminate?) && Logged(Next(y, step)) == Logged(y)
  {
    if y.ch.bug {
      assert Next(y, step) == y;
    } else if ClientSide(step) {
      ClientWindow(y, d, terminated, step);
    } else if step.StepIrq? {
      IrqWindow(y, d, terminated, step.status, step.ok);
    }
  }

  predicate Terminates(steps: seq<Step>) {
    exists s :: s in steps && s.StepTerminate?
  }

  lemma TerminatesStep(steps: seq<Step>)
    requires steps != []
    ensures Terminates(steps) <==> steps[0].StepTerminate? || Terminates(steps[1..])
  {
    assert steps == [steps[0]] + steps[1..];
  }

  lemma {:induction false} WindowRun(y: System, d: Desc, terminated: bool, steps: seq<Step>)
    requires ChannelInv(y) && CallbackInv(y) && Window(y, d, terminated)
    requires forall s :: s in steps ==> !s.StepRung?
    ensures Window(Run(y, steps), d, terminated || Terminates(steps)) && Logged(Run(y, steps)) == Logged(y)
    decreases |steps|
  {
    if steps != [] {
      var z := Next(y, steps[0]);
      WindowNext(y, d, terminated, steps[0]);
      MemoryNext(y, steps[0]);
      QueueNext(y, steps[0]);
      CallbackNext(y, steps[0]);
      TerminatesStep(steps);
      WindowRun(z, d, terminated || steps[0].StepTerminate?, steps[1..]);
    }
  }

  lemma WindowOpens(y: System)
    requires ChannelInv(y) && CallbackInv(y) && !y.ch.bug && AtLoopHead(y) && CanRing(y.ch)
    ensures
      var d, w := y.ch.done[0], Next(y, StepRing);
      Window(w, d, false) && ChannelInv(w) && CallbackInv(w) && Logged(w) == y.h.log + [d]
  {
    RingCalls(y);
    WindowStarts(y);
    MemoryNext(y, StepRing);
    QueueNext(y, StepRing);
  }

  lemma WindowStarts(y: System)
    requires QueueInv(y) && !y.ch.bug && AtLoopHead(y) && CanRing(y.ch) && Alone(y, y.ch.done[0])
    ensures Window(Next(y, StepRing), y.ch.done[0], false) && Logged(Next(y, StepRing)) == y.h.log + [y.ch.done[0]]
  {
    var d := y.ch.done[0];
    AloneIsCyclic(y, d);
    assert Listed(y.ch)[0] == d && d in y.h.submitted;
  }

  lemma StillDone(z: System, d: Desc, terminated: bool)
    requires Fifo(z) && Window(z, d, terminated)
    ensures z.ch.done == [d] <==> !terminated
  {
    if z.ch.done != [] { assert z.h.submitted[|z.h.freed + z.held|] == z.ch.done[0]; }
  }

  /** What the return from d's callback finds, `log` being the calls made before and its own. */
  ghost predicate Undisturbed(z: System, d: Desc, log: seq<Desc>, terminated: bool) {
    && z.ringing == [d] && Logged(z) == log
    && Next(z, StepRung).ch == z.ch && Conserved(z)
    && (z.ch.done == [d] <==> !terminated)
    && (terminated ==> Outlived(z, d))
  }

  lemma WindowHolds(w: System, d: Desc, steps: seq<Step>)
    requires ChannelInv(w) && CallbackInv(w) && Window(w, d, false)
    requires forall s :: s in steps ==> !s.StepRung?
    ensures Undisturbed(Run(w, steps), d, Logged(w), Terminates(steps))
  {
    WindowRun(w, d, false, steps);
    ChannelInEveryRun(w, steps);
    StillDone(Run(w, steps), d, Terminates(steps));
  }

  /** Cleanup never touches a cyclic descriptor after its callback. Whatever happens during the
      callback, the tasklet makes no other call, its return changes nothing on the channel,
      and the descriptor is still alone in the done list exactly when no terminate intervened;
      if one did, every segment is still in exactly one place and nothing queued is as old. */
  lemma CyclicCallbackWindow(y: System, steps: seq<Step>)
    requires ChannelInv(y) && CallbackInv(y) && !y.ch.bug && AtLoopHead(y) && CanRing(y.ch)
    requires forall s :: s in steps ==> !s.StepRung?
    ensures
      var d := y.ch.done[0];
      Undisturbed(Run(Next(y, StepRing), steps), d, y.h.log + [d], Terminates(steps))
  {
    WindowOpens(y);
    WindowHolds(Next(y, StepRing), y.ch.done[0], steps);
  }
}
