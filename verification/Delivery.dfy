/** Callbacks, cookies and the pending-count assertion: what the queue invariant means to a
    client. */
module Delivery {
  import opened Callbacks
  import opened ChannelState
  import opened Memory
  import opened Pool
  import opened Queues
  import opened Runs

  /** Oldest first: strictly increasing cookies, hence no repetition. */
  ghost predicate InSubmissionOrder(ds: seq<Desc>) {
    forall i, j :: 0 <= i < j < |ds| ==> ds[i].cookie < ds[j].cookie
  }

  lemma {:induction false} NotifiedInOrder(ds: seq<Desc>)
    requires InSubmissionOrder(ds)
    ensures InSubmissionOrder(Notified(ds))
    ensures forall d :: d in Notified(ds) <==> d in ds && d.callback
    decreases |ds|
  {
    if ds != [] {
      var ds' := ds[..|ds| - 1];
      assert ds == ds' + [Last(ds)];
      NotifiedInOrder(ds');
    }
  }

  /** The first n callbacks are those of the descriptors released or held, all finite, but for
      one that is still due; each once, in submission order. */
  ghost predicate FiniteCalls(y: System, n: nat) {
    && n <= |y.h.called|
    && InSubmissionOrder(y.h.called[..n])
    && (forall d :: d in y.h.called[..n] <==> (d in y.h.freed || d in y.held) && d.callback && d !in y.due)
    && (forall d :: d in y.h.freed || d in y.held ==> !d.cyclic)
  }

  /** The callbacks from the n-th on are all of one cyclic descriptor, made with nothing else
      left on the channel. */
  ghost predicate CyclicCalls(y: System, n: nat) {
    forall k :: n <= k < |y.h.called| ==> Alone(y, y.h.called[k])
  }

  /** Since the last terminate: submissions leave in order, finite callbacks come first and
      once, and a cyclic one only after every earlier descriptor has been released. */
  ghost predicate Delivered(y: System) {
    && InSubmissionOrder(y.h.submitted)
    && y.h.submitted == y.h.freed + y.held + y.ch.done + y.ch.active + y.ch.pending
    && exists n: nat :: FiniteCalls(y, n) && CyclicCalls(y, n)
  }

  /** While a finite descriptor's callback is due, the calls made are the others'. */
  lemma HeldCalls(y: System, gone: seq<Desc>)
    requires gone == y.h.freed + y.held && InSubmissionOrder(gone) && y.due != [] && y.due == y.held && |y.due| == 1
    requires y.h.called + y.due == Notified(gone)
    requires forall d :: d in gone ==> !d.cyclic
    ensures FiniteCalls(y, |y.h.called|)
  {
    var all, n := Notified(gone), |y.h.called|;
    NotifiedInOrder(gone);
    assert y.h.called == all[..n] == y.h.called[..n] && all[n] == y.due[0];
    forall d ensures d in all[..n] <==> d in all && d !in y.due {
      if d in all && d !in y.due {
        var k :| 0 <= k < |all| && all[k] == d;
        assert k < n && all[..n][k] == d;
      }
    }
  }

  /** Otherwise the finite calls are all made, whatever is due. */
  lemma FreeCalls(y: System, gone: seq<Desc>)
    requires gone == y.h.freed + y.held && InSubmissionOrder(gone) && Notified(gone) <= Promised(y)
    requires y.due != [] ==> |y.due| == 1 && y.due[0].cyclic
    requires forall d :: d in gone ==> !d.cyclic
    ensures FiniteCalls(y, |Notified(gone)|)
  {
    var all := NotifiedOf(gone);
    NotDue(y, all);
    AllCalled(y, gone, all);
  }

  lemma NotifiedOf(gone: seq<Desc>) returns (all: seq<Desc>)
    requires InSubmissionOrder(gone)
    ensures all == Notified(gone) && InSubmissionOrder(all)
    ensures forall d :: d in all <==> d in gone && d.callback
  {
    NotifiedInOrder(gone);
    all := Notified(gone);
  }

  /** A cyclic descriptor's call that is due is none of the finite ones. */
  lemma NotDue(y: System, all: seq<Desc>)
    requires all <= Promised(y) && forall d :: d in all ==> !d.cyclic
    requires y.due != [] ==> |y.due| == 1 && y.due[0].cyclic
    ensures all <= y.h.called
  {
    assert |all| > 0 ==> all[|all| - 1] in all;
  }

  lemma AllCalled(y: System, gone: seq<Desc>, all: seq<Desc>)
    requires gone == y.h.freed + y.held && all <= y.h.called && InSubmissionOrder(all)
    requires forall d :: d in all <==> d in gone && d.callback
    requires forall d :: d in gone ==> !d.cyclic
    requires y.due != [] ==> |y.due| == 1 && y.due[0].cyclic
    ensures FiniteCalls(y, |all|)
  {
    assert y.h.called[..|all|] == all;
  }

  lemma NobodyAlone(y: System, n: nat)
    requires CalledInOrder(y) && y.held != [] && n == |Notified(y.h.freed + y.held)|
    ensures Promised(y) == Notified(y.h.freed + y.held)
  {
    assert n < |Promised(y)| ==> Alone(y, Promised(y)[n]);
  }

  lemma QueueDelivers(y: System)
    requires Fifo(y) && Cookies(y) && CallbackInv(y)
    ensures Delivered(y)
  {
    var gone := LeftInOrder(y);
    assert y.h.submitted == y.h.freed + y.held + y.ch.done + y.ch.active + y.ch.pending;
    QueueCalls(y, gone);
  }

  lemma LeftInOrder(y: System) returns (gone: seq<Desc>)
    requires Fifo(y) && Cookies(y)
    ensures gone == y.h.freed + y.held && InSubmissionOrder(gone) && forall d :: d in gone ==> !d.cyclic
  {
    gone := y.h.freed + y.held;
    assert y.h.submitted == [] + gone + Listed(y.ch);
    CookieSlices([], gone, Listed(y.ch));
  }

  lemma QueueCalls(y: System, gone: seq<Desc>)
    requires Fifo(y) && CallbackInv(y)
    requires gone == y.h.freed + y.held && InSubmissionOrder(gone) && forall d :: d in gone ==> !d.cyclic
    ensures exists n: nat :: FiniteCalls(y, n) && CyclicCalls(y, n)
  {
    if y.due != [] && y.due == y.held {
      assert y.due[0] in y.h.submitted;
      NobodyAlone(y, |Notified(gone)|);
      HeldCalls(y, gone);
      assert CyclicCalls(y, |y.h.called|);
    } else {
      FreeCalls(y, gone);
      LateCalls(y, |Notified(gone)|);
    }
  }

  lemma LateCalls(y: System, n: nat)
    requires CalledInOrder(y) && n == |Notified(y.h.freed + y.held)|
    ensures CyclicCalls(y, n)
  {
    forall k | n <= k < |y.h.called| ensures Alone(y, y.h.called[k]) {
      assert Promised(y)[k] == y.h.called[k];
    }
  }

  /** In every run the callbacks since the last terminate are delivered as above; and over the
      whole run, terminates included, they come in cookie order, only a cyclic descriptor's
      more than once. */
  lemma CallbacksInOrder(base: nat, sg: bool, ctrl: nat, regs: Regs, steps: seq<Step>)
    ensures
      var z := Run(Boot(base, sg, ctrl, regs), steps);
      Delivered(z) && LogInOrder(z)
  {
    var z := BootRun(base, sg, ctrl, regs, steps);
    QueueDelivers(z);
    LogDelivers(z);
  }

  ghost predicate LogInOrder(y: System) {
    forall i, j :: 0 <= i < j < |y.h.log| ==> Precedes(y.h.log[i], y.h.log[j])
  }

  lemma LogDelivers(y: System)
    requires LoggedInOrder(y)
    ensures LogInOrder(y)
  {
    forall i, j | 0 <= i < j < |y.h.log| ensures Precedes(y.h.log[i], y.h.log[j]) {
      assert Logged(y)[i] == y.h.log[i] && Logged(y)[j] == y.h.log[j];
    }
  }

  lemma BootRun(base: nat, sg: bool, ctrl: nat, regs: Regs, steps: seq<Step>) returns (z: System)
    ensures z == Run(Boot(base, sg, ctrl, regs), steps) && Fifo(z) && Cookies(z) && CallbackInv(z)
  {
    var y := Boot(base, sg, ctrl, regs);
    BootChannel(base, sg, ctrl, regs);
    CallbacksInEveryRun(y, steps);
    z := Run(y, steps);
  }

  lemma LeftCookie(y: System, d: Desc)
    requires Fifo(y) && Cookies(y) && d in Left(y)
    ensures IsComplete(y.ch, d.cookie) <==> !d.cyclic
  {
    assert d in y.h.submitted;
  }

  lemma WaitingCookie(y: System, d: Desc)
    requires Fifo(y) && Cookies(y) && (d in y.ch.active || d in y.ch.pending)
    ensures !IsComplete(y.ch, d.cookie)
  {
    assert d in y.h.submitted;
  }

  lemma CookieReads(y: System, i: nat)
    requires Fifo(y) && Cookies(y) && i < |y.h.submitted|
    ensures IsComplete(y.ch, y.h.submitted[i].cookie) <==> i < |Left(y)| && !y.h.submitted[i].cyclic
  {
    var d, waiting := y.h.submitted[i], y.ch.active + y.ch.pending;
    assert y.h.submitted == Left(y) + waiting;
    if i < |Left(y)| {
      assert Left(y)[i] == d;
      LeftCookie(y, d);
    } else {
      assert waiting[i - |Left(y)|] == d;
      WaitingCookie(y, d);
    }
  }

  /** In every run a cookie reads as complete exactly when its descriptor is finite and has
      left the active list. */
  lemma CookieExact(y: System, i: nat)
    requires ChannelInv(y) && !y.ch.bug && i < |y.h.submitted|
    ensures IsComplete(y.ch, y.h.submitted[i].cookie) <==> i < |Left(y)| && !y.h.submitted[i].cyclic
  {
    CookieReads(y, i);
  }

  /** Exactly when the driver can answer a status query: it reads the last active descriptor
      of a scatter-gather engine for every cookie in progress. In particular a completed
      cyclic transfer cannot be queried. */
  lemma QueryExact(y: System, i: nat)
    requires ChannelInv(y) && !y.ch.bug && i < |y.h.submitted|
    ensures QuerySafe(y.ch, y.h.submitted[i].cookie) <==>
            !y.ch.sg || y.ch.active != [] || (i < |Left(y)| && !y.h.submitted[i].cyclic)
  {
    CookieExact(y, i);
  }

  // ---- The assertion in append_desc_queue ---------------------------------------------------

  predicate Accepts(y: System, step: Step) {
    step.StepSubmit? && step.j < |y.prepared| && Accepting(y.ch, step.after)
  }

  lemma IrqKeepsBug(s: State, status: nat, ok: bool)
    ensures Irq(s, status, ok).bug == s.bug
  {
  }

  lemma OnlySubmitBugs(y: System, step: Step)
    requires !step.StepSubmit?
    ensures Next(y, step).ch.bug == y.ch.bug
  {
    if IsPrep(step) {
      var z := PrepStep(y, step);
    } else if step.StepTerminate? {
      TerminateLists(y.ch, step.ok);
    } else if step.StepIrq? {
      IrqKeepsBug(y.ch, step.status, step.ok);
    }
  }

  /** Exactly when the assertion fires: on the submission that makes 256 of the pending
      descriptors and those terminated before they were ever started. */
  lemma BugExactly(y: System, step: Step)
    requires ChannelInv(y) && !y.ch.bug
    ensures Next(y, step).ch.bug <==> Accepts(y, step) && |y.ch.pending| + y.h.stale == 255
  {
    if step.StepSubmit? {
      if step.j < |y.prepared| {
        var d := y.prepared[step.j].(callback := step.callback);
        if Submit(y.ch, d, step.after).outcome.Accepted? { AcceptedShape(y.ch, d, step.after); }
        else { RejectedShape(y.ch, d, step.after); }
      }
    } else {
      OnlySubmitBugs(y, step);
    }
  }

  /** Pigeonhole: a submitted descriptor still owns a segment, so at most 254 are pending. */
  lemma RoomForPrepared(y: System)
    requires Conserved(y) && y.prepared != []
    ensures |y.ch.pending| < COALESCE_MAX
  {
    AtMostPool(y);
  }

  /** No terminate in the run found a descriptor pending; in particular, there was none. */
  predicate NothingUncounted(y: System, steps: seq<Step>)
    decreases |steps|
  {
    steps == [] ||
    ((steps[0].StepTerminate? ==> y.ch.pending == []) && NothingUncounted(Next(y, steps[0]), steps[1..]))
  }

  lemma {:induction false} NoTerminateNothingUncounted(y: System, steps: seq<Step>)
    requires forall s :: s in steps ==> !s.StepTerminate?
    ensures NothingUncounted(y, steps)
    decreases |steps|
  {
    if steps != [] { NoTerminateNothingUncounted(Next(y, steps[0]), steps[1..]); }
  }

  lemma StaleNext(y: System, step: Step)
    requires y.h.stale == 0 && (step.StepTerminate? ==> y.ch.pending == [])
    ensures Next(y, step).h.stale == 0
  {
  }

  lemma {:induction false} NoBugFrom(y: System, steps: seq<Step>)
    requires ChannelInv(y) && !y.ch.bug && y.h.stale == 0 && NothingUncounted(y, steps)
    ensures !Run(y, steps).ch.bug
    ensures Run(y, steps).ch.count == |Run(y, steps).ch.pending|
    decreases |steps|
  {
    if steps != [] {
      BugExactly(y, steps[0]);
      if Accepts(y, steps[0]) { RoomForPrepared(y); }
      StaleNext(y, steps[0]);
      MemoryNext(y, steps[0]);
      QueueNext(y, steps[0]);
      NoBugFrom(Next(y, steps[0]), steps[1..]);
    }
  }

  /** The assertion is unreachable, and the count is the pending length, in every run whose
      terminates found nothing pending. */
  lemma NoBugWithoutStaleCounts(base: nat, sg: bool, ctrl: nat, regs: Regs, steps: seq<Step>)
    requires NothingUncounted(Boot(base, sg, ctrl, regs), steps)
    ensures !Run(Boot(base, sg, ctrl, regs), steps).ch.bug
    ensures Run(Boot(base, sg, ctrl, regs), steps).ch.count == |Run(Boot(base, sg, ctrl, regs), steps).ch.pending|
  {
    BootChannel(base, sg, ctrl, regs);
    NoBugFrom(Boot(base, sg, ctrl, regs), steps);
  }

  lemma NoBugWithoutTerminate(base: nat, sg: bool, ctrl: nat, regs: Regs, steps: seq<Step>)
    requires forall s :: s in steps ==> !s.StepTerminate?
    ensures !Run(Boot(base, sg, ctrl, regs), steps).ch.bug
    ensures Run(Boot(base, sg, ctrl, regs), steps).ch.count == |Run(Boot(base, sg, ctrl, regs), steps).ch.pending|
  {
    NoTerminateNothingUncounted(Boot(base, sg, ctrl, regs), steps);
    NoBugWithoutStaleCounts(base, sg, ctrl, regs, steps);
  }
}
