/** The three lists as one queue: order, callbacks, the pending count, cookies, cyclic
    transfers and the coalesce count. Everything here holds in every run; histories are
    counted from the last terminate. */
module Queues {
  import opened ChannelState
  import opened Memory
  import opened Registers
  import opened Runs

  /** done, active and pending, oldest first. */
  function Listed(s: State): seq<Desc> { s.done + s.active + s.pending }

  /** Left the active list: released, being released, or waiting for it. */
  function Left(y: System): seq<Desc> { y.h.freed + y.held + y.ch.done }

  /** One FIFO: what was submitted is what was released, then what is queued, in order. */
  ghost predicate Fifo(y: System) {
    && y.h.submitted == y.h.freed + y.held + Listed(y.ch)
    && |y.held| <= 1
    && (forall d :: d in y.h.freed || d in y.held ==> !d.cyclic)
  }

  /** The pending count is the pending list and what terminate forgot to uncount. */
  ghost predicate Counted(y: System) {
    && y.ch.count <= COALESCE_MAX
    && (if y.ch.bug then |y.ch.pending| + y.h.stale == 256 && y.ch.count == 255
        else y.ch.count == |y.ch.pending| + y.h.stale)
  }

  /** Cookies increase along the queue, and the completed one separates what has left the
      active list, but for a cyclic descriptor, from what has not. */
  ghost predicate Cookies(y: System) {
    && (forall i, j :: 0 <= i < j < |y.h.submitted| ==> y.h.submitted[i].cookie < y.h.submitted[j].cookie)
    && (forall d :: d in y.h.submitted ==> d.cookie <= y.ch.cookie)
    && y.ch.completed <= y.ch.cookie
    && (forall d :: d in Left(y) && !d.cyclic ==> d.cookie <= y.ch.completed)
    && (forall d :: d in y.ch.active || d in y.ch.pending ==> y.ch.completed < d.cookie)
    && (forall d :: d in y.ch.done && d.cyclic ==> y.ch.completed < d.cookie)
  }

  /** At most one cyclic descriptor is queued, last, and the channel is marked cyclic exactly
      then. */
  ghost predicate CyclicLast(s: State) {
    !s.bug ==>
      && (forall k :: 0 <= k < |Listed(s)| && Listed(s)[k].cyclic ==> k == |Listed(s)| - 1 && s.cyclic)
      && (s.cyclic ==> Listed(s) != [] && Last(Listed(s)).cyclic)
  }

  /** The hardware was asked to interrupt after the whole batch and the uncounted rest. */
  ghost predicate Coalesced(y: System) {
    && y.h.finished <= Given(y.ch)
    && (y.ch.active != [] ==> y.h.threshold == |y.ch.active| + y.h.lag)
  }

  ghost predicate QueueInv(y: System) {
    Fifo(y) && Counted(y) && Cookies(y) && CyclicLast(y.ch) && Coalesced(y)
  }

  // ---- Submit -----------------------------------------------------------------------------

  lemma AcceptedShape(s: State, d: Desc, after: nat)
    requires Submit(s, d, after).outcome.Accepted? && !s.bug
    ensures
      var t := Submit(s, d, after).state;
      && Submit(s, d, after).outcome.cookie == s.cookie + 1 == t.cookie
      && t.pending == s.pending + [d.(cookie := s.cookie + 1)]
      && t.active == s.active && t.done == s.done && t.completed == s.completed
      && t.bug == (s.count + 1 > COALESCE_MAX)
      && t.count == (if t.bug then COALESCE_MAX else s.count + 1)
      && !s.cyclic && (t.bug || t.cyclic == d.cyclic)
  {
  }

  lemma RejectedShape(s: State, d: Desc, after: nat)
    requires !Submit(s, d, after).outcome.Accepted?
    ensures SameQueues(s, Submit(s, d, after).state)
  {
  }

  lemma AcceptedCookies(y: System, z: System, d: Desc)
    requires Cookies(y) && Fifo(y)
    requires z.h.submitted == y.h.submitted + [d] && Left(z) == Left(y)
    requires z.ch.pending == y.ch.pending + [d] && z.ch.active == y.ch.active && z.ch.done == y.ch.done
    requires z.ch.completed == y.ch.completed && d.cookie == z.ch.cookie == y.ch.cookie + 1
    ensures Cookies(z)
  {
  }

  lemma AcceptedCyclic(s: State, t: State, d: Desc)
    requires CyclicLast(s) && !s.bug && !s.cyclic
    requires t.bug || (Listed(t) == Listed(s) + [d] && t.cyclic == d.cyclic)
    ensures CyclicLast(t)
  {
    if !t.bug {
      assert forall k :: 0 <= k < |Listed(s)| ==> !Listed(s)[k].cyclic;
    }
  }

  lemma AcceptedQueue(y: System, j: nat, callback: bool, after: nat)
    requires QueueInv(y) && j < |y.prepared| && !y.ch.bug
    requires Submit(y.ch, y.prepared[j].(callback := callback), after).outcome.Accepted?
    ensures QueueInv(NextSubmit(y, j, callback, after))
    ensures NextSubmit(y, j, callback, after).ch.completed == y.ch.completed
  {
    var z := NextSubmit(y, j, callback, after);
    var d := y.prepared[j].(callback := callback);
    var d' := d.(cookie := y.ch.cookie + 1);
    AcceptedShape(y.ch, d, after);
    assert SameCounts(y.h.(submitted := y.h.submitted + [d']), z.h) && z.held == y.held;
    assert Listed(z.ch) == Listed(y.ch) + [d'];
    assert Fifo(z);
    assert Counted(z);
    AcceptedCookies(y, z, d');
    AcceptedCyclic(y.ch, z.ch, d');
  }

  lemma SameQueuesInv(y: System, z: System)
    requires QueueInv(y) && SameQueues(y.ch, z.ch) && SameCounts(y.h, z.h) && z.held == y.held
    ensures QueueInv(z)
  {
    assert Listed(z.ch) == Listed(y.ch) && Left(z) == Left(y);
  }

  lemma SubmitQueue(y: System, j: nat, callback: bool, after: nat)
    requires QueueInv(y) && j < |y.prepared| && !y.ch.bug
    ensures QueueInv(NextSubmit(y, j, callback, after))
    ensures NextSubmit(y, j, callback, after).ch.completed == y.ch.completed
  {
    var d := y.prepared[j].(callback := callback);
    if Submit(y.ch, d, after).outcome.Accepted? {
      AcceptedQueue(y, j, callback, after);
    } else {
      RejectedShape(y.ch, d, after);
      SameQueuesInv(y, NextSubmit(y, j, callback, after));
    }
  }

  // ---- Start and interrupt ------------------------------------------------------------------

  lemma StartField(s: State)
    requires s.count <= COALESCE_MAX
    ensures Coalesce(StartControl(s)) == s.count
  {
    SetCoalesceExact(s.ctrl, s.count);
    RunstopExact(SetCoalesce(s.ctrl, s.count));
  }

  lemma StartShape(s: State, ok: bool)
    ensures
      var t := Start(s, ok);
      && t.done == s.done && t.cookie == s.cookie && t.completed == s.completed && t.cyclic == s.cyclic && t.bug == s.bug
      && (if CanStart(s) && ok then t.active == s.active + s.pending && t.pending == [] && t.count == 0
          else SameQueues(s, t))
  {
  }

  lemma StartedQueue(y: System, z: System)
    requires QueueInv(y) && !y.ch.bug && y.ch.active == []
    requires z.ch.done == y.ch.done && z.ch.active == y.ch.pending && z.ch.pending == [] && z.ch.count == 0
    requires z.ch.cookie == y.ch.cookie && z.ch.completed == y.ch.completed && z.ch.cyclic == y.ch.cyclic && !z.ch.bug
    requires Listed(z.ch) == Listed(y.ch) && z.held == y.held
    requires SameCounts(y.h.(stale := 0, lag := y.h.stale, threshold := y.ch.count, finished := 0), z.h)
    ensures QueueInv(z)
  {
    assert Left(z) == Left(y);
  }

  lemma StartQueue(y: System, ok: bool)
    requires QueueInv(y) && !y.ch.bug && (y.ch.idle ==> y.ch.active == [])
    ensures QueueInv(y.(ch := Start(y.ch, ok), h := StartHistory(y.h, y.ch, ok)))
    ensures Start(y.ch, ok).completed == y.ch.completed
  {
    StartShape(y.ch, ok);
    if CanStart(y.ch) && ok {
      StartField(y.ch);
      assert y.ch.done + y.ch.pending + [] == y.ch.done + [] + y.ch.pending;
      StartedQueue(y, y.(ch := Start(y.ch, ok), h := StartHistory(y.h, y.ch, ok)));
    } else {
      SameQueuesInv(y, y.(ch := Start(y.ch, ok), h := StartHistory(y.h, y.ch, ok)));
    }
  }

  /** In cookie order, completing reaches every finite descriptor's cookie and no further. */
  lemma {:induction false} CompletedByBounds(ds: seq<Desc>, completed: nat)
    requires forall i, j :: 0 <= i < j < |ds| ==> ds[i].cookie < ds[j].cookie
    requires forall d :: d in ds ==> completed < d.cookie
    ensures completed <= CompletedBy(ds, completed)
    ensures forall d :: d in ds && !d.cyclic ==> d.cookie <= CompletedBy(ds, completed)
    ensures CompletedBy(ds, completed) == completed ||
            exists d :: d in ds && !d.cyclic && d.cookie == CompletedBy(ds, completed)
    decreases |ds|
  {
    if ds != [] {
      var ds' := ds[..|ds| - 1];
      assert ds == ds' + [Last(ds)];
      if Last(ds).cyclic {
        CompletedByBounds(ds', completed);
      } else {
        assert Last(ds) in ds;
      }
    }
  }

  /** Slices of an increasing list increase, and earlier slices lie below later ones. */
  lemma CookieSlices(a: seq<Desc>, b: seq<Desc>, c: seq<Desc>)
    requires forall i, j :: 0 <= i < j < |a + b + c| ==> (a + b + c)[i].cookie < (a + b + c)[j].cookie
    ensures forall i, j :: 0 <= i < j < |b| ==> b[i].cookie < b[j].cookie
    ensures forall d, e :: d in b && e in c ==> d.cookie < e.cookie
  {
    var s := a + b + c;
    forall i, j | 0 <= i < j < |b| ensures b[i].cookie < b[j].cookie {
      assert s[|a| + i] == b[i] && s[|a| + j] == b[j];
    }
    forall d, e | d in b && e in c ensures d.cookie < e.cookie {
      var i :| 0 <= i < |b| && b[i] == d;
      var j :| 0 <= j < |c| && c[j] == e;
      assert s[|a| + i] == d && s[|a| + |b| + j] == e;
    }
  }

  lemma CompletedShape(s: State, status: nat)
    ensures
      var t := Completed(s, status);
      && t.done == s.done + s.active && t.active == [] && t.pending == s.pending
      && t.completed == CompletedBy(s.active, s.completed)
      && t.count == s.count && t.cookie == s.cookie && t.cyclic == s.cyclic && t.bug == s.bug
  {
  }

  lemma CompletedCookies(y: System, z: System)
    requires Fifo(y) && Cookies(y) && CyclicLast(y.ch) && !y.ch.bug
    requires z.h.submitted == y.h.submitted && Left(z) == Left(y) + y.ch.active && z.ch.done == y.ch.done + y.ch.active
    requires z.ch.active == [] && z.ch.pending == y.ch.pending && z.ch.cookie == y.ch.cookie
    requires z.ch.completed == CompletedBy(y.ch.active, y.ch.completed)
    ensures Cookies(z) && y.ch.completed <= z.ch.completed
  {
    var a := y.ch.active;
    assert y.h.submitted == Left(y) + a + y.ch.pending;
    CookieSlices(Left(y), a, y.ch.pending);
    CompletedByBounds(a, y.ch.completed);
    assert forall d :: d in a ==> d in y.h.submitted;
    forall e | e in z.ch.done && e.cyclic ensures z.ch.completed < e.cookie {
      CyclicIsYoungest(y, e);
    }
  }

  /** A cyclic descriptor is younger than everything else that is queued or completed. */
  lemma CyclicIsYoungest(y: System, e: Desc)
    requires Fifo(y) && Cookies(y) && CyclicLast(y.ch) && !y.ch.bug
    requires e in Listed(y.ch) && e.cyclic
    ensures y.ch.completed < e.cookie
    ensures forall d :: d in y.ch.active && !d.cyclic ==> d.cookie < e.cookie
  {
    var k :| 0 <= k < |Listed(y.ch)| && Listed(y.ch)[k] == e;
    var n := |y.h.freed + y.held|;
    forall d | d in y.ch.active && !d.cyclic ensures d.cookie < e.cookie {
      var i :| 0 <= i < |y.ch.active| && y.ch.active[i] == d;
      assert Listed(y.ch)[|y.ch.done| + i] == d;
      assert y.h.submitted[n + |y.ch.done| + i] == d && y.h.submitted[n + k] == e;
    }
  }

  lemma CompletedQueue(y: System, status: nat)
    requires QueueInv(y) && !y.ch.bug
    ensures QueueInv(y.(ch := Completed(y.ch, status), h := y.h.(finished := 0)))
    ensures y.ch.completed <= Completed(y.ch, status).completed
  {
    var z := y.(ch := Completed(y.ch, status), h := y.h.(finished := 0));
    CompletedShape(y.ch, status);
    assert Listed(z.ch) == Listed(y.ch);
    assert Left(z) == Left(y) + y.ch.active;
    CompletedCookies(y, z);
  }

  lemma IrqQueue(y: System, status: nat, ok: bool)
    requires QueueInv(y) && !y.ch.bug
    ensures QueueInv(NextIrq(y, status, ok))
    ensures y.ch.completed <= NextIrq(y, status, ok).ch.completed
  {
    if HasIoc(status) {
      CompletedQueue(y, status);
      var z := y.(ch := Completed(y.ch, status), h := y.h.(finished := 0));
      StartQueue(z, ok);
      var w := z.(ch := Start(z.ch, ok), h := StartHistory(z.h, z.ch, ok));
      var v := NextIrq(y, status, ok);
      assert v.ch == w.ch && v.held == w.held;
      assert SameCounts(w.h, v.h);
      SameQueuesInv(w, v);
    }
  }

  // ---- Cleanup and terminate ------------------------------------------------------------------

  lemma TakeCyclic(s: State)
    requires CyclicLast(s) && CanTake(s)
    ensures CyclicLast(Take(s))
  {
    var t := Take(s);
    assert Listed(s) == [s.done[0]] + Listed(t);
    forall k | 0 <= k < |Listed(t)| && Listed(t)[k].cyclic && !s.bug
      ensures k == |Listed(t)| - 1 && t.cyclic
    {
      assert Listed(s)[k + 1] == Listed(t)[k];
    }
  }

  lemma TakeFifo(y: System)
    requires Fifo(y) && y.held == [] && CanTake(y.ch)
    ensures Fifo(NextTake(y)) && Left(NextTake(y)) == Left(y)
  {
    var z, d := NextTake(y), y.ch.done[0];
    assert y.ch.done == [d] + z.ch.done;
    assert y.h.freed + y.held == y.h.freed;
    assert z.h.freed + z.held == y.h.freed + [d];
  }

  lemma TakeQueue(y: System)
    requires QueueInv(y) && y.held == [] && CanTake(y.ch)
    ensures QueueInv(NextTake(y))
  {
    TakeFifo(y);
    TakeCyclic(y.ch);
    assert NextTake(y).h.submitted == y.h.submitted;
  }

  lemma RingQueue(y: System)
    requires QueueInv(y) && CanRing(y.ch)
    ensures QueueInv(NextRing(y))
  {
    SameQueuesInv(y, NextRing(y));
  }

  lemma FreeQueue(y: System)
    requires QueueInv(y)
    ensures QueueInv(NextFree(y))
  {
    var z := NextFree(y);
    assert z.h.freed + z.held == y.h.freed + y.held;
    assert Left(z) == Left(y);
  }

  lemma TerminateLists(s: State, ok: bool)
    ensures
      var t := Terminate(s, ok);
      && t.pending == [] && t.active == [] && t.done == [] && t.bug == s.bug && !t.cyclic && t.sg == s.sg
      && t.count == s.count && t.cookie == s.cookie && t.completed == s.completed
  {
  }

  lemma TerminatedQueue(y: System, z: System)
    requires QueueInv(y) && !y.ch.bug && z.held == y.held
    requires z.ch.pending == [] && z.ch.active == [] && z.ch.done == [] && !z.ch.bug && !z.ch.cyclic
    requires z.ch.count == y.ch.count && z.ch.cookie == y.ch.cookie && z.ch.completed == y.ch.completed
    requires SameCounts(y.h.(submitted := y.held, freed := [], stale := y.h.stale + |y.ch.pending|, finished := 0), z.h)
    ensures QueueInv(z)
  {
    assert z.h.freed + z.held == y.held && Left(z) == y.held;
    assert z.h.freed + z.held + Listed(z.ch) == y.held;
    assert forall d :: d in y.held ==> d in Left(y) && d in y.h.submitted;
  }

  lemma TerminateQueue(y: System, ok: bool)
    requires QueueInv(y) && !y.ch.bug
    ensures QueueInv(NextTerminate(y, ok))
    ensures NextTerminate(y, ok).ch.completed == y.ch.completed
  {
    TerminateLists(y.ch, ok);
    TerminatedQueue(y, NextTerminate(y, ok));
  }

  // ---- Every step, every run --------------------------------------------------------------------

  /** What the queue invariant depends on: of the channel, and of the history. */
  ghost predicate SameQueues(s: State, t: State) {
    && t.pending == s.pending && t.active == s.active && t.done == s.done
    && t.count == s.count && t.cookie == s.cookie && t.completed == s.completed
    && t.cyclic == s.cyclic && t.bug == s.bug && t.sg == s.sg
  }

  ghost predicate SameCounts(g: History, h: History) {
    && h.submitted == g.submitted && h.freed == g.freed && h.stale == g.stale
    && h.lag == g.lag && h.threshold == g.threshold && h.finished == g.finished
  }

  lemma ClientQueue(y: System, step: Step)
    requires QueueInv(y) && (y.ch.idle ==> y.ch.active == []) && !y.ch.bug && ClientSide(step)
    ensures QueueInv(Next(y, step)) && y.ch.completed <= Next(y, step).ch.completed
  {
    match step
    case StepPrepSg(_, _, _) => PrepQueue(y, step);
    case StepPrepCyclic(_, _, _, _) => PrepQueue(y, step);
    case StepSubmit(j, callback, after) => if j < |y.prepared| { SubmitQueue(y, j, callback, after); }
    case StepIssue(ok) => StartQueue(y, ok);
    case StepTerminate(ok) => TerminateQueue(y, ok);
  }

  lemma EngineQueue(y: System, step: Step)
    requires QueueInv(y) && !y.ch.bug && !ClientSide(step)
    ensures QueueInv(Next(y, step)) && y.ch.completed <= Next(y, step).ch.completed
  {
    match step
    case StepIrq(status, ok) => IrqQueue(y, status, ok);
    case StepTake => if AtLoopHead(y) && CanTake(y.ch) { TakeQueue(y); }
    case StepFree => FreeQueue(y);
    case StepCall => if y.due != [] { SameQueuesInv(y, NextCall(y)); }
    case StepRing => if AtLoopHead(y) && CanRing(y.ch) { RingQueue(y); }
    case StepRung =>
    case StepHwWrite(seg, status, words) => HwWriteQueue(y, seg, status, words);
    case StepHwFinish => HwFinishQueue(y);
  }

  /** Every step keeps the queue invariant, and the completed cookie never goes back. */
  lemma QueueNext(y: System, step: Step)
    requires QueueInv(y) && (y.ch.idle ==> y.ch.active == [])
    ensures QueueInv(Next(y, step))
    ensures y.ch.completed <= Next(y, step).ch.completed
  {
    if !y.ch.bug {
      if ClientSide(step) { ClientQueue(y, step); } else { EngineQueue(y, step); }
    }
  }

  lemma PrepQueue(y: System, step: Step)
    requires QueueInv(y) && IsPrep(step)
    ensures QueueInv(Next(y, step)) && Next(y, step).ch.completed == y.ch.completed
  {
    var z := PrepStep(y, step);
    SameQueuesInv(y, z);
  }

  lemma HwWriteQueue(y: System, seg: SegId, status: nat, words: App)
    requires QueueInv(y)
    ensures QueueInv(NextHwWrite(y, seg, status, words))
    ensures NextHwWrite(y, seg, status, words).ch.completed == y.ch.completed
  {
    SameQueuesInv(y, NextHwWrite(y, seg, status, words));
  }

  lemma HwFinishQueue(y: System)
    requires QueueInv(y)
    ensures QueueInv(Next(y, StepHwFinish)) && Next(y, StepHwFinish).ch == y.ch
  {
    var z := Next(y, StepHwFinish);
    assert Left(z) == Left(y);
  }

  ghost predicate ChannelInv(y: System) {
    MemoryInv(y) && QueueInv(y)
  }

  lemma BootChannel(base: nat, sg: bool, ctrl: nat, regs: Regs)
    ensures ChannelInv(Boot(base, sg, ctrl, regs))
  {
    BootMemory(base, sg, ctrl, regs);
    BootQueue(base, sg, ctrl, regs);
  }

  lemma BootQueue(base: nat, sg: bool, ctrl: nat, regs: Regs)
    ensures QueueInv(Boot(base, sg, ctrl, regs))
  {
  }

  lemma {:induction false} ChannelInEveryRun(y: System, steps: seq<Step>)
    requires ChannelInv(y)
    ensures ChannelInv(Run(y, steps))
    ensures y.ch.completed <= Run(y, steps).ch.completed
    decreases |steps|
  {
    if steps != [] {
      MemoryNext(y, steps[0]);
      QueueNext(y, steps[0]);
      ChannelInEveryRun(Next(y, steps[0]), steps[1..]);
    }
  }
}
