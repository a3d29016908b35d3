/** What a cookie reads as, over whole runs: completion only ever moves on to what an interrupt has
    completed, and takes every older cookie with it, terminated ones included. */
module Sequel {
  import opened ChannelState
  import opened Hazards
  import opened Memory
  import opened Queues
  import opened Runs
  import opened Sketches

  /** The completed cookie is that of the last finite descriptor ever completed; what has been
      completed came in cookie order, before all that still waits. */
  ghost predicate EndedInv(y: System) {
    && y.ch.completed == CompletedBy(y.h.ended, 1)
    && (forall i, j :: 0 <= i < j < |y.h.ended| ==> y.h.ended[i].cookie < y.h.ended[j].cookie)
    && (forall d :: d in y.h.ended ==> 1 < d.cookie <= y.ch.cookie)
    && (forall d, e :: d in y.h.ended && (e in y.ch.active || e in y.ch.pending) ==> d.cookie < e.cookie)
    && (forall e :: e in y.ch.active || e in y.ch.pending ==> 1 < e.cookie)
    && 1 <= y.ch.cookie
  }

  lemma {:induction false} CompletedByConcat(a: seq<Desc>, b: seq<Desc>, completed: nat)
    ensures CompletedBy(a + b, completed) == CompletedBy(b, CompletedBy(a, completed))
    decreases |b|
  {
    if b == [] {
      assert a + b == a;
    } else {
      var b' := b[..|b| - 1];
      assert Last(a + b) == Last(b) && (a + b)[..|a + b| - 1] == a + b';
      CompletedByConcat(a, b', completed);
    }
  }

  /** Steps that complete nothing and only lengthen the queue at its young end. */
  lemma SameEnded(y: System, z: System)
    requires EndedInv(y) && z.h.ended == y.h.ended && z.ch.completed == y.ch.completed
    requires y.ch.cookie <= z.ch.cookie
    requires forall e :: e in z.ch.active || e in z.ch.pending ==>
      e in y.ch.active || e in y.ch.pending || y.ch.cookie < e.cookie
    ensures EndedInv(z)
  {
  }

  lemma SubmitEnded(y: System, j: nat, callback: bool, after: nat)
    requires EndedInv(y) && !y.ch.bug && j < |y.prepared|
    ensures EndedInv(NextSubmit(y, j, callback, after))
  {
    var d := y.prepared[j].(callback := callback);
    if Submit(y.ch, d, after).outcome.Accepted? { AcceptedShape(y.ch, d, after); }
    else { RejectedShape(y.ch, d, after); }
    SameEnded(y, NextSubmit(y, j, callback, after));
  }

  lemma StartEnded(y: System, z: System, ok: bool)
    requires EndedInv(y) && z.ch == Start(y.ch, ok) && z.h.ended == y.h.ended
    ensures EndedInv(z)
  {
    StartShape(y.ch, ok);
    SameEnded(y, z);
  }

  lemma CompletedEnded(y: System, z: System, status: nat)
    requires EndedInv(y) && Fifo(y) && Cookies(y)
    requires z.ch == Completed(y.ch, status) && z.h.ended == y.h.ended + y.ch.active
    ensures EndedInv(z)
  {
    var a := y.ch.active;
    CompletedShape(y.ch, status);
    CompletedByConcat(y.h.ended, a, 1);
    ActiveInOrder(y);
  }

  lemma ActiveInOrder(y: System)
    requires Fifo(y) && Cookies(y)
    ensures forall i, j :: 0 <= i < j < |y.ch.active| ==> y.ch.active[i].cookie < y.ch.active[j].cookie
    ensures forall d, e :: d in y.ch.active && e in y.ch.pending ==> d.cookie < e.cookie
    ensures forall d :: d in y.ch.active ==> d.cookie <= y.ch.cookie
  {
    var front := y.h.freed + y.held + y.ch.done;
    assert y.h.submitted == front + y.ch.active + y.ch.pending;
    CookieSlices(front, y.ch.active, y.ch.pending);
    assert forall d :: d in y.ch.active ==> d in y.h.submitted;
  }

  lemma IrqEnded(y: System, status: nat, ok: bool)
    requires EndedInv(y) && Fifo(y) && Cookies(y)
    ensures EndedInv(NextIrq(y, status, ok))
  {
    var w := NextIrq(y, status, ok);
    if HasIoc(status) {
      var z := y.(ch := Completed(y.ch, status), h := y.h.(ended := y.h.ended + y.ch.active));
      CompletedEnded(y, z, status);
      StartEnded(z, w, ok);
    } else {
      SameEnded(y, w);
    }
  }

  lemma TerminateEnded(y: System, ok: bool)
    requires EndedInv(y)
    ensures EndedInv(NextTerminate(y, ok))
  {
    TerminateLists(y.ch, ok);
    SameEnded(y, NextTerminate(y, ok));
  }

  lemma PrepEnded(y: System, step: Step)
    requires EndedInv(y) && IsPrep(step)
    ensures EndedInv(Next(y, step))
  {
    var z := PrepStep(y, step);
    SameEnded(y, z);
  }

  /** The tasklet and the hardware only take from the head of the done list. */
  lemma EngineStep(y: System, step: Step) returns (z: System)
    requires !ClientSide(step) && !step.StepIrq?
    ensures z == Next(y, step) && z.ch.active == y.ch.active && z.ch.pending == y.ch.pending
    ensures z.ch.cookie == y.ch.cookie && z.ch.completed == y.ch.completed && z.h.ended == y.h.ended
    ensures forall d :: d in z.ch.done ==> d in y.ch.done
  {
    z := Next(y, step);
  }

  lemma EndedNext(y: System, step: Step)
    requires EndedInv(y) && QueueInv(y)
    ensures EndedInv(Next(y, step))
  {
    if !y.ch.bug {
      if IsPrep(step) {
        PrepEnded(y, step);
      } else if step.StepSubmit? {
        if step.j < |y.prepared| { SubmitEnded(y, step.j, step.callback, step.after); }
      } else if step.StepIssue? {
        StartEnded(y, Next(y, step), step.ok);
      } else if step.StepIrq? {
        IrqEnded(y, step.status, step.ok);
      } else if step.StepTerminate? {
        TerminateEnded(y, step.ok);
      } else {
        var z := EngineStep(y, step);
        SameEnded(y, z);
      }
    }
  }

  lemma {:induction false} EndedInEveryRun(y: System, steps: seq<Step>)
    requires ChannelInv(y) && EndedInv(y)
    ensures ChannelInv(Run(y, steps)) && EndedInv(Run(y, steps))
    decreases |steps|
  {
    if steps != [] {
      EndedNext(y, steps[0]);
      MemoryNext(y, steps[0]);
      QueueNext(y, steps[0]);
      EndedInEveryRun(Next(y, steps[0]), steps[1..]);
    }
  }

  lemma {:induction false} CompletedByReaches(ds: seq<Desc>, completed: nat, c: nat)
    requires completed < c
    requires forall i, j :: 0 <= i < j < |ds| ==> ds[i].cookie < ds[j].cookie
    ensures c <= CompletedBy(ds, completed) <==> exists e :: e in ds && !e.cyclic && c <= e.cookie
    decreases |ds|
  {
    if ds != [] {
      var ds' := ds[..|ds| - 1];
      assert ds == ds' + [Last(ds)];
      if Last(ds).cyclic {
        CompletedByReaches(ds', completed, c);
      } else {
        assert Last(ds) in ds;
      }
    }
  }

  /** Some finite descriptor as young as the cookie has been completed by an interrupt. */
  ghost predicate Overtaken(y: System, c: nat) {
    exists e :: e in y.h.ended && !e.cyclic && c <= e.cookie
  }

  /** In every run, terminates included: a cookie reads as complete exactly when some finite
      descriptor as young has been completed by an interrupt, be it its own or not, or it is not
      one that has been given out; so a status query for it is safe exactly then, without
      scatter-gather, or with something active. */
  lemma QueryAnyCookie(base: nat, sg: bool, ctrl: nat, regs: Regs, steps: seq<Step>, c: nat)
    ensures
      var z := Run(Boot(base, sg, ctrl, regs), steps);
      var complete := c <= 1 || z.ch.cookie < c || Overtaken(z, c);
      && (IsComplete(z.ch, c) <==> complete)
      && (QuerySafe(z.ch, c) <==> !z.ch.sg || z.ch.active != [] || complete)
  {
    var y := Boot(base, sg, ctrl, regs);
    BootChannel(base, sg, ctrl, regs);
    EndedInEveryRun(y, steps);
    CompletedAtLeast(Run(y, steps).h.ended);
    if c > 1 { CompletedByReaches(Run(y, steps).h.ended, 1, c); }
  }

  lemma {:induction false} CompletedAtLeast(ds: seq<Desc>)
    requires forall d :: d in ds ==> 1 < d.cookie
    ensures CompletedBy(ds, 1) >= 1
    decreases |ds|
  {
    if ds != [] && Last(ds).cyclic { CompletedAtLeast(ds[..|ds| - 1]); }
  }

  // ---- Terminated cookies -----------------------------------------------------------------------

  /** The cookie belongs to nothing that has been completed, and all that is listed is younger. */
  ghost predicate Abandoned(y: System, c: nat) {
    && c <= y.ch.cookie
    && (forall d :: d in y.h.ended ==> d.cookie != c)
    && (forall d :: d in Listed(y.ch) ==> c < d.cookie)
  }

  lemma AbandonedSame(y: System, z: System, c: nat)
    requires Abandoned(y, c) && y.ch.cookie <= z.ch.cookie
    requires forall d :: d in z.h.ended ==> d in y.h.ended || d in y.ch.active
    requires forall d :: d in Listed(z.ch) ==> d in Listed(y.ch) || y.ch.cookie < d.cookie
    ensures Abandoned(z, c)
  {
  }

  lemma AbandonedSubmit(y: System, j: nat, callback: bool, after: nat, c: nat)
    requires Abandoned(y, c) && !y.ch.bug && j < |y.prepared|
    ensures Abandoned(NextSubmit(y, j, callback, after), c)
  {
    var d := y.prepared[j].(callback := callback);
    if Submit(y.ch, d, after).outcome.Accepted? { AcceptedShape(y.ch, d, after); }
    else { RejectedShape(y.ch, d, after); }
    AbandonedSame(y, NextSubmit(y, j, callback, after), c);
  }

  lemma AbandonedIrq(y: System, status: nat, ok: bool, c: nat)
    requires Abandoned(y, c)
    ensures Abandoned(NextIrq(y, status, ok), c)
  {
    if HasIoc(status) {
      CompletedShape(y.ch, status);
      StartShape(Completed(y.ch, status), ok);
    }
    AbandonedSame(y, NextIrq(y, status, ok), c);
  }

  lemma AbandonedStart(y: System, ok: bool, c: nat)
    requires Abandoned(y, c)
    ensures Abandoned(Next(y, StepIssue(ok)), c)
  {
    StartShape(y.ch, ok);
    AbandonedSame(y, Next(y, StepIssue(ok)), c);
  }

  lemma AbandonedPrep(y: System, step: Step, c: nat)
    requires Abandoned(y, c) && IsPrep(step)
    ensures Abandoned(Next(y, step), c)
  {
    var z := PrepStep(y, step);
    AbandonedSame(y, z, c);
  }

  lemma AbandonedTerminate(y: System, ok: bool, c: nat)
    requires Abandoned(y, c)
    ensures Abandoned(NextTerminate(y, ok), c)
  {
    TerminateLists(y.ch, ok);
    AbandonedSame(y, NextTerminate(y, ok), c);
  }

  lemma AbandonedNext(y: System, step: Step, c: nat)
    requires Abandoned(y, c)
    ensures Abandoned(Next(y, step), c)
  {
    if !y.ch.bug {
      if IsPrep(step) {
        AbandonedPrep(y, step, c);
      } else if step.StepSubmit? {
        if step.j < |y.prepared| { AbandonedSubmit(y, step.j, step.callback, step.after, c); }
      } else if step.StepIssue? {
        AbandonedStart(y, step.ok, c);
      } else if step.StepIrq? {
        AbandonedIrq(y, step.status, step.ok, c);
      } else if step.StepTerminate? {
        AbandonedTerminate(y, step.ok, c);
      } else {
        var z := EngineStep(y, step);
        AbandonedSame(y, z, c);
      }
    }
  }

  lemma {:induction false} AbandonedForGood(y: System, steps: seq<Step>, c: nat)
    requires Abandoned(y, c)
    ensures Abandoned(Run(y, steps), c)
    decreases |steps|
  {
    if steps != [] {
      AbandonedNext(y, steps[0], c);
      AbandonedForGood(Next(y, steps[0]), steps[1..], c);
    }
  }

  lemma TerminateAbandons(y: System, ok: bool, d: Desc)
    requires Fifo(y) && Cookies(y) && EndedInv(y) && !y.ch.bug && (d in y.ch.active || d in y.ch.pending)
    ensures Abandoned(Next(y, StepTerminate(ok)), d.cookie)
  {
    assert d in y.h.submitted;
    var z := Emptied(y, ok);
  }

  lemma Emptied(y: System, ok: bool) returns (z: System)
    requires !y.ch.bug
    ensures z == Next(y, StepTerminate(ok)) && Listed(z.ch) == []
    ensures z.ch.cookie == y.ch.cookie && z.h.ended == y.h.ended
  {
    TerminateLists(y.ch, ok);
    z := NextTerminate(y, ok);
  }

  lemma ReadsComplete(z: System, c: nat)
    requires EndedInv(z) && Abandoned(z, c) && 1 < c
    ensures IsComplete(z.ch, c) <==> exists e :: e in z.h.ended && !e.cyclic && c < e.cookie
  {
    CompletedByReaches(z.h.ended, 1, c);
  }

  /** A descriptor terminated before it had completed: whatever follows, further terminates
      included, its cookie reads as complete exactly when some finite descriptor submitted after
      it has been completed by an interrupt, although its own transfer never was. */
  lemma TerminatedReadsComplete(base: nat, sg: bool, ctrl: nat, regs: Regs, before: seq<Step>, ok: bool,
                                after: seq<Step>, d: Desc)
    requires
      var y := Run(Boot(base, sg, ctrl, regs), before);
      !y.ch.bug && (d in y.ch.active || d in y.ch.pending)
    ensures
      var z := Run(Next(Run(Boot(base, sg, ctrl, regs), before), StepTerminate(ok)), after);
      && d !in z.h.ended
      && (IsComplete(z.ch, d.cookie) <==> exists e :: e in z.h.ended && !e.cyclic && d.cookie < e.cookie)
  {
    var o := Boot(base, sg, ctrl, regs);
    var y := Run(o, before);
    BootChannel(base, sg, ctrl, regs);
    EndedInEveryRun(o, before);
    TerminateAbandons(y, ok, d);
    AbandonedForGood(Next(y, StepTerminate(ok)), after, d.cookie);
    EndedNext(y, StepTerminate(ok));
    MemoryNext(y, StepTerminate(ok));
    QueueNext(y, StepTerminate(ok));
    EndedInEveryRun(Next(y, StepTerminate(ok)), after);
    ReadsComplete(Run(Next(y, StepTerminate(ok)), after), d.cookie);
  }

  // ---- A run that shows it ----------------------------------------------------------------------

  /** A second transfer, once the first has been terminated. */
  function Second(): Program {
    Then(OpPrep, Then(OpSubmit(0), Then(OpIssue, Then(OpIrq, Stop))))
  }

  lemma SecondCompletes(k: Sketch)
    requires k == Fresh().(free := AllSegs()[1..] + [0], submits := 1)
    ensures
      var z := k.(done := [B], free := AllSegs()[2..] + [0], submits := 2);
      Leads(k, Second(), z)
  {
    var free := AllSegs()[2..] + [0];
    assert k.free[0] == 1 && k.free[1..] == free;
    var k1 := k.(prepared := [B], free := free);
    var k2 := k.(pending := [B], free := free, submits := 2);
    var k3 := k.(active := [B], free := free, idle := false, submits := 2);
    var k4 := k.(done := [B], free := free, submits := 2);
    assert Do(k, OpPrep) == k1 && Do(k1, OpSubmit(0)) == k2 && Do(k2, OpIssue) == k3 && Do(k3, OpIrq) == k4;
    assert Leads(k2, Then(OpIssue, Then(OpIrq, Stop)), k4);
  }

  lemma FirstSubmitted()
    ensures Leads(Fresh(), Then(OpPrep, Then(OpSubmit(0), Stop)),
                  Fresh().(pending := [A], free := AllSegs()[1..], submits := 1))
    ensures Do(Fresh().(pending := [A], free := AllSegs()[1..], submits := 1), OpTerminate)
            == Fresh().(free := AllSegs()[1..] + [0], submits := 1)
  {
    TwoPrepared();
    var k1 := Fresh().(prepared := [A], free := AllSegs()[1..]);
    var k2 := Fresh().(pending := [A], free := AllSegs()[1..], submits := 1);
    assert Do(k1, OpSubmit(0)) == k2;
    assert Leads(k1, Then(OpSubmit(0), Stop), k2);
    assert Ids([A]) == [0] + Ids([]) && [A] + [] + [] == [A];
  }

  lemma DoneReadsComplete(z: System, c: nat)
    requires Fifo(z) && Cookies(z) && Abandoned(z, c) && z.ch.done != [] && !z.ch.done[0].cyclic
    ensures IsComplete(z.ch, c)
  {
    assert z.ch.done[0] in Left(z) && z.ch.done[0] in Listed(z.ch);
  }

  /** Preparing and submitting complete nothing. */
  lemma NothingEnded(y: System)
    requires !y.ch.bug && y.ch.free != [] && y.h.ended == []
    ensures Run(y, AllSteps(Then(OpPrep, Then(OpSubmit(0), Stop)))).h.ended == []
  {
    assert AllSteps(Then(OpPrep, Then(OpSubmit(0), Stop))) == [PREP_ONE] + ([SubmitNth(0)] + []);
    RunStep(y, PREP_ONE, [SubmitNth(0)]);
    RunOne(Next(y, PREP_ONE), SubmitNth(0));
    PrepOne(y);
  }

  /** One transfer submitted and terminated, a second one completed: the first one's cookie reads
      as complete, though not a byte of it was ever given to the engine. */
  lemma TerminatedCookieLies(base: nat, ctrl: nat, regs: Regs)
    ensures
      var y := Run(Boot(base, true, ctrl, regs), AllSteps(Then(OpPrep, Then(OpSubmit(0), Stop))));
      var z := Run(Next(y, StepTerminate(true)), AllSteps(Second()));
      |y.ch.pending| == 1 && !IsComplete(y.ch, y.ch.cookie) && IsComplete(z.ch, y.ch.cookie)
  {
    var o := Boot(base, true, ctrl, regs);
    var p := Then(OpPrep, Then(OpSubmit(0), Stop));
    var k := Fresh().(pending := [A], free := AllSegs()[1..], submits := 1);
    FirstSubmitted();
    BootMatches(base, ctrl, regs);
    MatchProgram(o, Fresh(), p, k);
    BootChannel(base, true, ctrl, regs);
    ChannelInEveryRun(o, AllSteps(p));
    NothingEnded(o);
    TerminatedThenSecond(Run(o, AllSteps(p)), k);
  }

  lemma TerminatedThenSecond(y: System, k: Sketch)
    requires ChannelInv(y) && Matches(y, k) && k == Fresh().(pending := [A], free := AllSegs()[1..], submits := 1)
    requires y.h.ended == []
    ensures !IsComplete(y.ch, y.ch.cookie)
    ensures IsComplete(Run(Next(y, StepTerminate(true)), AllSteps(Second())).ch, y.ch.cookie)
  {
    var d := y.ch.pending[0];
    assert d in y.h.submitted;
    var w := Next(y, StepTerminate(true));
    FirstSubmitted();
    MatchTerminate(y, k);
    SecondCompletes(SketchTerminate(k));
    MatchProgram(w, SketchTerminate(k), Second(),
                 SketchTerminate(k).(done := [B], free := AllSegs()[2..] + [0], submits := 2));
    LastCookieAbandoned(y);
    MemoryNext(y, StepTerminate(true));
    QueueNext(y, StepTerminate(true));
    AbandonedForGood(w, AllSteps(Second()), y.ch.cookie);
    ChannelInEveryRun(w, AllSteps(Second()));
    DoneReadsComplete(Run(w, AllSteps(Second())), y.ch.cookie);
  }

  lemma LastCookieAbandoned(y: System)
    requires ChannelInv(y) && !y.ch.bug && y.h.ended == []
    ensures Abandoned(Next(y, StepTerminate(true)), y.ch.cookie)
  {
    TerminateLists(y.ch, true);
  }
}
