/** What the proxy's user can be shown: runs in which a sound transfer is reported as an error,
    an old success is shown for a transfer that never started, and the driver follows a list
    head as if it were a descriptor. */
module ProxyHazards {
  import opened Bits
  import opened Callbacks
  import opened ChannelState
  import opened Decisions
  import opened Hazards
  import opened Pool
  import opened Proxy
  import opened Requests
  import opened Queues
  import opened Registers
  import opened Runs
  import opened Sketches

  const PREPARE := Prepare(0, 1, false)

  /** One request, up to the wait. */
  function Request(): seq<Move> { [PREPARE, Arm, SubmitOwn(0), IssueOwn(true)] }

  /** How many descriptors are where. */
  datatype Tally = Tally(submitted: nat, freed: nat, held: nat, due: nat, done: nat, active: nat, pending: nat)

  function TallyOf(y: System): Tally {
    Tally(|y.h.submitted|, |y.h.freed|, |y.held|, |y.due|, |y.ch.done|, |y.ch.active|, |y.ch.pending|)
  }

  /** An error-free, non-cyclic channel whose descriptors all ask for callbacks. */
  ghost predicate Light(y: System) {
    && !y.ch.err && !y.ch.cyclic && !y.ch.bug && y.prepared == [] && y.ringing == [] && y.ch.count <= |y.ch.pending|
    && (y.ch.idle <==> y.ch.active == [])
    && (forall d :: d in y.ch.done || d in y.ch.active || d in y.ch.pending ==> d.callback && !d.cyclic)
  }

  lemma PrepareOne(z: Pair)
    requires !z.y.ch.bug && z.y.prepared == [] && z.p.phase.Ready? && z.y.ch.free != []
    ensures
      var w := NextPair(z, PREPARE);
      w.y == Next(z.y, PREP_ONE) && w.p == z.p.(phase := Prepped) && w.y.prepared == [OneDesc(z.y.ch)]
  {
    PrepOne(z.y);
    assert PrepareStep(0, 1, false) == PREP_ONE;
  }

  lemma SubmitOne(y: System)
    requires !y.ch.bug && !y.ch.err && !y.ch.cyclic && |y.prepared| == 1 && !y.prepared[0].cyclic
    requires y.ch.count < COALESCE_MAX
    ensures
      var x := Next(y, StepSubmit(0, true, 0));
      var d := y.prepared[0].(callback := true, cookie := y.ch.cookie + 1);
      && Submit(y.ch, y.prepared[0].(callback := true), 0).outcome == Accepted(y.ch.cookie + 1)
      && x.prepared == [] && x.held == y.held && x.ringing == y.ringing && x.due == y.due
      && x.ch.pending == y.ch.pending + [d]
      && x.ch.active == y.ch.active && x.ch.done == y.ch.done && x.ch.free == y.ch.free
      && x.ch.idle == y.ch.idle && !x.ch.err && !x.ch.cyclic && !x.ch.bug && x.ch.count == y.ch.count + 1
      && x.h.submitted == y.h.submitted + [d] && x.h.freed == y.h.freed && x.ch.sg == y.ch.sg
  {
  }

  lemma IssueOne(y: System)
    requires Light(y) && y.ch.pending != []
    ensures
      var x := Next(y, StepIssue(true));
      && Light(x) && x.ch.free == y.ch.free && x.h.submitted == y.h.submitted
      && TallyOf(x) == if y.ch.idle then TallyOf(y).(active := |y.ch.pending|, pending := 0) else TallyOf(y)
  {
  }

  lemma SubmitsOne(y: System)
    requires Light(y) && y.ch.free != [] && y.ch.pending == []
    ensures
      var x := Next(Next(y, PREP_ONE), StepSubmit(0, true, 0));
      && Light(x) && x.ch.free == y.ch.free[1..] && x.ch.idle == y.ch.idle && x.ch.sg == y.ch.sg
      && TallyOf(x) == TallyOf(y).(submitted := |y.h.submitted| + 1, pending := 1)
      && Submit(Next(y, PREP_ONE).ch, Next(y, PREP_ONE).prepared[0].(callback := true), 0).outcome.Accepted?
  {
    PrepOne(y);
    SubmitOne(Next(y, PREP_ONE));
  }

  lemma SubmittedOne(z: Pair)
    requires Light(z.y) && z.p.phase.Ready? && z.y.ch.free != [] && z.y.ch.pending == []
    ensures
      var w := RunPair(z, [PREPARE, Arm, SubmitOwn(0)]);
      && Light(w.y) && w.p.phase.Lodged? && w.p.cmp == 0 && w.p.cookie >= 0 && w.y.ch.pending != []
      && w.y.ch.free == z.y.ch.free[1..] && w.y.ch.idle == z.y.ch.idle && w.y.ch.sg == z.y.ch.sg
      && TallyOf(w.y) == TallyOf(z.y).(submitted := |z.y.h.submitted| + 1, pending := 1)
  {
    var z1 := NextPair(z, PREPARE);
    var z2 := NextPair(z1, Arm);
    var z3 := NextPair(z2, SubmitOwn(0));
    RunThreeMoves(z, PREPARE, Arm, SubmitOwn(0));
    PrepareOne(z);
    SubmitsOne(z.y);
    assert z3.y == Next(z1.y, StepSubmit(0, true, 0));
  }

  lemma RequestRuns(z: Pair)
    requires Light(z.y) && z.p.phase.Ready? && z.y.ch.free != [] && z.y.ch.pending == []
    ensures
      var w := RunPair(z, Request());
      && Light(w.y) && w.p.phase.Waiting? && w.p.cmp == 0 && w.p.cookie >= 0
      && w.y.ch.free == z.y.ch.free[1..]
      && TallyOf(w.y) == TallyOf(z.y).(submitted := |z.y.h.submitted| + 1,
                                       active := if z.y.ch.idle then 1 else |z.y.ch.active|,
                                       pending := if z.y.ch.idle then 0 else 1)
  {
    var start := [PREPARE, Arm, SubmitOwn(0)];
    var z3 := RunPair(z, start);
    assert Request() == start + [IssueOwn(true)];
    RunPairConcat(z, start, [IssueOwn(true)]);
    RunOneMove(z3, IssueOwn(true));
    SubmittedOne(z);
    IssueOne(z3.y);
    assert NextPair(z3, IssueOwn(true)).y == Next(z3.y, StepIssue(true));
  }

  lemma CompletedSound(s: State, status: nat)
    requires !s.err && And(status, IRQ_ERROR) == 0
    ensures Completed(s, status) == Complete(s).(idle := true)
  {
  }

  lemma CompletedTally(y: System, x: System)
    requires Light(y)
    requires x.ch == Start(Complete(y.ch).(idle := true), true)
    requires x.prepared == y.prepared && x.held == y.held && x.ringing == y.ringing && x.due == y.due
    requires x.h.submitted == y.h.submitted && x.h.freed == y.h.freed
    ensures Light(x)
    ensures TallyOf(x) == TallyOf(y).(done := |y.ch.done| + |y.ch.active|, active := |y.ch.pending|, pending := 0)
  {
  }

  lemma CompletionStep(y: System, status: nat) returns (x: System)
    requires Light(y) && HasIoc(status) && And(status, IRQ_ERROR) == 0
    ensures x == Next(y, StepIrq(status, true)) && x.ch == Start(Complete(y.ch).(idle := true), true)
    ensures x.prepared == y.prepared && x.held == y.held && x.ringing == y.ringing && x.due == y.due
    ensures x.h.submitted == y.h.submitted && x.h.freed == y.h.freed
  {
    x := NextIrq(y, status, true);
    IrqIsStart(y, status);
    IrqShape(y, status, true);
    CompletedSound(y.ch, status);
  }

  /** The interrupt that completes the active list and starts the pending one. */
  lemma Completes(z: Pair)
    requires Light(z.y)
    ensures
      var w := NextPair(z, Engine(COMPLETE));
      && Light(w.y) && w.p == z.p
      && TallyOf(w.y) == TallyOf(z.y)
         .(done := |z.y.ch.done| + |z.y.ch.active|, active := |z.y.ch.pending|, pending := 0)
  {
    IocWord();
    var x := CompletionStep(z.y, IRQ_IOC);
    CompletedTally(z.y, x);
  }

  /** The tasklet unlinks the oldest done descriptor; its callback is due. */
  lemma HeadTaken(z: Pair)
    requires Light(z.y) && z.y.held == [] && z.y.due == [] && z.y.ch.done != []
    ensures
      var w := NextPair(z, Engine(StepTake));
      && Light(w.y) && w.p == z.p && w.y.ch.free == z.y.ch.free && w.y.ch.idle == z.y.ch.idle
      && TallyOf(w.y) == TallyOf(z.y).(held := 1, due := 1, done := |z.y.ch.done| - 1)
  {
    assert z.y.ch.done[0] in z.y.ch.done;
    NotifiedOne(z.y.ch.done[0]);
    assert Next(z.y, StepTake) == NextTake(z.y);
    assert forall d :: d in z.y.ch.done[1..] ==> d in z.y.ch.done;
  }

  /** And is made. */
  lemma CallMade(z: Pair)
    requires Light(z.y) && z.y.due != []
    ensures
      var w := NextPair(z, Engine(StepCall));
      && Light(w.y) && w.p == z.p.(cmp := z.p.cmp + 1)
      && TallyOf(w.y) == TallyOf(z.y).(due := 0)
  {
  }

  lemma HeadCalled(z: Pair)
    requires Light(z.y) && z.y.held == [] && z.y.due == [] && z.y.ch.done != []
    ensures
      var w := NextPair(NextPair(z, Engine(StepTake)), Engine(StepCall));
      && Light(w.y) && w.p == z.p.(cmp := z.p.cmp + 1)
      && TallyOf(w.y) == TallyOf(z.y).(held := 1, done := |z.y.ch.done| - 1)
  {
    HeadTaken(z);
    CallMade(NextPair(z, Engine(StepTake)));
  }

  /** An interrupt and a cleanup, up to the first callback. */
  const CALLBACK: seq<Move> := [Engine(COMPLETE), Engine(StepTake), Engine(StepCall)]

  /** First request, timed out; second request; then the first one completes. */
  function FirstLate(): seq<Move> { Request() + [Timeout] }

  lemma RunOneMove(z: Pair, a: Move)
    ensures RunPair(z, [a]) == NextPair(z, a)
  {
    assert [a] == [a] + [];
    MoveThen(z, a, []);
  }

  lemma TimesOut(z: Pair)
    requires z.p.phase.Waiting? && z.p.cmp == 0 && z.y.ch.active != []
    ensures NextPair(z, Timeout) == z.(p := z.p.(phase := Ready, status := TimedOut))
  {
  }

  lemma FirstRequestLate(o: Pair)
    requires Light(o.y) && o.p.phase.Ready? && TallyOf(o.y) == Tally(0, 0, 0, 0, 0, 0, 0) && |o.y.ch.free| == NUM_DESCS
    ensures
      var z := RunPair(o, FirstLate());
      Light(z.y) && z.p.phase.Ready? && TallyOf(z.y) == Tally(1, 0, 0, 0, 0, 1, 0) && |z.y.ch.free| == 254
  {
    RequestRuns(o);
    var z := RunPair(o, Request());
    RunPairConcat(o, Request(), [Timeout]);
    RunOneMove(z, Timeout);
    TimesOut(z);
  }

  lemma SecondRequestWoken(z: Pair)
    requires Light(z.y) && z.p.phase.Ready? && TallyOf(z.y) == Tally(1, 0, 0, 0, 0, 1, 0) && z.y.ch.free != []
    ensures
      var w := RunPair(z, Request() + CALLBACK);
      Light(w.y) && w.p.phase.Waiting? && w.p.cmp == 1 && TallyOf(w.y) == Tally(2, 0, 1, 0, 0, 1, 0)
  {
    RequestRuns(z);
    var z1 := RunPair(z, Request());
    RunPairConcat(z, Request(), CALLBACK);
    Completes(z1);
    HeadCalled(NextPair(z1, Engine(COMPLETE)));
    RunThreeMoves(z1, Engine(COMPLETE), Engine(StepTake), Engine(StepCall));
  }

  /** Everything up to the wake-up. */
  function StaleRun(): seq<Move> {
    FirstLate() + (Request() + CALLBACK)
  }

  lemma WokenEarly(z: Pair)
    requires PairInv(z) && Woken(z) && TallyOf(z.y) == Tally(2, 0, 1, 0, 0, 1, 0)
    ensures NextPair(z, Wake).p.status == Error && z.y.ch.active[0] == z.y.h.submitted[1]
  {
    OwnExact(z);
    OwnLeft(z.y);
    assert z.y.h.submitted == z.y.h.freed + z.y.held + Listed(z.y.ch);
    assert Listed(z.y.ch)[0] == z.y.ch.active[0];
  }

  /** The waiter is woken, and told of an error, while its own descriptor is active on an
      error-free channel; nothing but the earlier timeout set this up. */
  lemma StaleCallbackMisreports(base: nat, ctrl: nat, regs: Regs, status: Status)
    ensures
      var z := RunPair(Open(base, true, ctrl, regs, status), StaleRun());
      && Woken(z) && NextPair(z, Wake).p.status == Error
      && !z.y.ch.err && |z.y.ch.active| == 1 && z.y.h.submitted != [] && z.y.ch.active[0] == Last(z.y.h.submitted)
  {
    var o := Open(base, true, ctrl, regs, status);
    FirstRequestLate(o);
    SecondRequestWoken(RunPair(o, FirstLate()));
    RunPairConcat(o, FirstLate(), Request() + CALLBACK);
    var z := RunPair(o, StaleRun());
    OpenInv(base, true, ctrl, regs, status);
    PairInEveryRun(o, StaleRun());
    WokenEarly(z);
  }

  /** The same through the window in which the tasklet has released its lock for the callback and
      not yet made it: the first request's descriptor is unlinked, nothing is done or active. */
  function LateCallbackRun(): seq<Move> {
    FirstLate() + ([Engine(COMPLETE), Engine(StepTake)] + (Request() + [Engine(StepCall)]))
  }

  lemma UnlinkedThenRequest(z: Pair)
    requires Light(z.y) && z.p.phase.Ready? && TallyOf(z.y) == Tally(1, 0, 0, 0, 0, 1, 0) && z.y.ch.free != []
    ensures
      var u := RunPair(z, [Engine(COMPLETE), Engine(StepTake)]);
      u.y.ch.done == [] && u.y.ch.active == [] && u.y.ch.pending == [] && |u.y.held| == 1
    ensures
      var w := RunPair(z, [Engine(COMPLETE), Engine(StepTake)] + (Request() + [Engine(StepCall)]));
      Light(w.y) && w.p.phase.Waiting? && w.p.cmp == 1 && TallyOf(w.y) == Tally(2, 0, 1, 0, 0, 1, 0)
  {
    RunPairConcat(z, [Engine(COMPLETE), Engine(StepTake)], Request() + [Engine(StepCall)]);
    RunTwo(z, Engine(COMPLETE), Engine(StepTake));
    var u := NextPair(NextPair(z, Engine(COMPLETE)), Engine(StepTake));
    Completes(z);
    HeadTaken(NextPair(z, Engine(COMPLETE)));
    RunPairConcat(u, Request(), [Engine(StepCall)]);
    RequestRuns(u);
    RunOneMove(RunPair(u, Request()), Engine(StepCall));
    CallMade(RunPair(u, Request()));
  }

  lemma LateCallbackMisreports(base: nat, ctrl: nat, regs: Regs, status: Status)
    ensures
      var z := RunPair(Open(base, true, ctrl, regs, status), LateCallbackRun());
      && Woken(z) && NextPair(z, Wake).p.status == Error
      && !z.y.ch.err && |z.y.ch.active| == 1 && z.y.h.submitted != [] && z.y.ch.active[0] == Last(z.y.h.submitted)
  {
    var o := Open(base, true, ctrl, regs, status);
    FirstRequestLate(o);
    UnlinkedThenRequest(RunPair(o, FirstLate()));
    RunPairConcat(o, FirstLate(), [Engine(COMPLETE), Engine(StepTake)] + (Request() + [Engine(StepCall)]));
    var z := RunPair(o, LateCallbackRun());
    OpenInv(base, true, ctrl, regs, status);
    PairInEveryRun(o, LateCallbackRun());
    WokenEarly(z);
  }

  // ---- An old success ---------------------------------------------------------------------------

  /** A request that succeeds. */
  function Succeeding(): seq<Move> {
    Request() + (CALLBACK + [Wake])
  }

  lemma RequestSucceeds(o: Pair)
    requires PairInv(o) && Light(o.y) && o.p.phase.Ready? && o.y.ch.free != []
    requires TallyOf(o.y) == Tally(0, 0, 0, 0, 0, 0, 0)
    ensures
      var z := RunPair(o, Succeeding());
      z.p.phase.Ready? && z.p.status == NoError
  {
    RequestRuns(o);
    PairInEveryRun(o, Request());
    var z1 := RunPair(o, Request());
    RunPairConcat(o, Request(), CALLBACK + [Wake]);
    RunPairConcat(z1, CALLBACK, [Wake]);
    RunThreeMoves(z1, Engine(COMPLETE), Engine(StepTake), Engine(StepCall));
    Completes(z1);
    HeadCalled(NextPair(z1, Engine(COMPLETE)));
    PairInEveryRun(z1, CALLBACK);
    var z2 := RunPair(z1, CALLBACK);
    RunOneMove(z2, Wake);
    OwnLeft(z2.y);
    SuccessIsOwnCompletion(z2, Wake);
  }

  // One byte more than the whole pool can describe.
  const TOO_LONG: nat := 2139094786

  /** After one success, a request that is too long for the pool never starts, and the user
      still reads success. */
  lemma OldSuccessShown(base: nat, sg: bool, ctrl: nat, regs: Regs, status: Status)
    ensures
      var o := Open(base, sg, ctrl, regs, status);
      var tooLong := Submitting(0, TOO_LONG, false, [], []) + ([SubmitOwn(0)] + ([] + [IssueOwn(true)]));
      var z := RunPair(o, Succeeding() + tooLong);
      z.p.phase.Ready? && z.p.status == NoError
  {
    var o := Open(base, sg, ctrl, regs, status);
    OpenInv(base, sg, ctrl, regs, status);
    RequestSucceeds(o);
    PairInEveryRun(o, Succeeding());
    var z := RunPair(o, Succeeding());
    AtMostPool(z.y);
    var submitting := Submitting(0, TOO_LONG, false, [], []);
    StartFailsExactly(z, 0, TOO_LONG, false, 0, true, [], [], []);
    RunPairConcat(o, Succeeding(), submitting + ([SubmitOwn(0)] + ([] + [IssueOwn(true)])));
    RunPairConcat(z, submitting, [SubmitOwn(0)] + ([] + [IssueOwn(true)]));
  }

  // ---- A query with nothing to read -------------------------------------------------------------

  lemma FailedIssue(y: System)
    requires CanStart(y.ch) && !y.ch.bug && y.ch.active == []
    ensures
      var x := Next(y, StepIssue(false));
      x.ch.err && x.ch.active == [] && x.ch.pending != [] && x.ch.sg == y.ch.sg
  {
  }

  lemma IssueFails(z: Pair) returns (w: Pair)
    requires PairInv(z) && z.p.phase.Lodged? && z.p.cookie >= 0 && z.p.cmp == 0
    requires CanStart(z.y.ch) && z.y.ch.active == [] && z.y.ch.sg
    ensures w == NextPair(z, IssueOwn(false)) && w.p.phase.Waiting? && w.p.cmp == 0
    ensures !Answers(w.y.ch, w.p.cookie)
  {
    FailedIssue(z.y);
    w := IssuedInv(z, false);
    WaitStrays(w);
  }

  lemma IssuedInv(z: Pair, ok: bool) returns (w: Pair)
    requires PairInv(z) && z.p.phase.Lodged? && z.p.cookie >= 0
    ensures w == NextPair(z, IssueOwn(ok)) && PairInv(w)
    ensures w.y == Next(z.y, StepIssue(ok)) && w.p.phase.Waiting? && w.p.cmp == z.p.cmp
  {
    IssueInv(z, ok);
    w := MoveIssue(z, ok);
  }

  lemma WaitStrays(w: Pair)
    requires PairInv(w) && w.p.phase.Waiting?
    requires w.y.ch.sg && w.y.ch.err && w.y.ch.active == [] && w.y.ch.pending != []
    ensures !Answers(w.y.ch, w.p.cookie)
  {
    WaitStraysExactly(w);
  }

  /** If the engine does not start, the request's wait times out, and its status query follows
      the empty active list. */
  lemma FailedStartStrays(base: nat, ctrl: nat, regs: Regs, status: Status)
    ensures
      var o := Open(base, true, ctrl, regs, status);
      RunPair(o, [PREPARE, Arm, SubmitOwn(0)] + [IssueOwn(false), Timeout]).p.phase.Strayed?
  {
    var o := Open(base, true, ctrl, regs, status);
    var start := [PREPARE, Arm, SubmitOwn(0)];
    OpenInv(base, true, ctrl, regs, status);
    PairInEveryRun(o, start);
    RunPairConcat(o, start, [IssueOwn(false), Timeout]);
    SubmittedOne(o);
    var z := RunPair(o, start);
    RunTwo(z, IssueOwn(false), Timeout);
    var w := IssueFails(z);
  }
}
