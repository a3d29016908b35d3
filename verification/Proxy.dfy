/** The proxy client of one channel: prepare, submit, issue, wait, report. Its steps interleave
    with the engine's; requests on the channel are serialised, and it is the only client. */
module Proxy {
  import opened Bits
  import opened Callbacks
  import opened ChannelState
  import opened Decisions
  import opened Delivery
  import opened Memory
  import opened Options
  import opened Progress
  import opened Queues
  import opened Runs
  import opened Splitting

  datatype Status = NoError | ProxyBusy | TimedOut | Error

  /** Where the serving thread is between two lock acquisitions. `Strayed`: the driver has
      followed a list head as if it were an element, and nothing is claimed from there on. */
  datatype Phase = Ready | Prepped | Armed | Lodged | Waiting | Strayed

  const EBUSY: int := 16

  /** `cmp` counts completions not yet waited for; `quiet` records whether nothing was
      outstanding when the last request was submitted. */
  datatype Client = Client(phase: Phase, cmp: nat, cookie: int, status: Status, quiet: bool)

  datatype Pair = Pair(y: System, p: Client)

  datatype Move =
    | Engine(step: Step)
    | Prepare(handle: nat, len: nat, mark: bool)
    | Arm
    | SubmitOwn(after: nat)
    | IssueOwn(ok: bool)
    | Wake
    | Timeout

  /** What the interrupt, the tasklet and the hardware do. */
  predicate EngineSide(step: Step) { !ClientSide(step) }

  /** The step makes a callback, and that of every proxy descriptor completes `cmp`. */
  predicate CallsBack(y: System, step: Step) {
    step.StepCall? && y.due != [] && !y.ch.bug
  }

  function EngineMove(z: Pair, step: Step): Pair {
    Pair(Next(z.y, step), if CallsBack(z.y, step) then z.p.(cmp := z.p.cmp + 1) else z.p)
  }

  function CookieOf(outcome: Outcome): int {
    if outcome.Accepted? then outcome.cookie else -EBUSY
  }

  /** What a wait that was not cut short reports. */
  function Report(s: State, cookie: int): Status {
    if cookie >= 0 && IsComplete(s, cookie) then NoError else Error
  }

  /** The query every wait ends with can be answered. */
  predicate Answers(s: State, cookie: int) { cookie >= 0 ==> QuerySafe(s, cookie) }

  function PrepareStep(handle: nat, len: nat, mark: bool): Step {
    StepPrepSg([Range(handle, len)], mark, None)
  }

  function AfterPrepare(z: Pair, y: System): Pair {
    if |y.prepared| > |z.y.prepared| then Pair(y, z.p.(phase := Prepped))
    else Pair(y, z.p.(cookie := -EBUSY))
  }

  /** An empty transfer makes the driver read the first of no segments. */
  function MovePrepare(z: Pair, handle: nat, len: nat, mark: bool): Pair {
    if len == 0 then z.(p := z.p.(phase := Strayed))
    else AfterPrepare(z, Next(z.y, PrepareStep(handle, len, mark)))
  }

  /** No completion is waiting, no callback is due, and nothing is done or active. */
  predicate Clear(z: Pair) {
    z.p.cmp == 0 && z.y.due == [] && z.y.ch.done == [] && z.y.ch.active == []
  }

  function SubmitStep(y: System, after: nat): Step
    requires y.prepared != []
  {
    StepSubmit(|y.prepared| - 1, true, after)
  }

  function MoveSubmit(z: Pair, after: nat): Pair
    requires z.y.prepared != []
  {
    var r := Submit(z.y.ch, Last(z.y.prepared).(callback := true), after);
    Pair(Next(z.y, SubmitStep(z.y, after)),
         z.p.(phase := Lodged, cookie := CookieOf(r.outcome), quiet := Clear(z)))
  }

  function MoveIssue(z: Pair, ok: bool): Pair {
    var y := Next(z.y, StepIssue(ok));
    if z.p.cookie < 0 then Pair(y, z.p.(phase := Ready))
    else Pair(y, z.p.(phase := Waiting, status := ProxyBusy))
  }

  function EndWait(z: Pair, p: Client): Pair {
    z.(p := if Answers(z.y.ch, z.p.cookie) then p.(phase := Ready) else p.(phase := Strayed, status := z.p.status))
  }

  function NextPair(z: Pair, move: Move): Pair {
    match move
    case Engine(step) => if EngineSide(step) then EngineMove(z, step) else z
    case Prepare(handle, len, mark) => if z.p.phase.Ready? then MovePrepare(z, handle, len, mark) else z
    case Arm => if z.p.phase.Prepped? then z.(p := z.p.(phase := Armed, cmp := 0)) else z
    case SubmitOwn(after) => if z.p.phase.Armed? && z.y.prepared != [] then MoveSubmit(z, after) else z
    case IssueOwn(ok) => if z.p.phase.Lodged? then MoveIssue(z, ok) else z
    case Wake =>
      if Woken(z) then EndWait(z, z.p.(cmp := z.p.cmp - 1, status := Report(z.y.ch, z.p.cookie))) else z
    case Timeout =>
      if z.p.phase.Waiting? && z.p.cmp == 0 then EndWait(z, z.p.(status := TimedOut)) else z
  }

  /** The channel's step in a move, if it has one. */
  function MoveStep(z: Pair, move: Move): Option<Step> {
    match move
    case Engine(step) => if EngineSide(step) then Some(step) else None
    case Prepare(handle, len, mark) =>
      if z.p.phase.Ready? && len > 0 then Some(PrepareStep(handle, len, mark)) else None
    case SubmitOwn(after) =>
      if z.p.phase.Armed? && z.y.prepared != [] then Some(SubmitStep(z.y, after)) else None
    case IssueOwn(ok) => if z.p.phase.Lodged? then Some(StepIssue(ok)) else None
    case _ => None
  }

  lemma MoveSteps(z: Pair, move: Move) returns (w: Pair)
    ensures w == NextPair(z, move)
    ensures match MoveStep(z, move)
      case None => w.y == z.y
      case Some(step) => w.y == Next(z.y, step) && ProxyStep(z.y, step)
  {
    w := NextPair(z, move);
  }

  predicate Woken(z: Pair) { z.p.phase.Waiting? && z.p.cmp > 0 }

  function RunPair(z: Pair, moves: seq<Move>): Pair
    decreases |moves|
  {
    if moves == [] then z else RunPair(NextPair(z, moves[0]), moves[1..])
  }

  function Open(base: nat, sg: bool, ctrl: nat, regs: Regs, status: Status): Pair {
    Pair(Boot(base, sg, ctrl, regs), Client(Ready, 0, 0, status, false))
  }

  // ---- The channel under the proxy ------------------------------------------------------------

  ghost predicate Plain(ds: seq<Desc>) {
    forall d :: d in ds ==> !d.cyclic
  }

  /** What the proxy's own steps, and the engine's, keep of its channel. */
  ghost predicate Served(y: System) {
    && ChannelInv(y) && !y.ch.bug && y.h.stale == 0 && !y.ch.cyclic && BusyIsActive(y.ch)
    && y.ringing == [] && (y.due == [] || y.due == y.held)
    && Plain(y.prepared) && Plain(y.h.submitted) && (forall d :: d in y.h.submitted ==> d.callback)
  }

  predicate ProxyStep(y: System, step: Step) {
    EngineSide(step) || step.StepPrepSg? || step.StepIssue? ||
    (step.StepSubmit? && step.j < |y.prepared| && step.callback)
  }

  /** How the history and the clients' descriptors change on submission. */
  lemma SubmitShape(y: System, j: nat, after: nat)
    requires j < |y.prepared| && !y.ch.cyclic && !y.ch.bug
    ensures
      var d := y.prepared[j].(callback := true);
      var r := Submit(y.ch, d, after);
      var x := NextSubmit(y, j, true, after);
      && x.held == y.held && x.ringing == y.ringing && x.due == y.due && x.h.freed == y.h.freed && x.h.stale == y.h.stale
      && x.ch.done == y.ch.done && x.ch.active == y.ch.active
      && (r.outcome.Accepted? <==> Accepting(y.ch, after)) && !r.outcome.Busy?
      && (if r.outcome.Accepted? then
            var e := d.(cookie := r.outcome.cookie);
            && x.h.submitted == y.h.submitted + [e] && x.ch.pending == y.ch.pending + [e]
            && x.prepared == Remove(y.prepared, j)
            && (x.ch.bug || x.ch.cyclic == d.cyclic)
          else x.h.submitted == y.h.submitted && x.ch.pending == y.ch.pending && x.prepared == y.prepared
               && !x.ch.cyclic)
  {
    var d := y.prepared[j].(callback := true);
    if Submit(y.ch, d, after).outcome.Accepted? { AcceptedShape(y.ch, d, after); }
    else { RejectedShape(y.ch, d, after); }
  }

  lemma IrqShape(y: System, status: nat, ok: bool)
    ensures
      var x := NextIrq(y, status, ok);
      && x.prepared == y.prepared && x.held == y.held && x.ringing == y.ringing && x.due == y.due
      && x.h.submitted == y.h.submitted && x.h.freed == y.h.freed
      && x.ch.cyclic == y.ch.cyclic && (y.h.stale == 0 ==> x.h.stale == 0)
  {
  }

  /** A plain channel has no cyclic descriptor to ring for. */
  lemma NothingRings(y: System)
    requires Fifo(y) && Plain(y.h.submitted)
    ensures !CanRing(y.ch)
  {
    if y.ch.done != [] { assert y.ch.done[0] in y.h.submitted; }
  }

  lemma EngineShape(y: System, step: Step)
    requires Fifo(y) && Plain(y.h.submitted) && EngineSide(step)
    ensures
      var x := Next(y, step);
      && x.prepared == y.prepared && x.h.submitted == y.h.submitted && x.ch.cyclic == y.ch.cyclic
      && (y.ringing == [] ==> x.ringing == []) && (y.h.stale == 0 ==> x.h.stale == 0)
      && (y.due == [] || y.due == y.held ==> x.due == [] || x.due == x.held)
  {
    NothingRings(y);
    if step.StepIrq? { IrqShape(y, step.status, step.ok); }
    if step.StepTake? { TakeShape(y); }
  }

  lemma TakeShape(y: System)
    ensures
      var x := Next(y, StepTake);
      && x.prepared == y.prepared && x.h.submitted == y.h.submitted && x.ch.cyclic == y.ch.cyclic
      && x.ringing == y.ringing && x.h.stale == y.h.stale
      && (y.due == [] || y.due == y.held ==> x.due == [] || x.due == x.held)
  {
    if CanTake(y.ch) { NotifiedOne(y.ch.done[0]); }
  }

  lemma IssueShape(y: System, ok: bool)
    ensures
      var x := Next(y, StepIssue(ok));
      && x.prepared == y.prepared && x.held == y.held && x.ringing == y.ringing && x.due == y.due
      && x.h.submitted == y.h.submitted && x.h.freed == y.h.freed
      && x.ch.cyclic == y.ch.cyclic && (y.h.stale == 0 ==> x.h.stale == 0)
  {
  }

  lemma PrepShape(y: System, step: Step)
    requires step.StepPrepSg?
    ensures
      var x := Next(y, step);
      && x.h == y.h && x.held == y.held && x.ringing == y.ringing && x.due == y.due && x.ch.cyclic == y.ch.cyclic
      && x.ch.err == y.ch.err && x.ch.idle == y.ch.idle
      && x.ch.done == y.ch.done && x.ch.active == y.ch.active && x.ch.pending == y.ch.pending
      && |y.prepared| <= |x.prepared| <= |y.prepared| + 1 && (Plain(y.prepared) ==> Plain(x.prepared))
  {
    var x := PrepStep(y, step);
    assert |y.prepared| < |x.prepared| ==> !x.prepared[|y.prepared|].cyclic;
  }

  lemma SubmitPlain(y: System, step: Step)
    requires Served(y) && ProxyStep(y, step) && step.StepSubmit?
    ensures
      var x := Next(y, step);
      && !x.ch.bug
      && x.h.stale == 0 && !x.ch.cyclic && x.ringing == [] && (x.due == [] || x.due == x.held)
      && Plain(x.prepared) && Plain(x.h.submitted) && (forall d :: d in x.h.submitted ==> d.callback)
  {
    BugExactly(y, step);
    RoomForPrepared(y);
    SubmitShape(y, step.j, step.after);
    assert y.prepared[step.j] in y.prepared;
  }

  lemma ServedNext(y: System, step: Step)
    requires Served(y) && ProxyStep(y, step)
    ensures Served(Next(y, step))
  {
    MemoryNext(y, step);
    QueueNext(y, step);
    BugExactly(y, step);
    BusyIsActiveNext(y, step);
    if step.StepSubmit? { SubmitPlain(y, step); }
    else if step.StepIssue? { IssueShape(y, step.ok); }
    else if step.StepPrepSg? { PrepShape(y, step); }
    else { EngineShape(y, step); }
  }

  // ---- The client -----------------------------------------------------------------------------

  /** The request being served has been accepted by the channel. */
  predicate InFlight(p: Client) {
    p.phase.Waiting? || (p.phase.Lodged? && p.cookie >= 0)
  }

  /** The thread has what its phase needs; a request being served is the last one submitted;
      and while it waits, only an error keeps an idle channel from starting what is pending. */
  ghost predicate ClientInv(z: Pair) {
    && (z.p.phase.Prepped? || z.p.phase.Armed? ==> z.y.prepared != [])
    && (InFlight(z.p) ==> z.y.h.submitted != [] && Last(z.y.h.submitted).cookie == z.p.cookie)
    && (z.p.phase.Waiting? ==> z.p.cookie >= 0 && z.p.status == ProxyBusy)
    && (z.p.phase.Waiting? && z.y.ch.idle && z.y.ch.pending != [] ==> z.y.ch.err)
  }

  ghost predicate PairInv(z: Pair) {
    Served(z.y) && ClientInv(z)
  }

  lemma OpenInv(base: nat, sg: bool, ctrl: nat, regs: Regs, status: Status)
    ensures PairInv(Open(base, sg, ctrl, regs, status))
  {
    BootChannel(base, sg, ctrl, regs);
  }

  /** No engine-side step leaves an idle channel with something pending and no error. */
  lemma EngineStalls(y: System, step: Step)
    requires EngineSide(step) && (y.ch.idle && y.ch.pending != [] ==> y.ch.err)
    ensures Next(y, step).ch.idle && Next(y, step).ch.pending != [] ==> Next(y, step).ch.err
  {
    if step.StepIrq? { IrqDecides(y.ch, step.status, step.ok); }
  }

  lemma EngineInv(z: Pair, step: Step)
    requires PairInv(z) && EngineSide(step)
    ensures PairInv(EngineMove(z, step))
  {
    ServedNext(z.y, step);
    EngineShape(z.y, step);
    if z.p.phase.Waiting? { EngineStalls(z.y, step); }
  }

  lemma PreparedInv(z: Pair, y: System)
    requires z.p.phase.Ready? && Served(y)
    ensures PairInv(AfterPrepare(z, y))
  {
  }

  lemma PrepareInv(z: Pair, handle: nat, len: nat, mark: bool)
    requires PairInv(z) && z.p.phase.Ready?
    ensures PairInv(MovePrepare(z, handle, len, mark))
  {
    if len > 0 {
      ServedNext(z.y, PrepareStep(handle, len, mark));
      PreparedInv(z, Next(z.y, PrepareStep(handle, len, mark)));
    }
  }

  lemma SubmitClient(z: Pair, after: nat)
    requires z.y.prepared != [] && !z.y.ch.cyclic && !z.y.ch.bug
    ensures ClientInv(MoveSubmit(z, after))
  {
    SubmitShape(z.y, |z.y.prepared| - 1, after);
  }

  lemma SubmitInv(z: Pair, after: nat)
    requires PairInv(z) && z.p.phase.Armed?
    ensures PairInv(MoveSubmit(z, after))
  {
    ServedNext(z.y, SubmitStep(z.y, after));
    SubmitClient(z, after);
  }

  lemma IssueStalls(y: System, ok: bool)
    requires !y.ch.bug
    ensures
      var x := Next(y, StepIssue(ok)).ch;
      x.idle && x.pending != [] ==> x.err
  {
  }

  lemma IssueInv(z: Pair, ok: bool)
    requires PairInv(z) && z.p.phase.Lodged?
    ensures PairInv(MoveIssue(z, ok))
  {
    ServedNext(z.y, StepIssue(ok));
    IssueShape(z.y, ok);
    IssueStalls(z.y, ok);
  }

  lemma PairNext(z: Pair, move: Move)
    requires PairInv(z)
    ensures PairInv(NextPair(z, move))
  {
    match move
    case Engine(step) => if EngineSide(step) { EngineInv(z, step); }
    case Prepare(handle, len, mark) => if z.p.phase.Ready? { PrepareInv(z, handle, len, mark); }
    case Arm =>
    case SubmitOwn(after) => if z.p.phase.Armed? { SubmitInv(z, after); }
    case IssueOwn(ok) => if z.p.phase.Lodged? { IssueInv(z, ok); }
    case Wake =>
    case Timeout =>
  }

  lemma {:induction false} PairInEveryRun(z: Pair, moves: seq<Move>)
    requires PairInv(z)
    ensures PairInv(RunPair(z, moves))
    decreases |moves|
  {
    if moves != [] {
      PairNext(z, moves[0]);
      PairInEveryRun(NextPair(z, moves[0]), moves[1..]);
    }
  }

  // ---- What the user is told ------------------------------------------------------------------

  /** The descriptor of the request being served has been moved off the active list by an
      interrupt: it is done, held or released. */
  ghost predicate OwnCompleted(y: System) {
    y.h.submitted != [] && |y.h.submitted| <= |Left(y)|
  }

  lemma OwnLeft(y: System)
    requires Fifo(y) && y.h.submitted != []
    ensures OwnCompleted(y) <==> y.ch.active == [] && y.ch.pending == []
  {
  }

  lemma OwnExact(z: Pair)
    requires PairInv(z) && z.p.phase.Waiting?
    ensures IsComplete(z.y.ch, z.p.cookie) <==> OwnCompleted(z.y)
  {
    var n := |z.y.h.submitted| - 1;
    assert z.y.h.submitted[n] in z.y.h.submitted;
    CookieExact(z.y, n);
  }

  /** Exactly when the query a wait ends with goes astray: on a scatter-gather engine, when an
      error has left the channel with nothing active and the request still pending. */
  lemma WaitStraysExactly(z: Pair)
    requires PairInv(z) && z.p.phase.Waiting?
    ensures !Answers(z.y.ch, z.p.cookie) <==>
            z.y.ch.sg && z.y.ch.err && z.y.ch.active == [] && z.y.ch.pending != []
  {
    OwnExact(z);
    OwnLeft(z.y);
  }

  /** Soundness, in every run and whoever woke the waiter: a wait reports success exactly when
      it was woken and this request's own descriptor has been completed; and no other move
      writes success. */
  lemma SuccessIsOwnCompletion(z: Pair, move: Move)
    requires PairInv(z)
    ensures NextPair(z, move).p.status == NoError && (z.p.status != NoError || z.p.phase.Waiting?) ==>
      move.Wake? && Woken(z) && OwnCompleted(z.y)
    ensures Woken(z) && OwnCompleted(z.y) ==>
      NextPair(z, Wake).p.status == NoError && NextPair(z, Wake).p.phase.Ready?
  {
    if z.p.phase.Waiting? { OwnExact(z); }
  }

  /** The wait is over: the completion has come, or the time is up without one. */
  predicate Over(z: Pair, move: Move) {
    z.p.phase.Waiting? && ((move.Wake? && z.p.cmp > 0) || (move.Timeout? && z.p.cmp == 0))
  }

  /** There is no active descriptor for the query to read. */
  predicate Blind(s: State) { s.sg && s.err && s.active == [] && s.pending != [] }

  /** Exactly what each move does to the status word the user reads, and exactly which moves lead
      the driver astray: preparing an empty transfer, and ending a wait with nothing to read. */
  lemma StatusExactly(z: Pair, move: Move)
    requires PairInv(z) && !z.p.phase.Strayed?
    ensures
      NextPair(z, move).p.status ==
        if move.IssueOwn? && z.p.phase.Lodged? && z.p.cookie >= 0 then ProxyBusy
        else if !Over(z, move) || Blind(z.y.ch) then z.p.status
        else if move.Timeout? then TimedOut
        else if OwnCompleted(z.y) then NoError
        else Error
    ensures
      NextPair(z, move).p.phase.Strayed? <==>
        (move.Prepare? && z.p.phase.Ready? && move.len == 0) || (Over(z, move) && Blind(z.y.ch))
  {
    if z.p.phase.Waiting? {
      OwnExact(z);
      WaitStraysExactly(z);
    }
  }

  /** Everything outstanding is completed together with the request being served. */
  ghost predicate Together(z: Pair) {
    z.p.quiet && InFlight(z.p) ==>
      || OwnCompleted(z.y)
      || (Clear(z) && z.y.ch.pending != [])
      || (z.p.cmp == 0 && z.y.due == [] && z.y.ch.done == [] && z.y.ch.pending == [])
  }

  /** The lists after an engine-side step on a channel with nothing done. */
  lemma EngineLists(y: System, step: Step)
    requires EngineSide(step) && y.ch.done == [] && y.due == [] && !y.ch.bug
    ensures
      var x := Next(y, step);
      && !CallsBack(y, step) && x.due == []
      && (y.ch.active == [] ==> x.ch.done == [] && (x.ch.active == [] || x.ch.pending == [])
                                && (y.ch.pending == [] ==> x.ch.active == [] && x.ch.pending == []))
      && (y.ch.pending == [] ==> x.ch.pending == [])
      && (y.ch.pending == [] ==> (x.ch.done == [] && x.ch.active == y.ch.active) || x.ch.active == [])
  {
    if step.StepIrq? { IrqDecides(y.ch, step.status, step.ok); }
  }

  lemma EngineKeepsLeft(y: System, step: Step)
    requires EngineSide(step) && y.ch.active == [] && y.ch.pending == []
    ensures Next(y, step).ch.active == [] && Next(y, step).ch.pending == []
  {
    if step.StepIrq? { IrqDecides(y.ch, step.status, step.ok); }
  }

  lemma EngineTogether(z: Pair, step: Step)
    requires PairInv(z) && Together(z) && EngineSide(step)
    ensures Together(EngineMove(z, step))
  {
    if z.p.quiet && InFlight(z.p) {
      EngineInv(z, step);
      EngineShape(z.y, step);
      OwnLeft(z.y);
      OwnLeft(Next(z.y, step));
      if OwnCompleted(z.y) { EngineKeepsLeft(z.y, step); } else { EngineLists(z.y, step); }
    }
  }

  lemma IssueLists(y: System, ok: bool)
    requires BusyIsActive(y.ch)
    ensures
      var x := Next(y, StepIssue(ok)).ch;
      && x.done == y.ch.done && Next(y, StepIssue(ok)).due == y.due
      && ((x.active == y.ch.active && x.pending == y.ch.pending) ||
          (y.ch.active == [] && x.active == y.ch.pending && x.pending == []))
  {
  }

  lemma IssueTogether(z: Pair, ok: bool)
    requires PairInv(z) && Together(z) && z.p.phase.Lodged?
    ensures Together(MoveIssue(z, ok))
  {
    if z.p.quiet && z.p.cookie >= 0 {
      IssueInv(z, ok);
      IssueShape(z.y, ok);
      IssueLists(z.y, ok);
      OwnLeft(z.y);
      OwnLeft(Next(z.y, StepIssue(ok)));
    }
  }

  lemma SubmitTogether(z: Pair, after: nat)
    requires z.y.prepared != [] && !z.y.ch.cyclic && !z.y.ch.bug
    ensures Together(MoveSubmit(z, after))
  {
    SubmitShape(z.y, |z.y.prepared| - 1, after);
  }

  lemma TogetherNext(z: Pair, move: Move)
    requires PairInv(z) && Together(z)
    ensures Together(NextPair(z, move))
  {
    match move
    case Engine(step) => if EngineSide(step) { EngineTogether(z, step); }
    case SubmitOwn(after) => if z.p.phase.Armed? { SubmitTogether(z, after); }
    case IssueOwn(ok) => if z.p.phase.Lodged? { IssueTogether(z, ok); }
    case _ =>
  }

  lemma {:induction false} TogetherInEveryRun(z: Pair, moves: seq<Move>)
    requires PairInv(z) && Together(z)
    ensures PairInv(RunPair(z, moves)) && Together(RunPair(z, moves))
    decreases |moves|
  {
    if moves != [] {
      PairNext(z, moves[0]);
      TogetherNext(z, moves[0]);
      TogetherInEveryRun(NextPair(z, moves[0]), moves[1..]);
    }
  }

  /** A request submitted with nothing outstanding is never misreported. */
  lemma QuietSuccess(z: Pair)
    requires PairInv(z) && Together(z) && z.p.quiet && Woken(z)
    ensures NextPair(z, Wake).p.status == NoError
  {
    SuccessIsOwnCompletion(z, Wake);
  }

  // ---- Without timeouts -------------------------------------------------------------------------

  /** Callbacks made so far. */
  function Told(y: System): int { |y.h.freed + y.held| - |y.due| }

  /** As long as no wait has timed out, every earlier request has been called back before the
      next is submitted, and a completion can only be its own. */
  ghost predicate CaughtUp(z: Pair) {
    !z.p.phase.Strayed? ==>
      if InFlight(z.p) then
        z.p.quiet && z.p.cmp + |z.y.h.submitted| == Told(z.y) + 1
      else
        Told(z.y) == |z.y.h.submitted| && z.p.cmp == 0
  }

  /** Engine-side steps make at most one callback, and that one completes the completion. */
  lemma EngineTold(z: Pair, step: Step)
    requires PairInv(z) && EngineSide(step)
    ensures
      var w := EngineMove(z, step);
      Told(w.y) - Told(z.y) == w.p.cmp - z.p.cmp
  {
    NothingRings(z.y);
    if step.StepIrq? {
      IrqShape(z.y, step.status, step.ok);
    } else if step.StepTake? && AtLoopHead(z.y) && CanTake(z.y.ch) {
      var d := z.y.ch.done[0];
      assert Listed(z.y.ch)[0] == d;
      assert d in z.y.h.submitted;
      NotifiedOne(d);
    }
  }

  lemma SubmitCaughtUp(z: Pair, after: nat)
    requires PairInv(z) && CaughtUp(z) && z.p.phase.Armed?
    ensures CaughtUp(MoveSubmit(z, after))
  {
    SubmitShape(z.y, |z.y.prepared| - 1, after);
    assert Told(MoveSubmit(z, after).y) == Told(z.y);
    assert Clear(z);
  }

  lemma WakeCaughtUp(z: Pair)
    requires PairInv(z) && CaughtUp(z) && Woken(z)
    ensures CaughtUp(NextPair(z, Wake))
  {
    assert Told(z.y) <= |z.y.h.submitted|;
  }

  lemma CaughtUpNext(z: Pair, move: Move)
    requires PairInv(z) && CaughtUp(z) && !move.Timeout?
    ensures CaughtUp(NextPair(z, move))
  {
    match move
    case Engine(step) => if EngineSide(step) { EngineCaughtUp(z, step); }
    case Prepare(handle, len, mark) => if z.p.phase.Ready? { PrepareCaughtUp(z, handle, len, mark); }
    case Arm =>
    case SubmitOwn(after) => if z.p.phase.Armed? { SubmitCaughtUp(z, after); }
    case IssueOwn(ok) => if z.p.phase.Lodged? { IssueCaughtUp(z, ok); }
    case Wake => if Woken(z) { WakeCaughtUp(z); }
  }

  lemma PrepareCaughtUp(z: Pair, handle: nat, len: nat, mark: bool)
    requires CaughtUp(z) && z.p.phase.Ready?
    ensures CaughtUp(MovePrepare(z, handle, len, mark))
  {
    PrepShape(z.y, PrepareStep(handle, len, mark));
  }

  lemma EngineCaughtUp(z: Pair, step: Step)
    requires PairInv(z) && CaughtUp(z) && EngineSide(step)
    ensures CaughtUp(EngineMove(z, step))
  {
    EngineTold(z, step);
    EngineShape(z.y, step);
    EngineInv(z, step);
    assert Told(EngineMove(z, step).y) <= |EngineMove(z, step).y.h.submitted|;
  }

  lemma IssueCaughtUp(z: Pair, ok: bool)
    requires CaughtUp(z) && z.p.phase.Lodged?
    ensures CaughtUp(MoveIssue(z, ok))
  {
    IssueShape(z.y, ok);
  }

  predicate NeverTimesOut(moves: seq<Move>) {
    forall m :: m in moves ==> !m.Timeout?
  }

  lemma {:induction false} CaughtUpInRun(z: Pair, moves: seq<Move>)
    requires PairInv(z) && CaughtUp(z) && NeverTimesOut(moves)
    ensures CaughtUp(RunPair(z, moves))
    decreases |moves|
  {
    if moves != [] {
      PairNext(z, moves[0]);
      CaughtUpNext(z, moves[0]);
      CaughtUpInRun(NextPair(z, moves[0]), moves[1..]);
    }
  }

  /** Over whole runs, whatever errors and timeouts they contain, for a wait that is woken:
      success is never a lie; it is never withheld from a request submitted with nothing
      outstanding; and as long as no wait has timed out, every request is such a request, and
      no completion is left over between requests. */
  lemma ProxyReports(base: nat, sg: bool, ctrl: nat, regs: Regs, status: Status, moves: seq<Move>)
    ensures
      var z := RunPair(Open(base, sg, ctrl, regs, status), moves);
      Woken(z) ==>
        && (NextPair(z, Wake).p.status == NoError <==> OwnCompleted(z.y))
        && (z.p.quiet ==> NextPair(z, Wake).p.status == NoError)
        && (NeverTimesOut(moves) ==> z.p.quiet)
    ensures
      var z := RunPair(Open(base, sg, ctrl, regs, status), moves);
      NeverTimesOut(moves) && !InFlight(z.p) && !z.p.phase.Strayed? ==> z.p.cmp == 0
  {
    var o := Open(base, sg, ctrl, regs, status);
    var z := RunPair(o, moves);
    OpenInv(base, sg, ctrl, regs, status);
    TogetherInEveryRun(o, moves);
    if Woken(z) {
      SuccessIsOwnCompletion(z, Wake);
      if z.p.quiet { QuietSuccess(z); }
    }
    if NeverTimesOut(moves) { CaughtUpInRun(o, moves); }
  }

  // ---- Without engine errors --------------------------------------------------------------------

  /** The engine starts when told to and raises no error. */
  predicate Faultless(move: Move) {
    match move
    case Engine(step) => step.StepIrq? ==> step.ok && !Bit(step.status, 14)
    case IssueOwn(ok) => ok
    case Prepare(_, len, _) => len > 0
    case _ => true
  }

  lemma FaultlessStep(y: System, step: Step)
    requires EngineSide(step) && Faultless(Engine(step)) && !y.ch.err
    ensures !Next(y, step).ch.err
  {
    if step.StepIrq? { IrqDecides(y.ch, step.status, step.ok); }
  }

  lemma SubmitNoError(y: System, step: Step)
    requires step.StepSubmit? && !y.ch.err
    ensures !Next(y, step).ch.err
  {
  }

  lemma FaultlessNext(z: Pair, move: Move)
    requires PairInv(z) && !z.y.ch.err && !z.p.phase.Strayed? && Faultless(move)
    ensures !NextPair(z, move).y.ch.err && !NextPair(z, move).p.phase.Strayed?
  {
    match move
    case Engine(step) => if EngineSide(step) { FaultlessStep(z.y, step); }
    case Prepare(handle, len, mark) => PrepShape(z.y, PrepareStep(handle, len, mark));
    case SubmitOwn(after) => if z.p.phase.Armed? { SubmitNoError(z.y, SubmitStep(z.y, after)); }
    case IssueOwn(ok) => assert !Next(z.y, StepIssue(ok)).ch.err;
    case Arm =>
    case Wake => if z.p.phase.Waiting? { WaitStraysExactly(z); }
    case Timeout => if z.p.phase.Waiting? { WaitStraysExactly(z); }
  }

  /** Without engine errors and empty transfers, the driver never strays, timeouts or not. */
  lemma {:induction false} FaultlessNeverStrays(z: Pair, moves: seq<Move>)
    requires PairInv(z) && !z.y.ch.err && !z.p.phase.Strayed?
    requires forall m :: m in moves ==> Faultless(m)
    ensures !RunPair(z, moves).p.phase.Strayed?
    decreases |moves|
  {
    if moves != [] {
      PairNext(z, moves[0]);
      FaultlessNext(z, moves[0]);
      FaultlessNeverStrays(NextPair(z, moves[0]), moves[1..]);
    }
  }
}
