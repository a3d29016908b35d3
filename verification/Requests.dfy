/** Whole requests of the proxy: how they start, when they fail to, when they are told the
    truth, and what an honest engine has then done. */
module Requests {
  import opened Bits
  import opened Callbacks
  import opened ChannelState
  import opened Decisions
  import opened Options
  import opened Preparation
  import opened Progress
  import opened Proxy
  import opened Queues
  import opened Registers
  import opened Ring
  import opened Runs
  import opened Splitting
  import opened Walk

  // ---- When a woken wait tells the truth ------------------------------------------------------

  /** What can happen between a submission and the end of its wait. */
  predicate DuringWait(moves: seq<Move>) {
    forall m :: m in moves ==> m.Engine? || m.IssueOwn?
  }

  predicate Succeeds(z: Pair) { NextPair(z, Wake).p.status == NoError }

  /** Whatever the engine does, if the wait is woken it reports success. */
  ghost predicate NeverMisled(w: Pair) {
    forall moves :: DuringWait(moves) && Woken(RunPair(w, moves)) ==> Succeeds(RunPair(w, moves))
  }

  lemma {:induction false} SameRequest(z: Pair, moves: seq<Move>)
    requires DuringWait(moves)
    ensures RunPair(z, moves).p.quiet == z.p.quiet
    decreases |moves|
  {
    if moves != [] { SameRequest(NextPair(z, moves[0]), moves[1..]); }
  }

  lemma TogetherIsTold(w: Pair, moves: seq<Move>)
    requires PairInv(w) && Together(w) && w.p.quiet && DuringWait(moves) && Woken(RunPair(w, moves))
    ensures Succeeds(RunPair(w, moves))
  {
    TogetherInEveryRun(w, moves);
    SameRequest(w, moves);
    QuietSuccess(RunPair(w, moves));
  }

  /** The request has been submitted behind something else, which can wake its wait. */
  predicate Behind(z: Pair) {
    && z.y.ch.active + z.y.ch.pending != []
    && (WillWake(z) || (z.y.ch.active != [] && z.y.ch.pending != []))
  }

  /** A completion is waiting, a callback is due, or the tasklet has something to call back. */
  predicate WillWake(z: Pair) { z.p.cmp > 0 || z.y.due != [] || z.y.ch.done != [] }

  lemma SubmitBehind(z: Pair, w: Pair, after: nat)
    requires z.y.prepared != [] && !z.y.ch.cyclic && !z.y.ch.bug && Accepting(z.y.ch, after)
    requires z.p.phase.Armed? && w == NextPair(z, SubmitOwn(after))
    ensures
      && w.p.phase.Lodged? && w.p.cookie >= 0 && (w.p.quiet <==> Clear(z))
      && (!Clear(z) ==> Behind(w))
  {
    SubmitShape(z.y, |z.y.prepared| - 1, after);
  }

  lemma IssueBehind(z: Pair, ok: bool)
    requires Behind(z) && z.p.phase.Lodged? && z.p.cookie >= 0 && BusyIsActive(z.y.ch)
    ensures Behind(MoveIssue(z, ok)) && MoveIssue(z, ok).p.phase.Waiting?
  {
    IssueLists(z.y, ok);
  }

  lemma IrqBehind(z: Pair, status: nat)
    requires Behind(z) && !WillWake(z) && HasIoc(status) && !z.y.ch.bug
    ensures
      var w := EngineMove(z, StepIrq(status, true));
      Behind(w) && w.p == z.p && w.y.ch.done != []
  {
    HasIocBit(status);
    IrqDecides(z.y.ch, status, true);
  }

  /** The tasklet makes the callback that is due and releases what it holds. */
  lemma CallBehind(z: Pair)
    requires Behind(z) && WillWake(z) && !z.y.ch.bug && z.y.ringing == []
    ensures
      var w := EngineMove(EngineMove(z, StepCall), StepFree);
      && Behind(w) && w.p == z.p.(cmp := w.p.cmp) && !w.y.ch.bug && AtLoopHead(w.y) && w.y.ch.done == z.y.ch.done
      && (w.p.cmp > 0 || w.y.ch.done != [])
  {
  }

  /** It unlinks the next and calls it back. */
  lemma TakeBehind(z: Pair)
    requires Behind(z) && !z.y.ch.bug && AtLoopHead(z.y) && (z.p.cmp > 0 || z.y.ch.done != [])
    requires z.y.ch.done != [] ==> z.y.ch.done[0].callback && !z.y.ch.done[0].cyclic
    ensures
      var w := EngineMove(EngineMove(z, StepTake), StepCall);
      w.p == z.p.(cmp := w.p.cmp) && w.p.cmp > 0 && w.y.ch.active + w.y.ch.pending != []
  {
    if z.y.ch.done != [] { NotifiedOne(z.y.ch.done[0]); }
  }

  lemma HeadCallsBack(y: System)
    requires Served(y) && y.ch.done != []
    ensures y.ch.done[0].callback && !y.ch.done[0].cyclic
  {
    assert Listed(y.ch)[0] == y.ch.done[0];
    assert y.ch.done[0] in y.h.submitted;
  }

  lemma BehindIsMisled(z: Pair)
    requires PairInv(z) && Woken(z) && z.y.ch.active + z.y.ch.pending != []
    ensures !Succeeds(z)
  {
    SuccessIsOwnCompletion(z, Wake);
    if OwnCompleted(z.y) { OwnLeft(z.y); }
  }

  lemma MoveThen(z: Pair, a: Move, rest: seq<Move>)
    ensures RunPair(z, [a] + rest) == RunPair(NextPair(z, a), rest)
  {
    assert ([a] + rest)[1..] == rest;
  }

  lemma RunPairConcat(z: Pair, a: seq<Move>, b: seq<Move>)
    ensures RunPair(z, a + b) == RunPair(RunPair(z, a), b)
    decreases |a|
  {
    if a == [] {
      assert a + b == b;
    } else {
      assert (a + b)[1..] == a[1..] + b;
      RunPairConcat(NextPair(z, a[0]), a[1..], b);
    }
  }

  lemma RunTwo(z: Pair, a: Move, b: Move)
    ensures RunPair(z, [a, b]) == NextPair(NextPair(z, a), b)
  {
    assert [a, b] == [a] + [b] && [b] == [b] + [];
    MoveThen(z, a, [b]);
    MoveThen(NextPair(z, a), b, []);
  }

  lemma RunThreeMoves(z: Pair, a: Move, b: Move, c: Move)
    ensures RunPair(z, [a, b, c]) == NextPair(NextPair(NextPair(z, a), b), c)
  {
    assert [a, b, c] == [a] + [b, c];
    MoveThen(z, a, [b, c]);
    RunTwo(NextPair(z, a), b, c);
  }

  lemma RunFour(z: Pair, a: Move, b: Move, c: Move, d: Move)
    ensures RunPair(z, [a, b, c, d]) == NextPair(NextPair(NextPair(NextPair(z, a), b), c), d)
  {
    assert [a, b, c, d] == [a] + [b, c, d];
    MoveThen(z, a, [b, c, d]);
    RunThreeMoves(NextPair(z, a), b, c, d);
  }

  /** The tasklet's next steps. */
  const DRAIN: seq<Move> := [Engine(StepCall), Engine(StepFree), Engine(StepTake), Engine(StepCall)]

  /** Of a wait behind something else: the tasklet's next steps wake it. */
  lemma BehindDrains(x: Pair)
    requires PairInv(x) && Behind(x) && x.p.phase.Waiting? && WillWake(x)
    ensures Woken(RunPair(x, DRAIN)) && !Succeeds(RunPair(x, DRAIN))
  {
    RunFour(x, Engine(StepCall), Engine(StepFree), Engine(StepTake), Engine(StepCall));
    var x1 := Called(x);
    var x2 := Drained(x1);
    BehindIsMisled(x2);
  }

  lemma Called(x: Pair) returns (w: Pair)
    requires PairInv(x) && Behind(x) && x.p.phase.Waiting? && WillWake(x)
    ensures w == NextPair(NextPair(x, Engine(StepCall)), Engine(StepFree)) && PairInv(w)
    ensures Behind(w) && w.p.phase.Waiting? && AtLoopHead(w.y) && (w.p.cmp > 0 || w.y.ch.done != [])
  {
    CallBehind(x);
    PairNext(x, Engine(StepCall));
    PairNext(NextPair(x, Engine(StepCall)), Engine(StepFree));
    w := NextPair(NextPair(x, Engine(StepCall)), Engine(StepFree));
  }

  lemma Drained(x: Pair) returns (w: Pair)
    requires PairInv(x) && Behind(x) && x.p.phase.Waiting? && AtLoopHead(x.y) && (x.p.cmp > 0 || x.y.ch.done != [])
    ensures w == NextPair(NextPair(x, Engine(StepTake)), Engine(StepCall)) && PairInv(w)
    ensures Woken(w) && w.y.ch.active + w.y.ch.pending != []
  {
    if x.y.ch.done != [] { HeadCallsBack(x.y); }
    TakeBehind(x);
    PairNext(x, Engine(StepTake));
    PairNext(NextPair(x, Engine(StepTake)), Engine(StepCall));
    w := NextPair(NextPair(x, Engine(StepTake)), Engine(StepCall));
  }

  lemma Issued(w: Pair) returns (x: Pair)
    requires PairInv(w) && Behind(w) && w.p.phase.Lodged? && w.p.cookie >= 0
    ensures x == NextPair(w, IssueOwn(true)) && PairInv(x) && Behind(x) && x.p.phase.Waiting?
  {
    x := MoveIssue(w, true);
    IssueInv(w, true);
    IssueBehind(w, true);
  }

  lemma Interrupted(x: Pair, status: nat) returns (w: Pair)
    requires PairInv(x) && Behind(x) && x.p.phase.Waiting? && !WillWake(x) && HasIoc(status)
    ensures w == NextPair(x, Engine(StepIrq(status, true)))
    ensures PairInv(w) && Behind(w) && w.p.phase.Waiting? && w.y.ch.done != []
  {
    w := EngineMove(x, StepIrq(status, true));
    EngineInv(x, StepIrq(status, true));
    IrqBehind(x, status);
  }

  /** A callback for something else is made, or has been, and wakes the wait. */
  lemma BehindIsWoken(w: Pair, status: nat) returns (moves: seq<Move>)
    requires PairInv(w) && Behind(w) && w.p.phase.Lodged? && w.p.cookie >= 0 && HasIoc(status)
    ensures DuringWait(moves) && Woken(RunPair(w, moves)) && !Succeeds(RunPair(w, moves))
  {
    var x := Issued(w);
    var later := WaitIsWoken(x, status);
    MoveThen(w, IssueOwn(true), later);
    moves := [IssueOwn(true)] + later;
  }

  lemma WaitIsWoken(x: Pair, status: nat) returns (moves: seq<Move>)
    requires PairInv(x) && Behind(x) && x.p.phase.Waiting? && HasIoc(status)
    ensures DuringWait(moves) && Woken(RunPair(x, moves)) && !Succeeds(RunPair(x, moves))
  {
    if WillWake(x) {
      moves := DRAIN;
      BehindDrains(x);
    } else {
      moves := [Engine(StepIrq(status, true))] + DRAIN;
      InterruptDrains(x, status);
    }
  }

  lemma InterruptDrains(x: Pair, status: nat)
    requires PairInv(x) && Behind(x) && x.p.phase.Waiting? && !WillWake(x) && HasIoc(status)
    ensures
      var w := RunPair(x, [Engine(StepIrq(status, true))] + DRAIN);
      Woken(w) && !Succeeds(w)
  {
    var w := Interrupted(x, status);
    MoveThen(x, Engine(StepIrq(status, true)), DRAIN);
    BehindDrains(w);
  }

  /** Exactly which requests are never misreported: of a request about to be accepted, every
      wait that is woken, whatever the engine does meanwhile, reports success if and only if at
      submission no completion was waiting, no callback was due, and nothing was done or active.
      Earlier requests that timed out do no harm as long as they are still pending, or already
      called back. */
  lemma ReportsExactly(z: Pair, after: nat)
    requires PairInv(z) && z.p.phase.Armed? && Accepting(z.y.ch, after)
    ensures NeverMisled(NextPair(z, SubmitOwn(after))) <==> Clear(z)
  {
    var w := JustSubmitted(z, after);
    CanSubmit(z);
    SubmitBehind(z, w, after);
    SubmittedExactly(w);
  }

  lemma CanSubmit(z: Pair)
    requires PairInv(z) && z.p.phase.Armed?
    ensures z.y.prepared != [] && !z.y.ch.cyclic && !z.y.ch.bug
  {
  }

  lemma JustSubmitted(z: Pair, after: nat) returns (w: Pair)
    requires PairInv(z) && z.p.phase.Armed?
    ensures w == NextPair(z, SubmitOwn(after)) && PairInv(w) && Together(w)
  {
    w := SubmittedInv(z, after);
    SubmitTogether(z, after);
  }

  lemma SubmittedInv(z: Pair, after: nat) returns (w: Pair)
    requires PairInv(z) && z.p.phase.Armed?
    ensures z.y.prepared != [] && w == MoveSubmit(z, after) == NextPair(z, SubmitOwn(after)) && PairInv(w)
  {
    CanSubmit(z);
    SubmitInv(z, after);
    w := SubmitMove(z, after);
  }

  lemma SubmitMove(z: Pair, after: nat) returns (w: Pair)
    requires z.p.phase.Armed? && z.y.prepared != []
    ensures w == MoveSubmit(z, after) == NextPair(z, SubmitOwn(after))
  {
    w := MoveSubmit(z, after);
  }

  lemma SubmittedExactly(w: Pair)
    requires PairInv(w) && Together(w) && w.p.phase.Lodged? && w.p.cookie >= 0
    requires !w.p.quiet ==> Behind(w)
    ensures NeverMisled(w) <==> w.p.quiet
  {
    if w.p.quiet {
      forall moves | DuringWait(moves) && Woken(RunPair(w, moves)) ensures Succeeds(RunPair(w, moves)) {
        TogetherIsTold(w, moves);
      }
    } else {
      IocWord();
      var moves := BehindIsWoken(w, IRQ_IOC);
      assert DuringWait(moves) && Woken(RunPair(w, moves)) && !Succeeds(RunPair(w, moves));
    }
  }

  // ---- Starting a request -----------------------------------------------------------------------

  datatype Started = Started(ch: State, cmp: nat, cookie: int)

  /** Prepare, arm, submit and issue, with nothing in between. */
  function StartRequest(s: State, cmp: nat, handle: nat, len: nat, mark: bool, after: nat, ok: bool): Started {
    var p := PrepSg(s, [Range(handle, len)], mark, None);
    match p.desc
    case None => Started(s, cmp, -EBUSY)
    case Some(d) =>
      var r := Submit(p.state, d.(callback := true), after);
      Started(Start(r.state, ok), 0, CookieOf(r.outcome))
  }

  /** The four moves of a request, in order. */
  function Starting(handle: nat, len: nat, mark: bool, after: nat, ok: bool): seq<Move> {
    [Prepare(handle, len, mark), Arm, SubmitOwn(after), IssueOwn(ok)]
  }

  lemma PrepareResult(z: Pair, handle: nat, len: nat, mark: bool)
    requires len > 0 && !z.y.ch.bug
    ensures
      var w := MovePrepare(z, handle, len, mark);
      var p := PrepSg(z.y.ch, [Range(handle, len)], mark, None);
      if p.desc == None then w == z.(p := z.p.(cookie := -EBUSY))
      else w.y.ch == p.state && w.y.prepared == z.y.prepared + [p.desc.value] && w.p == z.p.(phase := Prepped)
  {
    var p := PrepSg(z.y.ch, [Range(handle, len)], mark, None);
    if p.desc == None { assert z.y.(ch := p.state) == z.y; }
  }

  lemma SubmitResult(z: Pair, after: nat)
    requires z.y.prepared != [] && !z.y.ch.bug
    ensures
      var w := MoveSubmit(z, after);
      var r := Submit(z.y.ch, Last(z.y.prepared).(callback := true), after);
      && w.y.ch == r.state && w.p.phase == Lodged && w.p.cookie == CookieOf(r.outcome)
      && w.p.cmp == z.p.cmp && w.p.status == z.p.status
  {
    NextSubmitState(z.y, |z.y.prepared| - 1, after);
  }

  lemma NextSubmitState(y: System, j: nat, after: nat)
    requires j < |y.prepared|
    ensures NextSubmit(y, j, true, after).ch == Submit(y.ch, y.prepared[j].(callback := true), after).state
  {
  }

  lemma IssueResult(z: Pair, ok: bool)
    requires !z.y.ch.bug
    ensures
      var w := MoveIssue(z, ok);
      && w.y.ch == Start(z.y.ch, ok) && w.p.cmp == z.p.cmp && w.p.cookie == z.p.cookie
      && (if z.p.cookie >= 0 then w.p.phase.Waiting? && w.p.status == ProxyBusy
          else w.p.phase.Ready? && w.p.status == z.p.status)
  {
  }

  lemma NoAssertion(z: Pair, after: nat)
    requires PairInv(z) && z.p.phase.Armed?
    ensures z.y.prepared != [] && !z.y.ch.bug && !MoveSubmit(z, after).y.ch.bug
  {
    SubmitInv(z, after);
  }

  /** What the user sees of a request's start: the channel's answer, and the status word. */
  ghost predicate Answered(status: Status, w: Pair, r: Started) {
    && Started(w.y.ch, w.p.cmp, w.p.cookie) == r
    && (if r.cookie >= 0 then w.p.phase.Waiting? else w.p.phase.Ready? && w.p.status == status)
  }

  lemma ArmedRequest(z: Pair, after: nat, ok: bool)
    requires z.p.phase.Armed? && z.y.prepared != [] && !z.y.ch.bug && !MoveSubmit(z, after).y.ch.bug
    ensures
      var w := NextPair(NextPair(z, SubmitOwn(after)), IssueOwn(ok));
      var r := Submit(z.y.ch, Last(z.y.prepared).(callback := true), after);
      Answered(z.p.status, w, Started(Start(r.state, ok), z.p.cmp, CookieOf(r.outcome)))
  {
    SubmitResult(z, after);
    IssueResult(MoveSubmit(z, after), ok);
  }

  lemma RefusedRequest(z: Pair, after: nat, ok: bool)
    requires z.p.phase.Ready?
    ensures NextPair(NextPair(NextPair(z, Arm), SubmitOwn(after)), IssueOwn(ok)) == z
  {
  }

  lemma PreparedRequest(z: Pair, w: Pair, d: Desc, after: nat, ok: bool)
    requires PairInv(w) && w.p == z.p.(phase := Prepped) && w.y.prepared == z.y.prepared + [d]
    ensures
      var r := Submit(w.y.ch, d.(callback := true), after);
      Answered(z.p.status, NextPair(NextPair(NextPair(w, Arm), SubmitOwn(after)), IssueOwn(ok)),
               Started(Start(r.state, ok), 0, CookieOf(r.outcome)))
  {
    var x := w.(p := w.p.(phase := Armed, cmp := 0));
    NoAssertion(x, after);
    ArmedRequest(x, after, ok);
  }

  /** The four moves, made without interruption, are the straight-line start of a request. */
  lemma UninterruptedRequest(z: Pair, handle: nat, len: nat, mark: bool, after: nat, ok: bool)
    requires PairInv(z) && z.p.phase.Ready? && len > 0
    ensures Answered(z.p.status, RunPair(z, Starting(handle, len, mark, after, ok)),
                     StartRequest(z.y.ch, z.p.cmp, handle, len, mark, after, ok))
  {
    RunFour(z, Prepare(handle, len, mark), Arm, SubmitOwn(after), IssueOwn(ok));
    PrepareResult(z, handle, len, mark);
    PrepareInv(z, handle, len, mark);
    var w := MovePrepare(z, handle, len, mark);
    var p := PrepSg(z.y.ch, [Range(handle, len)], mark, None);
    if p.desc == None { RefusedRequest(w, after, ok); } else { PreparedRequest(z, w, p.desc.value, after, ok); }
  }

  lemma OneRange(s: State, handle: nat, len: nat)
    requires len > 0
    ensures PrepFits(s, Split([Range(handle, len)])) <==> PieceCount(len) <= |s.free|
  {
    SgFits(s, [Range(handle, len)]);
    assert SegmentsNeeded([Range(handle, len)]) == PieceCount(len) + SegmentsNeeded([]);
  }

  lemma SubmitAnswer(s: State, d: Desc, after: nat)
    ensures CookieOf(Submit(s, d, after).outcome) >= 0 <==> Accepting(s, after)
  {
  }

  predicate EngineMoves(moves: seq<Move>) {
    forall m :: m in moves ==> m.Engine?
  }

  /** What the engine does meanwhile leaves the client alone, but for completions. */
  lemma {:induction false} Meanwhile(z: Pair, moves: seq<Move>)
    requires PairInv(z) && EngineMoves(moves)
    ensures
      var w := RunPair(z, moves);
      PairInv(w) && w.p == z.p.(cmp := w.p.cmp) && w.y.prepared == z.y.prepared
    decreases |moves|
  {
    if moves != [] {
      PairNext(z, moves[0]);
      if EngineSide(moves[0].step) { EngineShape(z.y, moves[0].step); }
      Meanwhile(NextPair(z, moves[0]), moves[1..]);
    }
  }

  lemma EngineGap(z: Pair, moves: seq<Move>) returns (w: Pair)
    requires PairInv(z) && EngineMoves(moves)
    ensures w == RunPair(z, moves) && PairInv(w) && w.p == z.p.(cmp := w.p.cmp) && w.y.prepared == z.y.prepared
  {
    Meanwhile(z, moves);
    w := RunPair(z, moves);
  }

  /** A request up to its submission, with what the engine does after each of its moves. */
  function Submitting(handle: nat, len: nat, mark: bool, gap1: seq<Move>, gap2: seq<Move>): seq<Move> {
    [Prepare(handle, len, mark)] + (gap1 + ([Arm] + gap2))
  }

  lemma PrepareOutcome(z: Pair, handle: nat, len: nat, mark: bool) returns (w: Pair)
    requires PairInv(z) && z.p.phase.Ready? && len > 0
    ensures w == NextPair(z, Prepare(handle, len, mark)) && PairInv(w) && w.p.status == z.p.status
    ensures if PieceCount(len) > |z.y.ch.free| then w.p.phase.Ready? else w.p.phase.Prepped?
  {
    OneRange(z.y.ch, handle, len);
    PrepareResult(z, handle, len, mark);
    PrepareInv(z, handle, len, mark);
    w := MovePrepare(z, handle, len, mark);
  }

  lemma ArmOutcome(z: Pair) returns (w: Pair)
    requires PairInv(z)
    ensures w == NextPair(z, Arm) && PairInv(w) && w.p.status == z.p.status
    ensures w.p.phase == if z.p.phase.Prepped? then Armed else z.p.phase
  {
    PairNext(z, Arm);
    w := NextPair(z, Arm);
  }

  lemma SubmittingOutcome(z: Pair, handle: nat, len: nat, mark: bool, gap1: seq<Move>, gap2: seq<Move>)
      returns (w: Pair)
    requires PairInv(z) && z.p.phase.Ready? && len > 0 && EngineMoves(gap1) && EngineMoves(gap2)
    ensures w == RunPair(z, Submitting(handle, len, mark, gap1, gap2)) && PairInv(w) && w.p.status == z.p.status
    ensures if PieceCount(len) > |z.y.ch.free| then w.p.phase.Ready? else w.p.phase.Armed?
  {
    var prepare := Prepare(handle, len, mark);
    MoveThen(z, prepare, gap1 + ([Arm] + gap2));
    w := PrepareOutcome(z, handle, len, mark);
    RunPairConcat(w, gap1, [Arm] + gap2);
    w := EngineGap(w, gap1);
    MoveThen(w, Arm, gap2);
    w := ArmOutcome(w);
    w := EngineGap(w, gap2);
  }

  lemma SubmitOutcome(z: Pair, after: nat) returns (w: Pair)
    requires PairInv(z) && z.p.phase.Armed?
    ensures w == NextPair(z, SubmitOwn(after)) && PairInv(w) && w.p.phase.Lodged? && w.p.status == z.p.status
    ensures w.p.cookie >= 0 <==> !(z.y.ch.err && Bit(after, 2))
  {
    TestReset(after);
    CanSubmit(z);
    SubmitAnswer(z.y.ch, Last(z.y.prepared).(callback := true), after);
    w := SubmittedInv(z, after);
  }

  lemma Unmoved(z: Pair, after: nat, gap: seq<Move>, ok: bool) returns (w: Pair)
    requires PairInv(z) && z.p.phase.Ready? && EngineMoves(gap)
    ensures w == RunPair(z, [SubmitOwn(after)] + (gap + [IssueOwn(ok)]))
    ensures w.p.phase.Ready? && w.p.status == z.p.status
  {
    MoveThen(z, SubmitOwn(after), gap + [IssueOwn(ok)]);
    RunPairConcat(z, gap, [IssueOwn(ok)]);
    w := EngineGap(z, gap);
    LastMove(w, IssueOwn(ok));
  }

  lemma Lodging(z: Pair, after: nat, gap: seq<Move>, ok: bool) returns (w: Pair)
    requires PairInv(z) && z.p.phase.Armed? && EngineMoves(gap)
    ensures w == RunPair(z, [SubmitOwn(after)] + (gap + [IssueOwn(ok)]))
    ensures if z.y.ch.err && Bit(after, 2) then w.p.phase.Ready? && w.p.status == z.p.status
            else w.p.phase.Waiting?
  {
    MoveThen(z, SubmitOwn(after), gap + [IssueOwn(ok)]);
    w := SubmitOutcome(z, after);
    RunPairConcat(w, gap, [IssueOwn(ok)]);
    w := EngineGap(w, gap);
    LastMove(w, IssueOwn(ok));
    w := IssueOutcome(w, ok);
  }

  lemma LastMove(z: Pair, a: Move)
    ensures RunPair(z, [a]) == NextPair(z, a)
  {
    assert [a] == [a] + [];
    MoveThen(z, a, []);
  }

  lemma IssueOutcome(z: Pair, ok: bool) returns (w: Pair)
    requires PairInv(z) && z.p.phase.Lodged?
    ensures w == NextPair(z, IssueOwn(ok))
    ensures if z.p.cookie >= 0 then w.p.phase.Waiting? else w.p.phase.Ready? && w.p.status == z.p.status
  {
    IssueResult(z, ok);
    w := MoveIssue(z, ok);
  }

  /** Exactly when a request fails to start, whatever the engine does between its moves: when the
      pool cannot hold it at preparation, or the channel is in error at submission and its reset
      bit does not clear. The user then still reads the status of the request before. */
  lemma StartFailsExactly(z: Pair, handle: nat, len: nat, mark: bool, after: nat, ok: bool,
                          gap1: seq<Move>, gap2: seq<Move>, gap3: seq<Move>)
    requires PairInv(z) && z.p.phase.Ready? && len > 0
    requires EngineMoves(gap1) && EngineMoves(gap2) && EngineMoves(gap3)
    ensures
      var u := RunPair(z, Submitting(handle, len, mark, gap1, gap2));
      var w := RunPair(u, [SubmitOwn(after)] + (gap3 + [IssueOwn(ok)]));
      if PieceCount(len) > |z.y.ch.free| || (u.y.ch.err && Bit(after, 2)) then
        w.p.phase.Ready? && w.p.status == z.p.status
      else
        w.p.phase.Waiting?
  {
    var u := SubmittingOutcome(z, handle, len, mark, gap1, gap2);
    if u.p.phase.Ready? {
      var w := Unmoved(u, after, gap3, ok);
    } else {
      var w := Lodging(u, after, gap3, ok);
    }
  }

  lemma TestReset(after: nat)
    ensures And(after, CR_RESET) != 0 <==> Bit(after, 2)
  {
    PowersOfTwo();
    TestBit(after, 2);
  }

  // ---- What the engine has done -------------------------------------------------------------------

  predicate HonestMove(z: Pair, move: Move) {
    move.Engine? ==> Honest(z.y, move.step)
  }

  predicate HonestMoves(z: Pair, moves: seq<Move>)
    decreases |moves|
  {
    moves == [] || (HonestMove(z, moves[0]) && HonestMoves(NextPair(z, moves[0]), moves[1..]))
  }

  lemma HonestNext(z: Pair, move: Move)
    requires PairInv(z) && HonestMove(z, move) && !z.y.h.premature
    requires z.y.ch.active != [] ==> WhollyGiven(z.y.ch)
    ensures !NextPair(z, move).y.h.premature
  {
    var w := MoveSteps(z, move);
    if MoveStep(z, move).Some? { PrematureExactly(z.y, MoveStep(z, move).value); }
  }

  lemma SameEngineMove(z: Pair, move: Move)
    ensures NextPair(z, move).y.ch.sg == z.y.ch.sg
  {
    var w := MoveSteps(z, move);
    if MoveStep(z, move).Some? { SameEngine(z.y, MoveStep(z, move).value); }
  }

  lemma {:induction false} HonestRunPair(z: Pair, moves: seq<Move>)
    requires PairInv(z) && z.y.ch.sg && HonestMoves(z, moves) && !z.y.h.premature
    ensures PairInv(RunPair(z, moves)) && !RunPair(z, moves).y.h.premature
    decreases |moves|
  {
    if moves != [] {
      HonestNext(z, moves[0]);
      SameEngineMove(z, moves[0]);
      PairNext(z, moves[0]);
      HonestRunPair(NextPair(z, moves[0]), moves[1..]);
    }
  }

  /** From the user's status word to the engine: with scatter-gather and an engine that interrupts
      only for finished batches, success means that this request's descriptor was completed, and
      no descriptor ever was before the engine had finished it. */
  lemma HonestSuccess(base: nat, ctrl: nat, regs: Regs, status: Status, moves: seq<Move>)
    requires HonestMoves(Open(base, true, ctrl, regs, status), moves)
    ensures
      var z := RunPair(Open(base, true, ctrl, regs, status), moves);
      Woken(z) && Succeeds(z) ==> OwnCompleted(z.y) && !z.y.h.premature
  {
    OpenInv(base, true, ctrl, regs, status);
    HonestRunPair(Open(base, true, ctrl, regs, status), moves);
    SuccessIsOwnCompletion(RunPair(Open(base, true, ctrl, regs, status), moves), Wake);
  }

  // ---- Without scatter-gather -----------------------------------------------------------------

  /** The request is one the hardware can take as a single transfer. */
  predicate Small(move: Move) { move.Prepare? ==> move.len <= MAX_TRANS_LEN }

  predicate Single(ds: seq<Desc>) { forall d :: d in ds ==> |d.segs| == 1 }

  /** At most one transfer is queued, and all are single segments. */
  predicate OneSingle(y: System) {
    |y.ch.active| + |y.ch.pending| <= 1 && Single(y.prepared) && Single(y.ch.active) && Single(y.ch.pending)
  }

  lemma OneSingleGiven(s: State)
    requires |s.active| <= 1 && Single(s.active)
    ensures s.active != [] ==> WhollyGiven(s)
  {
    if s.active != [] {
      assert s.active == [s.active[0]];
      FlatOne(s.active[0]);
    }
  }

  lemma SmallPrepare(z: Pair, handle: nat, len: nat, mark: bool)
    requires 0 < len <= MAX_TRANS_LEN && OneSingle(z.y) && !z.y.ch.bug
    ensures OneSingle(MovePrepare(z, handle, len, mark).y)
  {
    SgFits(z.y.ch, [Range(handle, len)]);
    assert SegmentsNeeded([Range(handle, len)]) == PieceCount(len) + SegmentsNeeded([]) == 1;
    PrepareResult(z, handle, len, mark);
    PrepShape(z.y, PrepareStep(handle, len, mark));
    var x := MovePrepare(z, handle, len, mark).y;
    var p := PrepSg(z.y.ch, [Range(handle, len)], mark, None);
    if p.desc.Some? { PrepTaken(z.y.ch, Split([Range(handle, len)]), mark, None); }
  }

  /** Nothing is queued when a request is submitted, as long as no wait has timed out. */
  lemma SmallSubmit(z: Pair, after: nat)
    requires PairInv(z) && CaughtUp(z) && z.p.phase.Armed? && OneSingle(z.y)
    ensures OneSingle(MoveSubmit(z, after).y)
  {
    NothingQueued(z);
    SubmitShape(z.y, |z.y.prepared| - 1, after);
    assert z.y.prepared[|z.y.prepared| - 1] in z.y.prepared;
  }

  lemma NothingQueued(z: Pair)
    requires PairInv(z) && CaughtUp(z) && z.p.phase.Armed?
    ensures z.y.ch.active == [] && z.y.ch.pending == [] && z.y.prepared != [] && !z.y.ch.cyclic && !z.y.ch.bug
  {
    assert |z.y.h.submitted| == |z.y.h.freed + z.y.held| + |Listed(z.y.ch)|;
  }

  lemma EngineSingle(y: System, step: Step)
    requires EngineSide(step) && OneSingle(y)
    ensures OneSingle(Next(y, step))
  {
    if step.StepIrq? { IrqDecides(y.ch, step.status, step.ok); }
  }

  lemma IssueSingle(y: System, ok: bool)
    requires OneSingle(y)
    ensures OneSingle(Next(y, StepIssue(ok)))
  {
  }

  lemma SmallNext(z: Pair, move: Move)
    requires PairInv(z) && CaughtUp(z) && OneSingle(z.y) && Small(move)
    ensures OneSingle(NextPair(z, move).y)
  {
    match move
    case Engine(step) => if EngineSide(step) { EngineSingle(z.y, step); }
    case Prepare(handle, len, mark) => if z.p.phase.Ready? && len > 0 { SmallPrepare(z, handle, len, mark); }
    case SubmitOwn(after) => if z.p.phase.Armed? { SmallSubmit(z, after); }
    case IssueOwn(ok) => IssueSingle(z.y, ok);
    case _ =>
  }

  lemma {:induction false} SmallRun(z: Pair, moves: seq<Move>)
    requires PairInv(z) && CaughtUp(z) && OneSingle(z.y) && !z.y.h.premature
    requires HonestMoves(z, moves) && NeverTimesOut(moves) && forall m :: m in moves ==> Small(m)
    ensures PairInv(RunPair(z, moves)) && !RunPair(z, moves).y.h.premature
    decreases |moves|
  {
    if moves != [] {
      OneSingleGiven(z.y.ch);
      HonestNext(z, moves[0]);
      SmallNext(z, moves[0]);
      CaughtUpNext(z, moves[0]);
      PairNext(z, moves[0]);
      SmallRun(NextPair(z, moves[0]), moves[1..]);
    }
  }

  /** Without scatter-gather the same holds as long as requests fit a single transfer and no wait
      times out. */
  lemma HonestSimpleSuccess(base: nat, ctrl: nat, regs: Regs, status: Status, moves: seq<Move>)
    requires HonestMoves(Open(base, false, ctrl, regs, status), moves)
    requires NeverTimesOut(moves) && forall m :: m in moves ==> Small(m)
    ensures
      var z := RunPair(Open(base, false, ctrl, regs, status), moves);
      Woken(z) && Succeeds(z) ==> OwnCompleted(z.y) && !z.y.h.premature
  {
    OpenInv(base, false, ctrl, regs, status);
    SmallRun(Open(base, false, ctrl, regs, status), moves);
    SuccessIsOwnCompletion(RunPair(Open(base, false, ctrl, regs, status), moves), Wake);
  }

  // ---- The ring under the proxy -------------------------------------------------------------------

  /** A failed reset leaves a descriptor prepared; the next request's is then submitted out of
      order. Only that takes the proxy's channel off the ring. */
  lemma ProxyKeepsRingExactly(z: Pair, move: Move)
    requires PairInv(z) && RingInv(z.y)
    ensures RingInv(NextPair(z, move).y) <==>
            (move.SubmitOwn? && z.p.phase.Armed? && Accepting(z.y.ch, move.after) ==>
               |z.y.prepared| == 1 || (Queued(z.y) == [] && z.y.ch.free == []))
  {
    var w := MoveSteps(z, move);
    if MoveStep(z, move).Some? {
      RingNext(z.y, MoveStep(z, move).value);
      StepKeepsRing(z, move);
    }
  }

  lemma StepKeepsRing(z: Pair, move: Move)
    requires PairInv(z) && MoveStep(z, move).Some?
    ensures KeepsRing(z.y, MoveStep(z, move).value) <==>
            (move.SubmitOwn? && Accepting(z.y.ch, move.after) ==>
               |z.y.prepared| == 1 || (Queued(z.y) == [] && z.y.ch.free == []))
  {
  }

  /** Every reset the proxy's submissions need succeeds. */
  predicate Resets(z: Pair, moves: seq<Move>)
    decreases |moves|
  {
    moves == [] ||
    ((moves[0].SubmitOwn? ==> Accepting(z.y.ch, moves[0].after)) && Resets(NextPair(z, moves[0]), moves[1..]))
  }

  /** At most the request being prepared holds a prepared descriptor. */
  predicate OnePrepared(z: Pair) {
    |z.y.prepared| == if z.p.phase.Prepped? || z.p.phase.Armed? then 1 else 0
  }

  lemma OnePreparedNext(z: Pair, move: Move)
    requires PairInv(z) && OnePrepared(z) && (move.SubmitOwn? ==> Accepting(z.y.ch, move.after))
    ensures OnePrepared(NextPair(z, move))
  {
    match move
    case Engine(step) => if EngineSide(step) { EngineShape(z.y, step); }
    case Prepare(handle, len, mark) => PrepShape(z.y, PrepareStep(handle, len, mark));
    case SubmitOwn(after) => if z.p.phase.Armed? { OneSubmitted(z, after); }
    case IssueOwn(ok) => IssueShape(z.y, ok);
    case _ =>
  }

  lemma OneSubmitted(z: Pair, after: nat)
    requires |z.y.prepared| == 1 && !z.y.ch.cyclic && !z.y.ch.bug && Accepting(z.y.ch, after)
    ensures MoveSubmit(z, after).y.prepared == []
  {
    SubmitShape(z.y, 0, after);
  }

  lemma {:induction false} ProxyOnRing(z: Pair, moves: seq<Move>)
    requires PairInv(z) && RingInv(z.y) && OnePrepared(z) && BatchRegs(z.y.ch) && Resets(z, moves)
    ensures PairInv(RunPair(z, moves)) && RingInv(RunPair(z, moves).y) && BatchRegs(RunPair(z, moves).y.ch)
    decreases |moves|
  {
    if moves != [] {
      PairNext(z, moves[0]);
      OnePreparedNext(z, moves[0]);
      ProxyKeepsRingExactly(z, moves[0]);
      ProxyBatch(z, moves[0]);
      ProxyOnRing(NextPair(z, moves[0]), moves[1..]);
    }
  }

  lemma ProxyBatch(z: Pair, move: Move)
    requires PairInv(z) && BatchRegs(z.y.ch)
    ensures BatchRegs(NextPair(z, move).y.ch)
  {
    var w := MoveSteps(z, move);
    if MoveStep(z, move).Some? { BatchRegsNext(z.y, MoveStep(z, move).value); }
  }

  /** As long as its resets succeed, every transfer the proxy starts is walked exactly. */
  lemma ProxyTransfersWalked(base: nat, ctrl: nat, regs: Regs, status: Status, moves: seq<Move>)
    requires Resets(Open(base, true, ctrl, regs, status), moves)
    ensures
      var s := RunPair(Open(base, true, ctrl, regs, status), moves).y.ch;
      s.active != [] ==> Visits(s, s.active)
  {
    var o := Open(base, true, ctrl, regs, status);
    OpenInv(base, true, ctrl, regs, status);
    BootRing(base, true, ctrl, regs);
    ProxyOnRing(o, moves);
    RingWalk(RunPair(o, moves).y);
  }
}
