/** The proxy on an engine without scatter-gather: every request of more than one segment is
    reported as a success of which the engine was never given more than the first segment. */
module LongTransfers {
  import opened ChannelState
  import opened Decisions
  import opened Hazards
  import opened Memory
  import opened Options
  import opened Preparation
  import opened Progress
  import opened Proxy
  import opened ProxyHazards
  import opened Queues
  import opened Registers
  import opened Requests
  import opened Runs
  import opened SimpleMode
  import opened Splitting

  /** What follows the request's start: its transfer finishes, its interrupt and callback come. */
  const SERVED: seq<Move> := [Engine(StepHwFinish)] + ([Engine(COMPLETE)] + TELL)
  const TELL: seq<Move> := [Engine(StepTake), Engine(StepCall), Wake]

  predicate Long(s: State, len: nat) { 1 < PieceCount(len) <= |s.free| }

  lemma LongPrepare(z: Pair, handle: nat, len: nat, mark: bool) returns (w: Pair)
    requires Light(z.y) && z.p.phase.Ready? && Long(z.y.ch, len) && PairInv(z) && len > 0
    ensures w == NextPair(z, Prepare(handle, len, mark)) && w.p.phase.Prepped? && PairInv(w)
    ensures w.y == Next(z.y, PrepareStep(handle, len, mark))
    ensures |w.y.prepared| == 1 && |w.y.prepared[0].segs| == PieceCount(len) && !w.y.prepared[0].cyclic
    ensures Light(w.y.(prepared := [])) && TallyOf(w.y) == TallyOf(z.y) && w.y.h == z.y.h && w.y.ch.sg == z.y.ch.sg
    ensures w.y.ch.idle == z.y.ch.idle && w.y.ch.count == z.y.ch.count
  {
    var ps := Split([Range(handle, len)]);
    OneRange(z.y.ch, handle, len);
    SgFits(z.y.ch, [Range(handle, len)]);
    assert SegmentsNeeded([Range(handle, len)]) == PieceCount(len) + SegmentsNeeded([]);
    assert TotalLength([Range(handle, len)]) == len + TotalLength([]);
    PrepareInv(z, handle, len, mark);
    PrepTaken(z.y.ch, ps, mark, None);
    PrepFrame(z.y.ch, ps, mark, None);
    w := MovePrepare(z, handle, len, mark);
  }

  /** The transfer is one descriptor of several segments, on a sound and quiet channel. */
  ghost predicate LongActive(y: System) {
    Light(y) && TallyOf(y) == Tally(1, 0, 0, 0, 0, 1, 0) && |y.ch.active[0].segs| > 1 && !y.ch.sg && Unserved(y)
  }

  predicate Unserved(y: System) { y.h.finished == 0 && !y.h.lost && !y.h.premature }

  lemma LongSubmit(y: System) returns (x: System)
    requires |y.prepared| == 1 && !y.prepared[0].cyclic && Light(y.(prepared := [])) && y.ch.idle
    requires y.ch.count < COALESCE_MAX && TallyOf(y) == Tally(0, 0, 0, 0, 0, 0, 0) && Unserved(y)
    ensures x == Next(y, StepSubmit(0, true, 0)) && Light(x) && x.ch.idle && x.ch.sg == y.ch.sg && Unserved(x)
    ensures TallyOf(x) == Tally(1, 0, 0, 0, 0, 0, 1) && x.ch.pending[0].segs == y.prepared[0].segs
    ensures Submit(y.ch, y.prepared[0].(callback := true), 0).outcome.Accepted?
  {
    SubmitOne(y);
    x := Next(y, StepSubmit(0, true, 0));
  }

  lemma LongIssue(y: System) returns (x: System)
    requires Light(y) && y.ch.idle && !y.ch.sg && Unserved(y)
    requires TallyOf(y) == Tally(1, 0, 0, 0, 0, 0, 1) && |y.ch.pending[0].segs| > 1
    ensures x == Next(y, StepIssue(true)) && LongActive(x) && x.ch == Start(y.ch, true) && CanStart(y.ch)
    ensures x.ch.hw == y.ch.hw && x.ch.active == y.ch.pending
  {
    IssueOne(y);
    StartMemorySame(y);
    x := Next(y, StepIssue(true));
  }

  /** A long request, submitted. */
  lemma LongLodged(z: Pair, handle: nat, len: nat, mark: bool) returns (w: Pair)
    requires PairInv(z) && Light(z.y) && z.p.phase.Ready? && Long(z.y.ch, len) && len > 0 && !z.y.ch.sg
    requires z.y.ch.idle && TallyOf(z.y) == Tally(0, 0, 0, 0, 0, 0, 0) && Unserved(z.y)
    ensures w == NextPair(NextPair(NextPair(z, Prepare(handle, len, mark)), Arm), SubmitOwn(0)) && PairInv(w)
    ensures w.y == Next(Next(z.y, PrepareStep(handle, len, mark)), StepSubmit(0, true, 0))
    ensures Light(w.y) && w.y.ch.idle && !w.y.ch.sg && Unserved(w.y)
    ensures TallyOf(w.y) == Tally(1, 0, 0, 0, 0, 0, 1) && |w.y.ch.pending[0].segs| > 1
    ensures w.p.phase.Lodged? && w.p.cookie >= 0 && w.p.cmp == 0
  {
    var w1 := LongPrepare(z, handle, len, mark);
    PairNext(w1, Arm);
    w := LongAccepted(NextPair(w1, Arm));
  }

  lemma LongAccepted(z: Pair) returns (w: Pair)
    requires PairInv(z) && z.p.phase.Armed? && z.p.cmp == 0
    requires |z.y.prepared| == 1 && !z.y.prepared[0].cyclic && Light(z.y.(prepared := [])) && z.y.ch.idle
    requires z.y.ch.count < COALESCE_MAX && TallyOf(z.y) == Tally(0, 0, 0, 0, 0, 0, 0) && Unserved(z.y)
    ensures w == NextPair(z, SubmitOwn(0)) && PairInv(w) && w.y == Next(z.y, StepSubmit(0, true, 0))
    ensures Light(w.y) && w.y.ch.idle && w.y.ch.sg == z.y.ch.sg && Unserved(w.y)
    ensures TallyOf(w.y) == Tally(1, 0, 0, 0, 0, 0, 1) && w.y.ch.pending[0].segs == z.y.prepared[0].segs
    ensures w.p.phase.Lodged? && w.p.cookie >= 0 && w.p.cmp == 0
  {
    var y := LongSubmit(z.y);
    w := SubmittedInv(z, 0);
    assert w == MoveSubmit(z, 0) && w.y == y;
  }

  /** The request's four moves, and the channel as its start finds it. */
  lemma LongStarts(z: Pair, handle: nat, len: nat, mark: bool) returns (y: System, w: Pair)
    requires PairInv(z) && Light(z.y) && z.p.phase.Ready? && Long(z.y.ch, len) && len > 0 && !z.y.ch.sg
    requires z.y.ch.idle && TallyOf(z.y) == Tally(0, 0, 0, 0, 0, 0, 0) && Unserved(z.y)
    ensures y == Next(Next(z.y, PrepareStep(handle, len, mark)), StepSubmit(0, true, 0)) && CanStart(y.ch)
    ensures |y.ch.pending| == 1 && |y.ch.pending[0].segs| > 1
    ensures w == RunPair(z, Starting(handle, len, mark, 0, true)) && PairInv(w) && LongActive(w.y)
    ensures w.y.ch == Start(y.ch, true) && w.y.ch.hw == y.ch.hw && w.y.ch.active == y.ch.pending
    ensures w.p.phase.Waiting? && w.p.cmp == 0
  {
    RunFour(z, Prepare(handle, len, mark), Arm, SubmitOwn(0), IssueOwn(true));
    var w3 := LongLodged(z, handle, len, mark);
    y := w3.y;
    var x := LongIssue(y);
    w := IssuedInv(w3, true);
  }

  /** It programs the engine with less than the request. */
  lemma PartlyProgrammed(base: nat, ctrl: nat, regs: Regs, prepare: Step, submit: Step)
    requires
      var s := Next(Next(Boot(base, false, ctrl, regs), prepare), submit).ch;
      CanStart(s) && |s.pending| == 1 && |s.pending[0].segs| > 1
    ensures
      var s := Next(Next(Boot(base, false, ctrl, regs), prepare), submit).ch;
      Programmed(Start(s, true)) != Bytes(Described(s.hw, Flat(s.pending)))
  {
    var y0 := Boot(base, false, ctrl, regs);
    var s := Next(Next(y0, prepare), submit).ch;
    RunTwoSteps(y0, Next(y0, prepare), prepare, submit);
    SimpleStartExact(base, ctrl, regs, [prepare, submit]);
    assert s.pending == [s.pending[0]];
    FlatOne(s.pending[0]);
  }

  // ---- What the user is told ----------------------------------------------------------------------

  /** The engine finishes the one transfer it was given. */
  lemma LongFinishes(z: Pair) returns (w: Pair)
    requires PairInv(z) && LongActive(z.y) && z.p.phase.Waiting? && z.p.cmp == 0
    ensures w == NextPair(z, Engine(StepHwFinish)) && PairInv(w) && w.p == z.p && w.y.ch == z.y.ch
    ensures Light(w.y) && TallyOf(w.y) == Tally(1, 0, 0, 0, 0, 1, 0) && |w.y.ch.active[0].segs| > 1 && !w.y.ch.sg
    ensures w.y.h.finished == 1 && !w.y.h.lost && !w.y.h.premature
  {
    EngineInv(z, StepHwFinish);
    w := EngineMove(z, StepHwFinish);
  }

  /** It may then interrupt, and the whole batch is taken for done. */
  lemma LongCompletes(z: Pair, status: nat)
    requires ChannelInv(z.y) && Light(z.y) && z.y.h.finished == 1 && !z.y.h.lost && !z.y.h.premature && !z.y.ch.sg
    requires |z.y.ch.active| == 1 && |z.y.ch.active[0].segs| > 1
    ensures Honest(z.y, StepIrq(status, true))
    ensures HasIoc(status) ==> Next(z.y, StepIrq(status, true)).h.premature
  {
    assert z.y.ch.active == [z.y.ch.active[0]];
    FlatOne(z.y.ch.active[0]);
    PrematureExactly(z.y, StepIrq(status, true));
  }

  lemma LongInterrupts(z: Pair) returns (w: Pair)
    requires PairInv(z) && Light(z.y) && TallyOf(z.y) == Tally(1, 0, 0, 0, 0, 1, 0) && !z.y.ch.sg
    requires |z.y.ch.active[0].segs| > 1 && z.y.h.finished == 1 && !z.y.h.lost && !z.y.h.premature
    ensures w == NextPair(z, Engine(COMPLETE)) && PairInv(w) && w.p == z.p && HonestMove(z, Engine(COMPLETE))
    ensures Light(w.y) && TallyOf(w.y) == Tally(1, 0, 0, 0, 1, 0, 0) && w.y.h.premature
  {
    IocWord();
    Completes(z);
    w := Interrupt(z, IRQ_IOC);
    LongCompletes(z, IRQ_IOC);
  }

  lemma Interrupt(z: Pair, status: nat) returns (w: Pair)
    requires PairInv(z)
    ensures w == NextPair(z, Engine(StepIrq(status, true))) && PairInv(w) && w.y == Next(z.y, StepIrq(status, true))
  {
    EngineInv(z, StepIrq(status, true));
    w := EngineMove(z, StepIrq(status, true));
  }

  /** The tasklet's callback is made. */
  lemma LongCalled(z: Pair) returns (w: Pair)
    requires PairInv(z) && z.p.phase.Waiting? && z.p.cmp == 0
    requires Light(z.y) && TallyOf(z.y) == Tally(1, 0, 0, 0, 1, 0, 0) && z.y.h.premature
    ensures w == NextPair(NextPair(z, Engine(StepTake)), Engine(StepCall)) && PairInv(w) && Woken(w)
    ensures w.y.h.premature && w.y.h.submitted != [] && w.y.ch.active == [] && w.y.ch.pending == []
  {
    var u := NextPair(z, Engine(StepTake));
    HeadCalled(z);
    PairNext(z, Engine(StepTake));
    PairNext(u, Engine(StepCall));
    OnlyIrqIsPremature(z.y, StepTake);
    OnlyIrqIsPremature(u.y, StepCall);
    w := NextPair(u, Engine(StepCall));
  }

  /** And wakes the wait, which reports success. */
  lemma LongReported(z: Pair) returns (w: Pair)
    requires PairInv(z) && Woken(z) && z.y.h.submitted != [] && z.y.ch.active == [] && z.y.ch.pending == []
    ensures w == NextPair(z, Wake) && w.y == z.y && w.p.phase.Ready? && w.p.status == NoError
  {
    OwnLeft(z.y);
    SuccessIsOwnCompletion(z, Wake);
    w := NextPair(z, Wake);
  }

  lemma LongServed(z: Pair) returns (w: Pair)
    requires PairInv(z) && LongActive(z.y) && z.p.phase.Waiting? && z.p.cmp == 0
    ensures w == RunPair(z, SERVED) && HonestMoves(z, SERVED)
    ensures w.p.phase.Ready? && w.p.status == NoError && w.y.h.premature
  {
    var u := LongFinishes(z);
    w := LongWoken(u);
    HonestMoveThen(z, Engine(StepHwFinish), u, [Engine(COMPLETE)] + TELL);
  }

  lemma LongWoken(z: Pair) returns (w: Pair)
    requires PairInv(z) && z.p.phase.Waiting? && z.p.cmp == 0
    requires Light(z.y) && TallyOf(z.y) == Tally(1, 0, 0, 0, 0, 1, 0) && !z.y.ch.sg
    requires |z.y.ch.active[0].segs| > 1 && z.y.h.finished == 1 && !z.y.h.lost && !z.y.h.premature
    ensures w == RunPair(z, [Engine(COMPLETE)] + TELL) && HonestMoves(z, [Engine(COMPLETE)] + TELL)
    ensures w.p.phase.Ready? && w.p.status == NoError && w.y.h.premature
  {
    var u := LongInterrupts(z);
    w := LongTold(u);
    HonestMoveThen(z, Engine(COMPLETE), u, TELL);
  }

  lemma LongTold(z: Pair) returns (w: Pair)
    requires PairInv(z) && z.p.phase.Waiting? && z.p.cmp == 0
    requires Light(z.y) && TallyOf(z.y) == Tally(1, 0, 0, 0, 1, 0, 0) && z.y.h.premature
    ensures w == RunPair(z, TELL) && HonestMoves(z, TELL)
    ensures w.p.phase.Ready? && w.p.status == NoError && w.y.h.premature
  {
    var v := LongCalled(z);
    w := LongReported(v);
    RunThreeMoves(z, Engine(StepTake), Engine(StepCall), Wake);
    QuietHonest(z, TELL);
  }

  lemma HonestMoveThen(z: Pair, a: Move, u: Pair, rest: seq<Move>)
    requires u == NextPair(z, a) && HonestMove(z, a) && HonestMoves(u, rest)
    ensures HonestMoves(z, [a] + rest) && RunPair(z, [a] + rest) == RunPair(u, rest)
  {
    assert ([a] + rest)[1..] == rest;
  }

  /** Moves without an interrupt are honest. */
  predicate Quiet(moves: seq<Move>) {
    forall m :: m in moves ==> !(m.Engine? && m.step.StepIrq?)
  }

  lemma QuietHonest(z: Pair, moves: seq<Move>)
    requires Quiet(moves)
    ensures HonestMoves(z, moves)
  {
    assert moves + [] == moves;
    HonestLater(z, moves, []);
  }

  lemma {:induction false} HonestLater(z: Pair, a: seq<Move>, b: seq<Move>)
    requires Quiet(a) && HonestMoves(RunPair(z, a), b)
    ensures HonestMoves(z, a + b)
    decreases |a|
  {
    if a == [] {
      assert a + b == b;
    } else {
      assert (a + b)[1..] == a[1..] + b;
      HonestLater(NextPair(z, a[0]), a[1..], b);
    }
  }

  /** Every request that needs more than one segment, and fits the pool: the engine, which keeps
      its promise, is programmed with something else than the request describes, and the user
      reads success. */
  lemma LongTransferLies(base: nat, ctrl: nat, regs: Regs, status: Status, handle: nat, len: nat, mark: bool)
    requires MAX_TRANS_LEN < len && PieceCount(len) <= NUM_DESCS
    ensures
      var o := Open(base, false, ctrl, regs, status);
      var starting := Starting(handle, len, mark, 0, true);
      var z, w := RunPair(o, starting), RunPair(o, starting + SERVED);
      && HonestMoves(o, starting + SERVED)
      && |z.y.ch.active| == 1 && Programmed(z.y.ch) != Bytes(Described(z.y.ch.hw, Flat(z.y.ch.active)))
      && w.p.phase.Ready? && w.p.status == NoError && w.y.h.premature
  {
    var o := Open(base, false, ctrl, regs, status);
    var starting := Starting(handle, len, mark, 0, true);
    OpenInv(base, false, ctrl, regs, status);
    var y, z := LongStarts(o, handle, len, mark);
    PartlyProgrammed(base, ctrl, regs, PrepareStep(handle, len, mark), StepSubmit(0, true, 0));
    var w := LongServed(z);
    RunPairConcat(o, starting, SERVED);
    HonestLater(o, starting, SERVED);
  }
}
