/** Concrete runs: what goes wrong when a condition of the theorems is not met. */
module Hazards {
  import opened Bits
  import opened ChannelState
  import opened Decisions
  import opened Memory
  import opened Options
  import opened Pool
  import opened Preparation
  import opened Progress
  import opened Queues
  import opened Registers
  import opened Runs
  import opened Splitting
  import opened Walk

  const PREP_ONE := StepPrepSg([Range(0, 1)], false, None)
  const COMPLETE := StepIrq(IRQ_IOC, true)

  function SubmitNth(j: nat): Step { StepSubmit(j, false, 0) }

  lemma OneByte()
    ensures Split([Range(0, 1)]) == [Range(0, 1)]
  {
    assert Pieces(0, 1) == [Range(0, 1)] + Pieces(1, 0);
    assert Split([Range(0, 1)]) == Pieces(0, 1) + Split([]);
  }

  function OneDesc(s: State): Desc
    requires s.free != []
  {
    Desc([s.free[0]], Addr(s.base, s.free[0]), false, false, 0)
  }

  /** Preparing a one-byte transfer takes the head of the free list. */
  lemma PrepOne(y: System)
    requires !y.ch.bug && y.ch.free != []
    ensures
      var z := Next(y, PREP_ONE);
      && z == y.(ch := y.ch.(free := y.ch.free[1..], hw := z.ch.hw), prepared := y.prepared + [OneDesc(y.ch)])
      && SameLinks(y.ch.hw, z.ch.hw)
  {
    OneByte();
    PrepFrame(y.ch, Split([Range(0, 1)]), false, None);
    assert y.ch.free[..1] == [y.ch.free[0]];
  }

  /** Submitting on a sound, non-cyclic channel queues the descriptor. */
  lemma SubmitSound(y: System, j: nat)
    requires !y.ch.bug && !y.ch.err && !y.ch.cyclic && j < |y.prepared| && y.ch.count < COALESCE_MAX
    ensures
      var z := Next(y, SubmitNth(j));
      var d := y.prepared[j].(callback := false, cookie := y.ch.cookie + 1);
      && z.prepared == Remove(y.prepared, j) && z.held == y.held
      && z.ch.pending == y.ch.pending + [d] && z.ch.active == y.ch.active && z.ch.done == y.ch.done
      && z.ch.free == y.ch.free && z.ch.base == y.ch.base && z.ch.sg == y.ch.sg && z.ch.hw == Append(y.ch, d).hw
      && z.ch.idle == y.ch.idle && !z.ch.err && !z.ch.bug && z.ch.count == y.ch.count + 1
      && z.ch.cyclic == d.cyclic
  {
  }

  // ---- The assertion ---------------------------------------------------------------------

  /** Nothing queued or prepared, the whole pool free, but n descriptors still counted. */
  predicate Overcounted(y: System, n: nat) {
    && y.prepared == [] && y.held == [] && y.ch.pending == [] && y.ch.active == [] && y.ch.done == []
    && |y.ch.free| == NUM_DESCS && y.ch.count == n && y.ch.idle && !y.ch.err && !y.ch.cyclic && !y.ch.bug
  }

  /** Prepare, submit, terminate. */
  function Round(): seq<Step> { [PREP_ONE, SubmitNth(0), StepTerminate(true)] }

  function Rounds(n: nat): seq<Step> {
    if n == 0 then [] else Rounds(n - 1) + Round()
  }

  lemma RunThree(y: System, a: Step, b: Step, c: Step)
    ensures Run(y, [a, b, c]) == Next(Next(Next(y, a), b), c)
  {
    assert [a, b, c] == [a] + [b, c] && [b, c] == [b] + [c] && [c] == [c] + [];
    RunStep(y, a, [b, c]);
    RunStep(Next(y, a), b, [c]);
    RunStep(Next(Next(y, a), b), c, []);
  }

  lemma TerminateSound(y: System)
    requires !y.ch.bug && !y.ch.err && !y.ch.cyclic
    ensures
      var z := Next(y, StepTerminate(true));
      && !z.ch.err && !z.ch.cyclic && !z.ch.bug && z.ch.count == y.ch.count && z.ch.idle == y.ch.idle
      && z.prepared == y.prepared && z.held == y.held
  {
  }

  /** Terminating with one pending descriptor and nothing else returns its segments. */
  lemma TerminatePending(y: System, d: Desc)
    requires !y.ch.bug && !y.ch.err && !y.ch.cyclic && y.held == []
    requires y.ch.pending == [d] && y.ch.active == [] && y.ch.done == []
    ensures
      var z := Next(y, StepTerminate(true));
      z.ch.free == y.ch.free + d.segs && z.ch.pending == [] && z.ch.active == [] && z.ch.done == []
  {
    TerminateShape(y.ch, true);
    assert y.ch.pending + y.ch.done + y.ch.active == [d];
    FlatOne(d);
  }

  lemma OneRound(y: System, n: nat)
    requires Overcounted(y, n) && n < COALESCE_MAX
    ensures Overcounted(Run(y, Round()), n + 1)
  {
    var y1 := Next(y, PREP_ONE);
    var y2 := Next(y1, SubmitNth(0));
    PrepOne(y);
    SubmitSound(y1, 0);
    var d := y2.ch.pending[0];
    assert y2.ch.pending == [d] && d.segs == [y.ch.free[0]];
    TerminatePending(y2, d);
    TerminateSound(y2);
    RunThree(y, PREP_ONE, SubmitNth(0), StepTerminate(true));
  }

  lemma {:induction false} ManyRounds(y: System, n: nat)
    requires Overcounted(y, 0) && n <= COALESCE_MAX
    ensures Overcounted(Run(y, Rounds(n)), n)
  {
    if n > 0 {
      ManyRounds(y, n - 1);
      OneRoundMore(y, Rounds(n - 1), n - 1);
    }
  }

  lemma OneRoundMore(y: System, front: seq<Step>, n: nat)
    requires Overcounted(Run(y, front), n) && n < COALESCE_MAX
    ensures Overcounted(Run(y, front + Round()), n + 1)
  {
    RunConcat(y, front, Round());
    OneRound(Run(y, front), n);
  }

  /** 255 rounds of prepare, submit, terminate, and one more submission, fire the assertion,
      although no descriptor is pending at the time. */
  lemma AssertionFires(base: nat, sg: bool, ctrl: nat, regs: Regs)
    ensures Run(Boot(base, sg, ctrl, regs), Rounds(COALESCE_MAX)).ch.pending == []
    ensures Run(Boot(base, sg, ctrl, regs), Rounds(COALESCE_MAX) + [PREP_ONE, SubmitNth(0)]).ch.bug
  {
    var y0 := Boot(base, sg, ctrl, regs);
    ManyRounds(y0, COALESCE_MAX);
    var y := Run(y0, Rounds(COALESCE_MAX));
    PrepOne(y);
    var z := Next(y, PREP_ONE);
    BootChannel(base, sg, ctrl, regs);
    RunConcat(y0, Rounds(COALESCE_MAX), [PREP_ONE, SubmitNth(0)]);
    assert [PREP_ONE, SubmitNth(0)][1..] == [SubmitNth(0)] && [SubmitNth(0)][1..] == [];
    SubmitAtLimit(z);
  }

  /** One such round, and the next transfer is started as a batch that cannot complete. */
  lemma StaleCountReachable(base: nat, ctrl: nat, regs: Regs)
    ensures
      var z := Run(Boot(base, true, ctrl, regs), Round() + [PREP_ONE, SubmitNth(0), StepIssue(true)]);
      z.ch.active != [] && z.h.lag == 1 && Stuck(z)
  {
    var y0 := Boot(base, true, ctrl, regs);
    OneRound(y0, 0);
    var y := Run(y0, Round());
    BootChannel(base, true, ctrl, regs);
    BatchRegsInEveryRun(y0, Round() + [PREP_ONE, SubmitNth(0), StepIssue(true)]);
    ChannelInEveryRun(y0, Round());
    RunConcat(y0, Round(), [PREP_ONE, SubmitNth(0), StepIssue(true)]);
    AfterRound(y);
  }

  lemma AfterRound(y: System)
    requires Overcounted(y, 1) && Counted(y) && y.ch.idle
    ensures
      var z := Run(y, [PREP_ONE, SubmitNth(0), StepIssue(true)]);
      z.ch.active != [] && z.h.lag == 1
  {
    RunThree(y, PREP_ONE, SubmitNth(0), StepIssue(true));
    OneTransfer(y);
  }

  /** One transfer on a quiet channel. */
  lemma OneTransfer(y: System)
    requires !y.ch.bug && !y.ch.err && !y.ch.cyclic && y.ch.idle && y.ch.count < COALESCE_MAX
    requires y.prepared == [] && y.ch.pending == [] && y.ch.active == [] && |y.ch.free| > 1
    ensures
      var z := Next(Next(Next(y, PREP_ONE), SubmitNth(0)), StepIssue(true));
      && |z.ch.active| == 1 && !z.ch.idle && z.h.lag == y.h.stale && !z.h.lost
      && z.prepared == [] && z.ch.free == y.ch.free[1..] && z.ch.pending == []
      && !z.ch.bug && !z.ch.err && !z.ch.cyclic && z.ch.count == 0
  {
    var y1 := Next(y, PREP_ONE);
    PrepOne(y);
    SubmitSound(y1, 0);
    IssueCounts(Next(y1, SubmitNth(0)));
  }

  lemma IssueCounts(y: System)
    requires CanStart(y.ch) && !y.ch.bug
    ensures
      var z := Next(y, StepIssue(true));
      && z.ch.active == y.ch.active + y.ch.pending && z.ch.pending == [] && !z.ch.idle && !z.ch.err
      && z.ch.count == 0 && z.ch.bug == y.ch.bug && z.ch.cyclic == y.ch.cyclic && z.ch.free == y.ch.free
      && z.prepared == y.prepared && z.h.lag == y.h.stale && !z.h.lost
  {
  }

  const FAIL := StepIrq(IRQ_ERROR, true)

  lemma FailSound(y: System)
    requires !y.ch.bug
    ensures Next(y, FAIL) == y.(ch := y.ch.(err := true))
  {
    ErrorWord();
    ErrorOnly(y, IRQ_ERROR);
  }

  lemma ErrorOnly(y: System, status: nat)
    requires And(status, IRQ_ERROR) != 0 && !HasIoc(status)
    ensures NextIrq(y, status, true) == y.(ch := y.ch.(err := true))
  {
    HasIocBit(status);
    IrqDecides(y.ch, status, true);
    assert y.ch.err || Bit(status, 14);
  }

  lemma SubmitAfterError(y: System)
    requires !y.ch.bug && y.ch.err && !y.ch.cyclic && y.prepared != []
    ensures
      var z := Next(y, SubmitNth(0));
      z.ch.active == y.ch.active && z.ch.idle == y.ch.idle && z.h.lost && !z.ch.err
  {
    BitZero(2);
    SubmitDecides(y.ch, y.prepared[0].(callback := false), 0);
    SubmitBusy(y.ch, y.prepared[0].(callback := false), 0);
  }

  /** An error interrupt, then a submission that resets the engine: the batch in progress is
      lost, and the channel stays busy with it. */
  lemma LostBatchReachable(base: nat, sg: bool, ctrl: nat, regs: Regs)
    ensures
      var z := Run(Boot(base, sg, ctrl, regs),
                   [PREP_ONE, SubmitNth(0), StepIssue(true)] + [FAIL, PREP_ONE, SubmitNth(0)]);
      !z.ch.err && !z.ch.idle && z.h.lost && Stuck(z)
  {
    var y0 := Boot(base, sg, ctrl, regs);
    RunConcat(y0, [PREP_ONE, SubmitNth(0), StepIssue(true)], [FAIL, PREP_ONE, SubmitNth(0)]);
    RunThree(y0, PREP_ONE, SubmitNth(0), StepIssue(true));
    OneTransfer(y0);
    var y := Run(y0, [PREP_ONE, SubmitNth(0), StepIssue(true)]);
    RunThree(y, FAIL, PREP_ONE, SubmitNth(0));
    var y1 := Next(y, FAIL);
    FailSound(y);
    PrepOne(y1);
    SubmitAfterError(Next(y1, PREP_ONE));
  }

  lemma SubmitAtLimit(y: System)
    requires !y.ch.err && !y.ch.cyclic && !y.ch.bug && y.prepared != [] && y.ch.count == COALESCE_MAX
    ensures Next(y, SubmitNth(0)).ch.bug
  {
  }

  // ---- A pool off the ring -------------------------------------------------------------------

  /** An otherwise fresh channel whose segments 0 and 1 came back in the wrong order, while
      segment 254 still links to segment 0. */
  ghost predicate Twisted(y: System) {
    && MemoryInv(y) && y.ch.sg
    && y.prepared == [] && y.ch.pending == [] && y.ch.active == []
    && y.ch.idle && !y.ch.err && !y.ch.cyclic && !y.ch.bug && y.ch.count < COALESCE_MAX
    && y.ch.free == AllSegs()[2..] + [1, 0]
    && y.ch.hw[254].next == Addr(y.ch.base, 0)
  }

  const WIDE := Range(0, 2130706178)
  const PREP_WIDE := StepPrepSg([WIDE], false, None)

  lemma WideSplit()
    ensures |Split([WIDE])| == 254
  {
    PiecesExact(WIDE.addr, WIDE.len);
    assert Split([WIDE]) == Pieces(WIDE.addr, WIDE.len) + Split([]);
  }

  lemma WidePrepared(y: System)
    requires Twisted(y)
    ensures
      var z := Next(y, PREP_WIDE);
      && z == y.(ch := y.ch.(free := z.ch.free, hw := z.ch.hw), prepared := z.prepared)
      && |z.prepared| == 1 && z.prepared[0].segs == y.ch.free[..254] && !z.prepared[0].cyclic
      && SameLinks(y.ch.hw, z.ch.hw)
  {
    WideSplit();
    PrepFrame(y.ch, Split([WIDE]), false, None);
  }

  lemma StartSound(y: System)
    requires CanStart(y.ch) && !y.ch.bug && y.ch.active == []
    ensures
      var z := Next(y, StepIssue(true));
      z.ch.active == y.ch.pending && z.ch.hw == y.ch.hw && z.ch.base == y.ch.base
  {
  }

  /** A 254-segment transfer prepared on a twisted pool sends the engine through the wrong
      segments: the transfer is started, and its walk is not its segment list. */
  lemma TwistedPoolMisleadsEngine(y: System)
    requires Twisted(y)
    ensures
      var z := Run(y, [PREP_WIDE, SubmitNth(0), StepIssue(true)]);
      z.ch.active != [] && !Visits(z.ch, z.ch.active)
  {
    var y1 := Next(y, PREP_WIDE);
    var y2 := Next(y1, SubmitNth(0));
    var y3 := Next(y2, StepIssue(true));
    WidePrepared(y);
    SubmitSound(y1, 0);
    StartSound(y2);
    MemoryNext(y, PREP_WIDE);
    MemoryNext(y1, SubmitNth(0));
    MemoryNext(y2, StepIssue(true));
    RunThree(y, PREP_WIDE, SubmitNth(0), StepIssue(true));
    var d := y3.ch.active[0];
    assert y3.ch.active == [d];
    WalkInEveryRun(y3);
    assert d.segs[252] == 254 && d.segs[253] == 1;
    assert y3.ch.hw[254].next == Addr(y3.ch.base, 0);
    assert !Chain(y3.ch.hw, y3.ch.base, d.segs);
  }

  // ---- The residue of another transfer ---------------------------------------------------------

  const PREP_TWO_BYTES := StepPrepSg([Range(0, 2)], false, None)

  lemma SmallFits(s: State, n: nat)
    requires s.free != [] && 0 < n <= 8
    ensures
      var entries := [Range(0, n)];
      PrepFits(s, Split(entries)) && TotalLength(entries) == n && InAddressSpace(entries)
  {
    var entries := [Range(0, n)];
    SgFits(s, entries);
    assert SegmentsNeeded(entries) == PieceCount(n) + SegmentsNeeded([]) == 1;
    assert TotalLength(entries) == n + TotalLength([]) == n;
  }

  /** Preparing a small transfer: its residue is its length, and others' residues stay. */
  lemma PrepSmall(y: System, n: nat, other: seq<SegId>) returns (z: System, d: Desc)
    requires MemoryInv(y) && !y.ch.bug && y.ch.free != [] && 0 < n <= 8 && forall i :: i in other ==> i !in y.ch.free
    ensures z == Next(y, StepPrepSg([Range(0, n)], false, None))
    ensures z == y.(ch := y.ch.(free := z.ch.free, hw := z.ch.hw), prepared := y.prepared + [d]) && !d.cyclic
    ensures Residue(z.ch.hw, d.segs) == n && Residue(z.ch.hw, other) == Residue(y.ch.hw, other)
  {
    var entries := [Range(0, n)];
    SmallFits(y.ch, n);
    FreshResidue(y, entries, false, None);
    PrepFrame(y.ch, Split(entries), false, None);
    var p := PrepSg(y.ch, entries, false, None);
    SameResidue(y.ch.hw, p.state.hw, other);
    z, d := AddPrepared(y, p), p.desc.value;
  }

  lemma {:induction false} SameResidue(hw: Bank, hw': Bank, segs: seq<SegId>)
    requires forall i :: i in segs ==> hw'[i] == hw[i]
    ensures Residue(hw', segs) == Residue(hw, segs)
    decreases |segs|
  {
    if segs != [] { SameResidue(hw, hw', segs[..|segs| - 1]); }
  }

  /** With nothing pending, submitting leaves segment memory alone. */
  lemma SubmitFirst(y: System)
    requires !y.ch.bug && !y.ch.err && !y.ch.cyclic && y.prepared != [] && !y.prepared[0].cyclic
    requires y.ch.count < COALESCE_MAX && y.ch.pending == []
    ensures
      var z := Next(y, SubmitNth(0));
      && z.ch.hw == y.ch.hw && |z.ch.pending| == 1 && z.ch.pending[0].segs == y.prepared[0].segs
      && z.ch.active == y.ch.active && z.ch.idle == y.ch.idle && z.ch.free == y.ch.free && z.ch.count == y.ch.count + 1
      && !z.ch.err && !z.ch.bug && !z.ch.cyclic && z.prepared == y.prepared[1..]
  {
    SubmitSound(y, 0);
  }

  lemma StartMemorySame(y: System)
    requires CanStart(y.ch) && !y.ch.bug
    ensures Next(y, StepIssue(true)).ch.hw == y.ch.hw
  {
  }

  lemma FirstActive(y: System) returns (z: System)
    requires ChannelInv(y) && !y.ch.bug && !y.ch.err && !y.ch.cyclic && y.ch.idle && y.ch.count == 0
    requires y.prepared == [] && y.ch.pending == [] && y.ch.active == [] && |y.ch.free| > 1
    ensures z == Run(y, [PREP_ONE, SubmitNth(0), StepIssue(true)]) && ChannelInv(z)
    ensures |z.ch.active| == 1 && Residue(z.ch.hw, z.ch.active[0].segs) == 1
    ensures !z.ch.bug && !z.ch.err && !z.ch.cyclic && z.ch.count == 0 && z.prepared == [] && z.ch.pending == []
    ensures z.ch.free != []
  {
    RunThree(y, PREP_ONE, SubmitNth(0), StepIssue(true));
    var y1, d := PrepSmall(y, 1, []);
    var y2 := Next(y1, SubmitNth(0));
    SubmitFirst(y1);
    StartMemorySame(y2);
    OneTransfer(y);
    StartSound(y2);
    ChannelInEveryRun(y, [PREP_ONE, SubmitNth(0), StepIssue(true)]);
    z := Next(y2, StepIssue(true));
  }

  /** A status query reports the residue of the last active transfer: for a pending one, not its
      own. */
  lemma ResidueOfAnother(base: nat, ctrl: nat, regs: Regs)
    ensures
      var s := Run(Boot(base, true, ctrl, regs),
                   [PREP_ONE, SubmitNth(0), StepIssue(true)] + [PREP_TWO_BYTES, SubmitNth(0)]).ch;
      && |s.active| == 1 && |s.pending| == 1
      && Residue(s.hw, Last(s.active).segs) == 1 && Residue(s.hw, s.pending[0].segs) == 2
  {
    var y0 := Boot(base, true, ctrl, regs);
    BootChannel(base, true, ctrl, regs);
    RunConcat(y0, [PREP_ONE, SubmitNth(0), StepIssue(true)], [PREP_TWO_BYTES, SubmitNth(0)]);
    var y := FirstActive(y0);
    SecondPending(y);
  }

  lemma SecondPending(y: System)
    requires MemoryInv(y) && !y.ch.bug && !y.ch.err && !y.ch.cyclic && y.ch.count == 0
    requires y.prepared == [] && y.ch.pending == [] && |y.ch.active| == 1 && y.ch.free != []
    ensures
      var s := Run(y, [PREP_TWO_BYTES, SubmitNth(0)]).ch;
      && s.active == y.ch.active && |s.pending| == 1 && Residue(s.hw, s.pending[0].segs) == 2
      && Residue(s.hw, s.active[0].segs) == Residue(y.ch.hw, y.ch.active[0].segs)
  {
    QueuedApart(y);
    assert y.ch.active == [y.ch.active[0]];
    FlatOne(y.ch.active[0]);
    var y1, d := PrepSmall(y, 2, y.ch.active[0].segs);
    RunTwoSteps(y, y1, PREP_TWO_BYTES, SubmitNth(0));
    SubmitFirst(y1);
  }

  lemma RunTwoSteps(y: System, z: System, a: Step, b: Step)
    requires z == Next(y, a)
    ensures Run(y, [a, b]) == Next(z, b)
  {
    assert [a, b] == [a] + [b] && [b] == [b] + [];
    RunStep(y, a, [b]);
    RunStep(z, b, []);
  }
}
