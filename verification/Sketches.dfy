/** Small runs of one-segment transfers, followed on a sketch of the channel that keeps only
    the segment numbers; and the three ways they take the pool off the ring. */
module Sketches {
  import opened ChannelState
  import opened Decisions
  import opened Delivery
  import opened Hazards
  import opened Memory
  import opened Options
  import opened Queues
  import opened Registers
  import opened Ring
  import opened Runs
  import opened Splitting
  import opened Walk

  const PREP_RING := StepPrepCyclic(0, 1, 1, false)

  datatype Item = Item(id: SegId, cyclic: bool)

  datatype Sketch = Sketch(prepared: seq<Item>, pending: seq<Item>, active: seq<Item>, done: seq<Item>,
                           held: seq<Item>, free: seq<SegId>, idle: bool, cyclic: bool, submits: nat)

  predicate Alike(ds: seq<Desc>, items: seq<Item>) {
    && |ds| == |items|
    && forall k :: 0 <= k < |ds| ==> ds[k].segs == [items[k].id] && ds[k].cyclic == items[k].cyclic
  }

  ghost predicate Matches(y: System, k: Sketch) {
    && Alike(y.prepared, k.prepared) && Alike(y.ch.pending, k.pending) && Alike(y.ch.active, k.active)
    && Alike(y.ch.done, k.done) && Alike(y.held, k.held) && y.ringing == [] && y.due == []
    && y.ch.free == k.free && y.ch.idle == k.idle && y.ch.cyclic == k.cyclic
    && !y.ch.err && !y.ch.bug && y.ch.sg && y.ch.count <= k.submits < COALESCE_MAX
    && y.ch.hw[254].next == Addr(y.ch.base, 0)
  }

  function Ids(items: seq<Item>): seq<SegId> {
    if items == [] then [] else [items[0].id] + Ids(items[1..])
  }

  lemma {:induction false} AlikeFlat(ds: seq<Desc>, items: seq<Item>)
    requires Alike(ds, items)
    ensures Flat(ds) == Ids(items)
  {
    if ds != [] { AlikeFlat(ds[1..], items[1..]); }
  }

  function Fresh(): Sketch {
    Sketch([], [], [], [], [], AllSegs(), true, false, 0)
  }

  lemma BootMatches(base: nat, ctrl: nat, regs: Regs)
    ensures Matches(Boot(base, true, ctrl, regs), Fresh())
  {
  }

  function SketchPrep(k: Sketch, cyclic: bool): Sketch
    requires k.free != []
  {
    k.(prepared := k.prepared + [Item(k.free[0], cyclic)], free := k.free[1..])
  }

  lemma MatchPrep(y: System, k: Sketch)
    requires Matches(y, k) && k.free != []
    ensures Matches(Next(y, PREP_ONE), SketchPrep(k, false))
  {
    PrepOne(y);
  }

  lemma OnePeriod()
    ensures Split(Periods(0, 1, 1 / 1)) == [Range(0, 1)]
  {
    OneByte();
    assert Periods(0, 1, 1) == [Range(0, 1)];
  }

  lemma MatchPrepCyclic(y: System, k: Sketch)
    requires Matches(y, k) && k.free != []
    ensures Matches(Next(y, PREP_RING), SketchPrep(k, true))
  {
    OnePeriod();
    PrepFrame(y.ch, [Range(0, 1)], false, None);
    var z := Next(y, PREP_RING);
    var p := Prep(y.ch, [Range(0, 1)], false, None);
    assert z.ch.hw == p.state.hw && z.ch.free == y.ch.free[1..];
    assert z.prepared == y.prepared + [p.desc.value.(cyclic := true)];
    assert y.ch.free[..1] == [y.ch.free[0]];
  }

  function SketchSubmit(k: Sketch, j: nat): Sketch
    requires j < |k.prepared|
  {
    var item := k.prepared[j];
    if k.cyclic then k.(prepared := Remove(k.prepared, j), free := k.free + [item.id])
    else k.(prepared := Remove(k.prepared, j), pending := k.pending + [item], cyclic := item.cyclic,
            submits := k.submits + 1)
  }

  lemma MatchSubmit(y: System, k: Sketch, j: nat)
    requires Matches(y, k) && j < |k.prepared| && k.submits < 254
    requires k.pending != [] ==> Last(k.pending).id != 254
    ensures Matches(Next(y, SubmitNth(j)), SketchSubmit(k, j))
  {
    if k.cyclic {
      assert Next(y, SubmitNth(j)).ch == FreeSegs(y.ch, y.prepared[j].segs);
    } else {
      SubmitSound(y, j);
    }
  }

  function SketchIssue(k: Sketch): Sketch {
    if k.pending == [] || !k.idle then k else k.(pending := [], active := k.active + k.pending, idle := false)
  }

  lemma MatchIssue(y: System, k: Sketch)
    requires Matches(y, k)
    ensures Matches(Next(y, StepIssue(true)), SketchIssue(k))
  {
    MatchStart(y, k);
    assert Next(y, StepIssue(true)).ch == Start(y.ch, true);
  }

  lemma MatchStart(y: System, k: Sketch)
    requires Matches(y, k)
    ensures Matches(y.(ch := Start(y.ch, true)), SketchIssue(k))
  {
  }

  function SketchIrq(k: Sketch): Sketch {
    SketchIssue(SketchCompleted(k))
  }

  function SketchCompleted(k: Sketch): Sketch {
    k.(done := k.done + k.active, active := [], idle := true)
  }

  lemma MatchCompleted(y: System, k: Sketch)
    requires Matches(y, k)
    ensures Matches(y.(ch := Completed(y.ch, IRQ_IOC)), SketchCompleted(k))
  {
    IocWord();
    var s := Completed(y.ch, IRQ_IOC);
    assert s == Complete(y.ch).(idle := true);
  }

  lemma MatchIrq(y: System, k: Sketch)
    requires Matches(y, k)
    ensures Matches(Next(y, COMPLETE), SketchIrq(k))
  {
    IocWord();
    var z := y.(ch := Completed(y.ch, IRQ_IOC));
    MatchCompleted(y, k);
    MatchStart(z, SketchCompleted(k));
    IrqIsStart(y, IRQ_IOC);
    SameSketch(z.(ch := Start(z.ch, true)), Next(y, COMPLETE), SketchIrq(k));
  }

  lemma IrqIsStart(y: System, status: nat)
    requires HasIoc(status) && !y.ch.bug
    ensures
      var z := Next(y, StepIrq(status, true));
      && z.ch == Start(Completed(y.ch, status), true)
      && z.prepared == y.prepared && z.held == y.held && z.ringing == y.ringing && z.due == y.due
  {
  }

  lemma SameSketch(w: System, v: System, k: Sketch)
    requires Matches(w, k) && v.ch == w.ch
    requires v.prepared == w.prepared && v.held == w.held && v.ringing == w.ringing && v.due == w.due
    ensures Matches(v, k)
  {
  }

  function SketchClean(k: Sketch): Sketch
    requires k.done != [] && k.held == []
  {
    k.(done := k.done[1..], free := k.free + [k.done[0].id])
  }

  /** Cleanup's halves, and the callback between them. */
  lemma MatchClean(y: System, k: Sketch)
    requires Matches(y, k) && k.held == [] && k.done != [] && !k.done[0].cyclic
    ensures Matches(Next(Next(Next(y, StepTake), StepCall), StepFree), SketchClean(k))
  {
    var d := y.ch.done[0];
    var w := HeadCleaned(y);
    FlatOne(d);
  }

  lemma HeadCleaned(y: System) returns (w: System)
    requires !y.ch.bug && AtLoopHead(y) && CanTake(y.ch)
    ensures w == Next(Next(Next(y, StepTake), StepCall), StepFree)
    ensures w.ch == FreeSegs(Take(y.ch), Flat([y.ch.done[0]])) && w.prepared == y.prepared && AtLoopHead(w)
  {
    w := Next(Next(Next(y, StepTake), StepCall), StepFree);
  }

  function SketchTerminate(k: Sketch): Sketch {
    k.(free := k.free + Ids(k.pending + k.done + k.active), pending := [], done := [], active := [], cyclic := false)
  }

  lemma MatchTerminate(y: System, k: Sketch)
    requires Matches(y, k)
    ensures Matches(Next(y, StepTerminate(true)), SketchTerminate(k))
  {
    AlikeFlat(y.ch.pending + y.ch.done + y.ch.active, k.pending + k.done + k.active);
    var z := AfterTerminate(y);
    TerminatedSketch(y, z, k);
  }

  lemma AfterTerminate(y: System) returns (z: System)
    requires !y.ch.bug
    ensures z == NextTerminate(y, true) == Next(y, StepTerminate(true))
    ensures z.ch.free == y.ch.free + Flat(y.ch.pending + y.ch.done + y.ch.active)
    ensures z.ch.hw[254].next == y.ch.hw[254].next
  {
    TerminateShape(y.ch, true);
    z := NextTerminate(y, true);
  }

  lemma TerminatedSketch(y: System, z: System, k: Sketch)
    requires Matches(y, k) && z == NextTerminate(y, true)
    requires z.ch.free == k.free + Ids(k.pending + k.done + k.active)
    requires z.ch.hw[254].next == y.ch.hw[254].next
    ensures Matches(z, SketchTerminate(k))
  {
  }

  /** Segments 0 and 1 free at the tail, in the wrong order, and nothing else going on. */
  predicate Crossed(k: Sketch) {
    && k.prepared == [] && k.pending == [] && k.active == [] && k.done == [] && k.held == []
    && k.idle && !k.cyclic && k.free == AllSegs()[2..] + [1, 0]
  }

  lemma CrossedIsTwisted(y: System, k: Sketch)
    requires MemoryInv(y) && Matches(y, k) && Crossed(k)
    ensures Twisted(y) && !RingInv(y)
  {
    CrossedOffRing(y);
  }

  lemma CrossedOffRing(y: System)
    requires y.prepared == [] && y.ch.pending == [] && y.ch.active == [] && y.ch.done == [] && y.held == []
    requires y.ch.free == AllSegs()[2..] + [1, 0]
    ensures !RingInv(y)
  {
    OrderBlocks(y);
    assert Order(y) == y.ch.free;
    assert y.ch.free[0] == 2 && y.ch.free[253] == 1;
  }

  // ---- Programs of such steps ---------------------------------------------------------------

  datatype Op = OpPrep | OpRing | OpSubmit(j: nat) | OpIssue | OpIrq | OpClean | OpTerminate

  function Steps(op: Op): seq<Step> {
    match op
    case OpPrep => [PREP_ONE]
    case OpRing => [PREP_RING]
    case OpSubmit(j) => [SubmitNth(j)]
    case OpIssue => [StepIssue(true)]
    case OpIrq => [COMPLETE]
    case OpClean => [StepTake, StepCall, StepFree]
    case OpTerminate => [StepTerminate(true)]
  }

  predicate Can(k: Sketch, op: Op) {
    match op
    case OpPrep => k.free != []
    case OpRing => k.free != []
    case OpSubmit(j) => j < |k.prepared| && k.submits < 254 && (k.pending != [] ==> Last(k.pending).id != 254)
    case OpClean => k.held == [] && k.done != [] && !k.done[0].cyclic
    case _ => true
  }

  function Do(k: Sketch, op: Op): Sketch
    requires Can(k, op)
  {
    match op
    case OpPrep => SketchPrep(k, false)
    case OpRing => SketchPrep(k, true)
    case OpSubmit(j) => SketchSubmit(k, j)
    case OpIssue => SketchIssue(k)
    case OpIrq => SketchIrq(k)
    case OpClean => SketchClean(k)
    case OpTerminate => SketchTerminate(k)
  }

  lemma RunOne(y: System, step: Step)
    ensures Run(y, [step]) == Next(y, step)
  {
    assert [step] == [step] + [];
    RunStep(y, step, []);
  }

  lemma MatchDo(y: System, k: Sketch, op: Op)
    requires Matches(y, k) && Can(k, op)
    ensures Matches(Run(y, Steps(op)), Do(k, op))
  {
    match op
    case OpPrep => RunOne(y, PREP_ONE); MatchPrep(y, k);
    case OpRing => RunOne(y, PREP_RING); MatchPrepCyclic(y, k);
    case OpSubmit(j) => RunOne(y, SubmitNth(j)); MatchSubmit(y, k, j);
    case OpIssue => RunOne(y, StepIssue(true)); MatchIssue(y, k);
    case OpIrq => RunOne(y, COMPLETE); MatchIrq(y, k);
    case OpClean =>
      RunThree(y, StepTake, StepCall, StepFree);
      MatchClean(y, k);
    case OpTerminate => RunOne(y, StepTerminate(true)); MatchTerminate(y, k);
  }

  datatype Program = Stop | Then(op: Op, rest: Program)

  function AllSteps(p: Program): seq<Step> {
    match p
    case Stop => []
    case Then(op, rest) => Steps(op) + AllSteps(rest)
  }

  predicate Leads(k: Sketch, p: Program, k': Sketch)
    decreases p
  {
    match p
    case Stop => k == k'
    case Then(op, rest) => Can(k, op) && Leads(Do(k, op), rest, k')
  }

  /** The sketch is faithful. */
  lemma {:induction false} MatchProgram(y: System, k: Sketch, p: Program, k': Sketch)
    requires Matches(y, k) && Leads(k, p, k')
    ensures Matches(Run(y, AllSteps(p)), k')
    decreases p
  {
    match p
    case Stop =>
    case Then(op, rest) =>
      MatchDo(y, k, op);
      MatchProgram(Run(y, Steps(op)), Do(k, op), rest, k');
      RunConcat(y, Steps(op), AllSteps(rest));
  }

  // ---- The three runs ---------------------------------------------------------------------

  /** Two transfers submitted in the opposite order to their preparation. */
  function OutOfOrderRun(): Program {
    Then(OpPrep, Then(OpPrep, Then(OpSubmit(1), Then(OpSubmit(0), OutOfOrderRest()))))
  }

  function OutOfOrderRest(): Program {
    Then(OpIssue, Then(OpIrq, Then(OpClean, Then(OpClean, Stop))))
  }

  /** A transfer submitted while a cyclic one is queued. */
  function RejectedRun(): Program {
    Then(OpRing, Then(OpPrep, Then(OpSubmit(0), Then(OpSubmit(0), Then(OpTerminate, Stop)))))
  }

  /** A terminate between one transfer's completion and its cleanup, with another pending. */
  function TerminateRun(): Program {
    Then(OpPrep, Then(OpSubmit(0), Then(OpIssue, Then(OpIrq, TerminateRest()))))
  }

  function TerminateRest(): Program {
    Then(OpPrep, Then(OpSubmit(0), Then(OpTerminate, Stop)))
  }

  const A := Item(0, false)
  const B := Item(1, false)
  const C := Item(0, true)

  function Crossing(submits: nat): Sketch {
    Sketch([], [], [], [], [], AllSegs()[2..] + [1, 0], true, false, submits)
  }

  lemma FirstFree()
    ensures AllSegs()[0] == 0 && AllSegs()[1..][0] == 1 && AllSegs()[1..][1..] == AllSegs()[2..]
  {
  }

  lemma TwoPrepared()
    ensures SketchPrep(Fresh(), false) == Fresh().(prepared := [A], free := AllSegs()[1..])
    ensures SketchPrep(Fresh().(prepared := [A], free := AllSegs()[1..]), false)
            == Fresh().(prepared := [A, B], free := AllSegs()[2..])
    ensures SketchPrep(Fresh(), true) == Fresh().(prepared := [C], free := AllSegs()[1..])
    ensures SketchPrep(Fresh().(prepared := [C], free := AllSegs()[1..]), false)
            == Fresh().(prepared := [C, B], free := AllSegs()[2..])
  {
    FirstFree();
  }

  lemma OutOfOrderEnd(k: Sketch)
    requires k == Fresh().(pending := [B, A], free := AllSegs()[2..], submits := 2)
    ensures Leads(k, OutOfOrderRest(), Crossing(2))
  {
    var k1 := k.(pending := [], active := [B, A], idle := false);
    assert Do(k, OpIssue) == k1;
    var k2 := k.(pending := [], done := [B, A]);
    assert Do(k1, OpIrq) == k2;
    var k3 := k2.(done := [A], free := AllSegs()[2..] + [1]);
    assert Do(k2, OpClean) == k3;
    assert Do(k3, OpClean) == Crossing(2) by {
      assert AllSegs()[2..] + [1] + [0] == AllSegs()[2..] + [1, 0];
    }
    assert Leads(k2, Then(OpClean, Then(OpClean, Stop)), Crossing(2));
  }

  lemma OutOfOrderCrosses()
    ensures Leads(Fresh(), OutOfOrderRun(), Crossing(2))
  {
    TwoPrepared();
    var k2 := Fresh().(prepared := [A, B], free := AllSegs()[2..]);
    var k3 := k2.(prepared := [A], pending := [B], submits := 1);
    assert Do(k2, OpSubmit(1)) == k3;
    var k4 := k2.(prepared := [], pending := [B, A], submits := 2);
    assert Do(k3, OpSubmit(0)) == k4;
    OutOfOrderEnd(k4);
    assert Leads(k2, Then(OpSubmit(1), Then(OpSubmit(0), OutOfOrderRest())), Crossing(2));
    assert Do(Do(Fresh(), OpPrep), OpPrep) == k2;
  }

  lemma RejectedCrosses()
    ensures Leads(Fresh(), RejectedRun(), Crossing(1))
  {
    TwoPrepared();
    var k2 := Fresh().(prepared := [C, B], free := AllSegs()[2..]);
    var k3 := k2.(prepared := [B], pending := [C], cyclic := true, submits := 1);
    assert Do(k2, OpSubmit(0)) == k3;
    var k4 := k3.(prepared := [], free := AllSegs()[2..] + [1]);
    assert Do(k3, OpSubmit(0)) == k4;
    assert Do(k4, OpTerminate) == Crossing(1) by {
      assert [C] + [] + [] == [C] && Ids([C]) == [0] + Ids([]);
      assert AllSegs()[2..] + [1] + [0] == AllSegs()[2..] + [1, 0];
    }
    assert Leads(k3, Then(OpSubmit(0), Then(OpTerminate, Stop)), Crossing(1));
    assert Do(Do(Fresh(), OpRing), OpPrep) == k2;
  }

  lemma TerminateEnd(k: Sketch)
    requires k == Fresh().(done := [A], free := AllSegs()[1..], submits := 1)
    ensures Leads(k, TerminateRest(), Crossing(2))
  {
    FirstFree();
    var k5 := k.(prepared := [B], free := AllSegs()[2..]);
    assert Do(k, OpPrep) == k5;
    var k6 := k5.(prepared := [], pending := [B], submits := 2);
    assert Do(k5, OpSubmit(0)) == k6;
    assert Do(k6, OpTerminate) == Crossing(2) by {
      assert [B] + [A] + [] == [B, A] && [B, A][1..] == [A] && [A][1..] == [];
      assert Ids([B, A]) == [1] + Ids([A]) && Ids([A]) == [0] + Ids([]);
    }
    assert Leads(k5, Then(OpSubmit(0), Then(OpTerminate, Stop)), Crossing(2));
  }

  /** One transfer prepared, submitted and issued on a fresh channel. */
  lemma OneBusy()
    ensures Can(Fresh(), OpPrep) && Can(Do(Fresh(), OpPrep), OpSubmit(0))
    ensures Do(Do(Do(Fresh(), OpPrep), OpSubmit(0)), OpIssue) ==
            Fresh().(active := [A], free := AllSegs()[1..], idle := false, submits := 1)
  {
    TwoPrepared();
    var k1 := Fresh().(prepared := [A], free := AllSegs()[1..]);
    assert Do(k1, OpSubmit(0)) == k1.(prepared := [], pending := [A], submits := 1);
  }

  lemma TerminateCrosses()
    ensures Leads(Fresh(), TerminateRun(), Crossing(2))
  {
    OneBusy();
    var k3 := Fresh().(active := [A], free := AllSegs()[1..], idle := false, submits := 1);
    var k4 := Fresh().(done := [A], free := AllSegs()[1..], submits := 1);
    assert Do(k3, OpIrq) == k4;
    TerminateEnd(k4);
    assert Leads(k3, Then(OpIrq, TerminateRest()), Crossing(2));
    assert Leads(Do(Fresh(), OpPrep), Then(OpSubmit(0), Then(OpIssue, Then(OpIrq, TerminateRest()))), Crossing(2));
  }

  /** Each part of the discipline is needed: submitting out of preparation order, a rejected
      submission, and a terminate over three occupied blocks each take the pool off the ring,
      after which a transfer that is prepared, submitted and started is walked wrongly. */
  lemma UndisciplinedRunsMislead(base: nat, ctrl: nat, regs: Regs, p: Program)
    requires p == OutOfOrderRun() || p == RejectedRun() || p == TerminateRun()
    ensures !RingInv(Run(Boot(base, true, ctrl, regs), AllSteps(p)))
    ensures
      var z := Run(Boot(base, true, ctrl, regs), AllSteps(p) + [PREP_WIDE, SubmitNth(0), StepIssue(true)]);
      z.ch.active != [] && !Visits(z.ch, z.ch.active)
  {
    var y := Boot(base, true, ctrl, regs);
    var k := if p == RejectedRun() then Crossing(1) else Crossing(2);
    if p == OutOfOrderRun() { OutOfOrderCrosses(); }
    else if p == RejectedRun() { RejectedCrosses(); }
    else { TerminateCrosses(); }
    BootMatches(base, ctrl, regs);
    MatchProgram(y, Fresh(), p, k);
    BootMemory(base, true, ctrl, regs);
    MemoryInEveryRun(y, AllSteps(p));
    CrossedIsTwisted(Run(y, AllSteps(p)), k);
    TwistedPoolMisleadsEngine(Run(y, AllSteps(p)));
    RunConcat(y, AllSteps(p), [PREP_WIDE, SubmitNth(0), StepIssue(true)]);
  }

  /** A status query the driver cannot answer is reachable: a submitted cookie still in
      progress with no active descriptor to read a residue from. */
  lemma StatusWithoutActive(base: nat, ctrl: nat, regs: Regs)
    ensures
      var z := Run(Boot(base, true, ctrl, regs), [PREP_ONE, SubmitNth(0)]);
      z.ch.pending != [] && !IsComplete(z.ch, z.ch.pending[0].cookie) && z.ch.active == []
  {
    var y := Boot(base, true, ctrl, regs);
    var y1 := Next(y, PREP_ONE);
    PrepOne(y);
    SubmitSound(y1, 0);
    BootChannel(base, true, ctrl, regs);
    ChannelInEveryRun(y, [PREP_ONE, SubmitNth(0)]);
    assert [PREP_ONE, SubmitNth(0)] == [PREP_ONE] + [SubmitNth(0)];
    RunStep(y, PREP_ONE, [SubmitNth(0)]);
    RunOne(y1, SubmitNth(0));
    var z := Next(y1, SubmitNth(0));
    CookieExact(z, |Left(z)|);
  }

  /** A cyclic transfer, up to the interrupt that completes it. */
  function CyclicRun(): Program {
    Then(OpRing, Then(OpSubmit(0), Then(OpIssue, Then(OpIrq, Stop))))
  }

  lemma CyclicCompletes()
    ensures Leads(Fresh(), CyclicRun(), Fresh().(done := [C], free := AllSegs()[1..], cyclic := true, submits := 1))
  {
    TwoPrepared();
    var k1 := Fresh().(prepared := [C], free := AllSegs()[1..]);
    var k2 := k1.(prepared := [], pending := [C], cyclic := true, submits := 1);
    assert Do(Fresh(), OpRing) == k1 && Do(k1, OpSubmit(0)) == k2;
    var k3 := k2.(pending := [], active := [C], idle := false);
    assert Do(k2, OpIssue) == k3;
    assert Do(k3, OpIrq) == k3.(active := [], done := [C], idle := true);
    assert Leads(k2, Then(OpIssue, Then(OpIrq, Stop)), k3.(active := [], done := [C], idle := true));
  }

  /** Nor can a running cyclic transfer be queried once its first interrupt has come. */
  lemma CyclicQueryStrays(base: nat, ctrl: nat, regs: Regs)
    ensures
      var z := Run(Boot(base, true, ctrl, regs), AllSteps(CyclicRun()));
      |z.ch.done| == 1 && z.ch.done[0].cyclic && !QuerySafe(z.ch, z.ch.done[0].cookie)
  {
    var y := Boot(base, true, ctrl, regs);
    CyclicCompletes();
    BootMatches(base, ctrl, regs);
    MatchProgram(y, Fresh(), CyclicRun(), Fresh().(done := [C], free := AllSegs()[1..], cyclic := true, submits := 1));
    BootChannel(base, true, ctrl, regs);
    ChannelInEveryRun(y, AllSteps(CyclicRun()));
    var z := Run(y, AllSteps(CyclicRun()));
    var i := |z.h.freed + z.held|;
    assert z.h.submitted[i] == z.ch.done[0];
    QueryExact(z, i);
  }

  /** The hang after terminating a busy channel is reachable in four steps. */
  lemma TerminatedBusyReachable(base: nat, ctrl: nat, regs: Regs)
    ensures
      var z := Run(Boot(base, true, ctrl, regs), [PREP_ONE, SubmitNth(0), StepIssue(true), StepTerminate(true)]);
      !z.ch.idle && z.ch.active == []
  {
    var y := Boot(base, true, ctrl, regs);
    var p := Then(OpPrep, Then(OpSubmit(0), Then(OpIssue, Then(OpTerminate, Stop))));
    OneBusy();
    var k3 := Fresh().(active := [A], free := AllSegs()[1..], idle := false, submits := 1);
    assert Leads(k3, Then(OpTerminate, Stop), Do(k3, OpTerminate));
    assert Leads(Do(Fresh(), OpPrep), Then(OpSubmit(0), Then(OpIssue, Then(OpTerminate, Stop))), Do(k3, OpTerminate));
    BootMatches(base, ctrl, regs);
    MatchProgram(y, Fresh(), p, Do(k3, OpTerminate));
    assert AllSteps(p) == [PREP_ONE, SubmitNth(0), StepIssue(true), StepTerminate(true)];
  }
}
