/** Engines without scatter-gather: the driver programs one address and one length. */
module SimpleMode {
  import opened ChannelState
  import opened Contents
  import opened Decisions
  import opened Effects
  import opened Hazards
  import opened Ledger
  import opened Memory
  import opened Pool
  import opened Preparation
  import opened Progress
  import opened Registers
  import opened Runs
  import opened Splitting
  import opened Walk

  /** Every owned segment describes at least one byte. */
  ghost predicate Lengthy(hw: Bank, segs: seq<SegId>) {
    forall i :: i in segs ==> Length(hw[i].control) > 0
  }

  /** What was prepared has no empty segment. */
  lemma BatchLengthy(hw: Bank, ds: seq<Desc>, asked: Asked)
    requires forall d :: d in ds ==> d.segs in asked && Described(hw, d.segs) == Wrapped(Split(asked[d.segs].ranges))
    ensures Lengthy(hw, Flat(ds))
  {
    var ranges, segs := AllAsked(ds, asked), Flat(ds);
    BatchDescribed(hw, ds, asked);
    SplitTiles(ranges);
    forall i | i in segs ensures Length(hw[i].control) > 0 {
      var k :| 0 <= k < |segs| && segs[k] == i;
      assert |Described(hw, segs)| == |Split(ranges)|;
      assert Described(hw, segs)[k].len == Split(ranges)[k].len && Split(ranges)[k] in Split(ranges);
    }
  }

  /** What the two programmed registers make the engine transfer. */
  function Programmed(s: State): seq<nat> {
    RangeBytes(s.regs.srcdst, s.regs.btt)
  }

  lemma MoreBytes(hw: Bank, segs: Segs)
    requires Lengthy(hw, segs)
    ensures Bytes(Described(hw, segs)) == RangeBytes(hw[segs[0]].buf, Length(hw[segs[0]].control)) <==> |segs| == 1
  {
    var ds := Described(hw, segs);
    var first := Range(hw[segs[0]].buf, Length(hw[segs[0]].control));
    assert ds[0] == first;
    assert Bytes(ds) == RangeBytes(first.addr, first.len) + Bytes(ds[1..]);
    if |segs| == 1 {
      assert ds[1..] == [];
    } else {
      assert ds[1..][0] == Range(hw[segs[1]].buf, Length(hw[segs[1]].control));
      assert |Bytes(ds[1..])| > 0;
    }
  }

  lemma StartFromAsked(y: System, asked: Asked)
    requires MemoryInv(y) && Carries(y, asked) && !y.ch.sg && CanStart(y.ch)
    ensures
      var t := Start(y.ch, true);
      && t.active == y.ch.pending
      && (Programmed(t) == Bytes(Described(y.ch.hw, Flat(y.ch.pending))) <==> |Flat(y.ch.pending)| == 1)
  {
    var segs := Flat(y.ch.pending);
    assert segs == y.ch.pending[0].segs + Flat(y.ch.pending[1..]);
    assert forall d :: d in y.ch.pending ==> d in Owners(y);
    BatchLengthy(y.ch.hw, y.ch.pending, asked);
    MoreBytes(y.ch.hw, segs);
    SimpleRegs(y.ch);
  }

  lemma SimpleRegs(s: State)
    requires !s.sg && CanStart(s)
    ensures
      var t, h := Start(s, true), s.hw[s.pending[0].segs[0]];
      t.regs.srcdst == h.buf && t.regs.btt == Length(h.control) && t.active == s.active + s.pending
  {
  }

  /** In every run of a channel without scatter-gather, a start makes the engine transfer what
      the pending list describes exactly when the list is a single one-segment descriptor,
      although it always marks the whole list active. */
  lemma SimpleStartExact(base: nat, ctrl: nat, regs: Regs, steps: seq<Step>)
    requires CanStart(Run(Boot(base, false, ctrl, regs), steps).ch)
    ensures
      var s := Run(Boot(base, false, ctrl, regs), steps).ch;
      var t := Start(s, true);
      && t.active == s.pending
      && (Programmed(t) == Bytes(Described(s.hw, Flat(s.pending))) <==> |Flat(s.pending)| == 1)
  {
    var y := Boot(base, false, ctrl, regs);
    BootMemory(base, false, ctrl, regs);
    CarriesInEveryRun(y, steps, map[]);
    BatchRegsInEveryRun(y, steps);
    StartFromAsked(Run(y, steps), AskedIn(y, steps, map[]));
  }

  // ---- While the batch is active ----------------------------------------------------------------

  /** The two transfer registers hold the first active segment's buffer and length. */
  ghost predicate Programs(s: State) {
    !s.sg && s.active != [] ==>
      var h := s.hw[s.active[0].segs[0]];
      s.regs.srcdst == h.buf && s.regs.btt == Length(h.control)
  }

  /** What each step does to the active list. */
  lemma ActiveNext(y: System, step: Step)
    requires MemoryInv(y)
    ensures
      var s, t := y.ch, Next(y, step).ch;
      if Attempts(y, step) && step.ok then t.active == s.pending && t.hw == s.hw
      else t.active == s.active || t.active == []
  {
    if y.ch.bug {
      assert Next(y, step) == y;
    } else if step.StepIrq? {
      IrqDecides(y.ch, step.status, step.ok);
      IrqKeepsMemory(y.ch, step.status, step.ok);
    } else if step.StepIssue? {
      StartExactly(y.ch, step.ok);
    } else if step.StepTerminate? {
      TerminateShape(y.ch, step.ok);
    } else {
      SameBusy(y, step);
    }
  }

  /** A step that starts nothing leaves the active list's first segment as it is. */
  lemma FirstKept(y: System, step: Step)
    requires MemoryInv(y) && y.ch.active != [] && Next(y, step).ch.active == y.ch.active
    ensures
      var i := y.ch.active[0].segs[0];
      SameContent(y.ch.hw[i], Next(y, step).ch.hw[i])
  {
    var d, z := y.ch.active[0], Next(y, step);
    assert d in Owners(y) && d in Owners(z) && d.segs[0] in d.segs;
    if y.ch.bug {
      assert z == y;
    } else if IsPrep(step) {
      var w := PrepTakesOrNot(y, step);
      if PrepFits(y.ch, Split(Ranges(step))) { OthersApart(y, w, RequestOf(step)); }
    } else {
      StepKept(y, step);
      InFlat(Owners(z), d);
    }
  }

  lemma ProgramsNext(y: System, step: Step)
    requires MemoryInv(y) && Programs(y.ch)
    ensures Programs(Next(y, step).ch)
  {
    ActiveNext(y, step);
    AddressesNext(y, step);
    SameEngine(y, step);
    if Attempts(y, step) && step.ok {
      LengthIsMod(y.ch.hw[y.ch.pending[0].segs[0]].control);
    } else if y.ch.active != [] && Next(y, step).ch.active == y.ch.active {
      FirstKept(y, step);
    }
  }

  lemma {:induction false} ProgramsInEveryRun(y: System, steps: seq<Step>)
    requires MemoryInv(y) && Programs(y.ch)
    ensures MemoryInv(Run(y, steps)) && Programs(Run(y, steps).ch) && Run(y, steps).ch.sg == y.ch.sg
    decreases |steps|
  {
    if steps != [] {
      ProgramsNext(y, steps[0]);
      SameEngine(y, steps[0]);
      MemoryNext(y, steps[0]);
      ProgramsInEveryRun(Next(y, steps[0]), steps[1..]);
    }
  }

  /** What the engine is programmed with, when a batch carries what was asked for. */
  lemma FirstTransfer(y: System, asked: Asked)
    requires MemoryInv(y) && Carries(y, asked) && Programs(y.ch) && !y.ch.sg && y.ch.active != []
    ensures forall d :: d in y.ch.active ==> d.segs in asked
    ensures
      var pieces := Wrapped(Split(AllAsked(y.ch.active, asked)));
      && pieces != [] && Programmed(y.ch) == Bytes(pieces[..1])
      && (Programmed(y.ch) == Bytes(pieces) <==> |pieces| == 1)
  {
    var segs := Flat(y.ch.active);
    assert segs == y.ch.active[0].segs + Flat(y.ch.active[1..]);
    assert forall d :: d in y.ch.active ==> d in Owners(y);
    BatchDescribed(y.ch.hw, y.ch.active, asked);
    BatchLengthy(y.ch.hw, y.ch.active, asked);
    MoreBytes(y.ch.hw, segs);
    OnePiece(Described(y.ch.hw, segs));
  }

  lemma OnePiece(ps: seq<Range>)
    requires ps != []
    ensures Bytes(ps[..1]) == RangeBytes(ps[0].addr, ps[0].len)
  {
    assert ps[..1] == [ps[0]] && [ps[0]][1..] == [];
    assert Bytes([ps[0]]) == RangeBytes(ps[0].addr, ps[0].len) + Bytes([]);
  }

  /** In every run of a channel without scatter-gather, for as long as a batch is active the engine
      is programmed with the first piece of what its clients asked for, and no more. */
  lemma FirstPieceInEveryRun(base: nat, ctrl: nat, regs: Regs, steps: seq<Step>)
    ensures
      var y := Boot(base, false, ctrl, regs);
      var s, asked := Run(y, steps).ch, AskedIn(y, steps, map[]);
      && (forall d :: d in s.active ==> d.segs in asked)
      && (s.active != [] ==>
            var pieces := Wrapped(Split(AllAsked(s.active, asked)));
            && pieces != [] && Programmed(s) == Bytes(pieces[..1])
            && (Programmed(s) == Bytes(pieces) <==> |pieces| == 1))
  {
    var y := Boot(base, false, ctrl, regs);
    BootMemory(base, false, ctrl, regs);
    CarriesInEveryRun(y, steps, map[]);
    ProgramsInEveryRun(y, steps);
    if Run(y, steps).ch.active != [] { FirstTransfer(Run(y, steps), AskedIn(y, steps, map[])); }
  }

  /** Two one-byte transfers, submitted before either is issued. */
  const TWO_WAITING: seq<Step> := [PREP_ONE, PREP_ONE, SubmitNth(0), SubmitNth(0)]

  lemma RunFourSteps(y: System, a: Step, b: Step, c: Step, d: Step)
    ensures Run(y, [a, b, c, d]) == Next(Next(Next(Next(y, a), b), c), d)
  {
    assert [a, b, c, d] == [a] + [b, c, d];
    RunStep(y, a, [b, c, d]);
    RunThree(Next(y, a), b, c, d);
  }

  lemma TwoWaiting(y: System)
    requires !y.ch.bug && !y.ch.err && !y.ch.cyclic && y.ch.idle && y.ch.count == 0
    requires y.prepared == [] && y.ch.pending == [] && |y.ch.free| >= 2
    ensures
      var s := Run(y, TWO_WAITING).ch;
      CanStart(s) && |s.pending| == 2
  {
    var y1 := Next(y, PREP_ONE);
    var y2 := Next(y1, PREP_ONE);
    var y3 := Next(y2, SubmitNth(0));
    RunFourSteps(y, PREP_ONE, PREP_ONE, SubmitNth(0), SubmitNth(0));
    PrepOne(y);
    PrepOne(y1);
    SubmitSound(y2, 0);
    SubmitSound(y3, 0);
  }

  /** So two requests issued together end with both active and only the first programmed. */
  lemma SecondTransferForgotten(base: nat, ctrl: nat, regs: Regs)
    ensures
      var s := Run(Boot(base, false, ctrl, regs), TWO_WAITING).ch;
      var t := Start(s, true);
      CanStart(s) && |t.active| == 2 && Programmed(t) != Bytes(Described(s.hw, Flat(t.active)))
  {
    var y := Boot(base, false, ctrl, regs);
    TwoWaiting(y);
    SimpleStartExact(base, ctrl, regs, TWO_WAITING);
    OwnersFewer(Run(y, TWO_WAITING).ch.pending);
  }
}
