/** What the engine does with the two addresses it is given: follow links from CURDESC until
    it has processed TAILDESC. */
module Walk {
  import opened ChannelState
  import opened Memory
  import opened Options
  import opened Pool
  import opened Ring
  import opened Runs

  /** The segment at a bus address, if there is one. */
  function SegmentAt(base: nat, addr: nat): Option<SegId> {
    if base <= addr && (addr - base) % SEG_SIZE == 0 && (addr - base) / SEG_SIZE < NUM_DESCS
    then Some((addr - base) / SEG_SIZE)
    else None
  }

  lemma SegmentAtAddr(base: nat, i: SegId)
    ensures SegmentAt(base, Addr(base, i)) == Some(i)
  {
  }

  /** The segments the engine visits from `cur` up to and including `tail`, if it gets there
      within `fuel` links. */
  function HwWalk(hw: Bank, base: nat, cur: nat, tail: nat, fuel: nat): Option<seq<SegId>>
    decreases fuel
  {
    match SegmentAt(base, cur)
    case None => None
    case Some(i) =>
      if cur == tail then Some([i])
      else if fuel == 0 then None
      else
        match HwWalk(hw, base, hw[i].next, tail, fuel - 1)
        case None => None
        case Some(rest) => Some([i] + rest)
  }

  /** Each segment of `q` links to the next one. */
  ghost predicate Chain(hw: Bank, base: nat, q: seq<SegId>) {
    forall k :: 0 < k < |q| ==> hw[q[k - 1]].next == Addr(base, q[k])
  }

  /** Following a chain of distinct segments visits exactly that chain, in order. */
  lemma {:induction false} WalkFollowsChain(hw: Bank, base: nat, q: Segs, fuel: nat)
    requires Chain(hw, base, q) && NoRepeats(q) && |q| - 1 <= fuel
    ensures HwWalk(hw, base, Addr(base, q[0]), Addr(base, Last(q)), fuel) == Some(q)
    decreases |q|
  {
    SegmentAtAddr(base, q[0]);
    if |q| == 1 {
      assert q == [q[0]];
    } else {
      assert q == [q[0]] + q[1..];
      PartNoRepeats([q[0]], q[1..]);
      assert Last(q) in q[1..];
      SegmentAtAddr(base, Last(q));
      forall k | 0 < k < |q[1..]| ensures hw[q[1..][k - 1]].next == Addr(base, q[1..][k]) {
        assert q[1..][k] == q[k + 1] && q[1..][k - 1] == q[k];
      }
      assert hw[q[0]].next == Addr(base, q[1]);
      WalkFollowsChain(hw, base, q[1..], fuel - 1);
    }
  }

  /** Conversely the engine visits nothing but chains. */
  lemma {:induction false} WalkIsChain(hw: Bank, base: nat, cur: nat, tail: nat, fuel: nat)
    requires HwWalk(hw, base, cur, tail, fuel).Some?
    ensures
      var q := HwWalk(hw, base, cur, tail, fuel).value;
      q != [] && Addr(base, q[0]) == cur && Addr(base, Last(q)) == tail && Chain(hw, base, q)
    decreases fuel
  {
    var i := SegmentAt(base, cur).value;
    if cur != tail {
      WalkIsChain(hw, base, hw[i].next, tail, fuel - 1);
      var rest := HwWalk(hw, base, hw[i].next, tail, fuel - 1).value;
      var q := [i] + rest;
      forall k | 0 < k < |q| ensures hw[q[k - 1]].next == Addr(base, q[k]) {
        if k > 1 { assert q[k - 1] == rest[k - 2] && q[k] == rest[k - 1]; }
      }
    }
  }

  lemma ChainConcat(hw: Bank, base: nat, a: Segs, b: Segs)
    ensures Chain(hw, base, a + b) <==>
            Chain(hw, base, a) && Chain(hw, base, b) && hw[Last(a)].next == Addr(base, b[0])
  {
    var q := a + b;
    if Chain(hw, base, q) {
      forall k | 0 < k < |a| ensures hw[a[k - 1]].next == Addr(base, a[k]) {
        assert q[k] == a[k] && q[k - 1] == a[k - 1];
      }
      forall k | 0 < k < |b| ensures hw[b[k - 1]].next == Addr(base, b[k]) {
        assert q[|a| + k] == b[k] && q[|a| + k - 1] == b[k - 1];
      }
      assert q[|a|] == b[0] && q[|a| - 1] == Last(a);
    }
    if Chain(hw, base, a) && Chain(hw, base, b) && hw[Last(a)].next == Addr(base, b[0]) {
      forall k | 0 < k < |q| ensures hw[q[k - 1]].next == Addr(base, q[k]) {
        if k > |a| { assert q[k] == b[k - |a|] && q[k - 1] == b[k - |a| - 1]; }
      }
    }
  }

  lemma TailLinked(hw: Bank, ds: seq<Desc>)
    requires ds != [] && Linked(hw, ds)
    ensures Linked(hw, ds[1..])
  {
    forall k | 0 < k < |ds[1..]| ensures hw[Last(ds[1..][k - 1].segs)].next == ds[1..][k].phys {
      assert ds[1..][k] == ds[k + 1] && ds[1..][k - 1] == ds[k + 1 - 1];
    }
  }

  /** A linked list of descriptors is one chain exactly when each is a chain inside. */
  lemma {:induction false} ChainOfDescs(hw: Bank, base: nat, ds: seq<Desc>)
    requires Linked(hw, ds) && forall d :: d in ds ==> d.phys == Addr(base, d.segs[0])
    ensures Chain(hw, base, Flat(ds)) <==> forall d :: d in ds ==> Chain(hw, base, d.segs)
  {
    if |ds| > 1 {
      var d, rest := ds[0], ds[1..];
      TailLinked(hw, ds);
      ChainOfDescs(hw, base, rest);
      assert ds == [d] + rest && Flat(ds) == d.segs + Flat(rest);
      assert Flat(rest)[0] == rest[0].segs[0] && ds[1] == rest[0] && rest[0] in ds;
      ChainConcat(hw, base, d.segs, Flat(rest));
    } else if |ds| == 1 {
      FlatOne(ds[0]);
      assert ds == [ds[0]];
    }
  }

  /** The addresses a batch starts and ends at. */
  function HeadAddr(ds: seq<Desc>): nat
    requires ds != []
  {
    ds[0].phys
  }

  function TailAddr(base: nat, ds: seq<Desc>): nat
    requires ds != []
  {
    Addr(base, Last(Last(ds).segs))
  }

  /** The engine, started on this batch, visits exactly its segments, in order, once each. */
  ghost predicate Visits(s: State, ds: seq<Desc>)
    requires ds != []
  {
    HwWalk(s.hw, s.base, HeadAddr(ds), TailAddr(s.base, ds), NUM_DESCS) == Some(Flat(ds))
  }

  lemma BatchEnds(ds: seq<Desc>)
    requires ds != []
    ensures Flat(ds) != [] && Flat(ds)[0] == ds[0].segs[0] && Last(Flat(ds)) == Last(Last(ds).segs)
  {
    var n := |ds| - 1;
    FlatRemove(ds, n);
    assert ds[n + 1..] == [];
  }

  /** A linked batch of distinct segments is visited correctly exactly when each of its
      descriptors is chained inside. */
  lemma WalkExact(s: State, ds: seq<Desc>)
    requires ds != [] && Linked(s.hw, ds) && NoRepeats(Flat(ds)) && |Flat(ds)| <= NUM_DESCS
    requires forall d :: d in ds ==> d.phys == Addr(s.base, d.segs[0])
    ensures Visits(s, ds) <==> forall d :: d in ds ==> Chain(s.hw, s.base, d.segs)
  {
    BatchEnds(ds);
    ChainOfDescs(s.hw, s.base, ds);
    if Chain(s.hw, s.base, Flat(ds)) {
      WalkFollowsChain(s.hw, s.base, Flat(ds), NUM_DESCS);
    }
    if Visits(s, ds) {
      WalkIsChain(s.hw, s.base, HeadAddr(ds), TailAddr(s.base, ds), NUM_DESCS);
    }
  }

  lemma QueuedSize(y: System)
    requires Conserved(y)
    ensures |Flat(y.ch.pending)| <= NUM_DESCS && |Flat(y.ch.active)| <= NUM_DESCS
  {
    OrderBlocks(y);
    PoolSize(Order(y));
  }

  /** In every run: the pending list, if started now, is visited correctly exactly when each
      descriptor is chained inside; and likewise the active list. */
  lemma WalkInEveryRun(y: System)
    requires MemoryInv(y)
    ensures y.ch.pending != [] ==>
      (Visits(y.ch, y.ch.pending) <==> forall d :: d in y.ch.pending ==> Chain(y.ch.hw, y.ch.base, d.segs))
    ensures y.ch.active != [] ==>
      (Visits(y.ch, y.ch.active) <==> forall d :: d in y.ch.active ==> Chain(y.ch.hw, y.ch.base, d.segs))
  {
    QueuedApart(y);
    QueuedSize(y);
    FlatConcat(y.ch.active, y.ch.pending);
    PartNoRepeats(Flat(y.ch.active), Flat(y.ch.pending));
    assert forall d :: d in y.ch.pending || d in y.ch.active ==> d in Owners(y);
    if y.ch.pending != [] { WalkExact(y.ch, y.ch.pending); }
    if y.ch.active != [] { WalkExact(y.ch, y.ch.active); }
  }

  /** On the ring, every descriptor is chained inside. */
  lemma RingChains(y: System, d: Desc)
    requires RingInv(y) && d in Owners(y)
    ensures Chain(y.ch.hw, y.ch.base, d.segs)
  {
    var n :| 0 <= n < |Owners(y)| && Owners(y)[n] == d;
    FlatRemove(Owners(y), n);
    var before := Flat(Owners(y)[..n]);
    var after := Flat(Owners(y)[n + 1..]) + y.ch.free;
    assert Order(y) == before + d.segs + after;
    forall k | 0 < k < |d.segs| ensures y.ch.hw[d.segs[k - 1]].next == Addr(y.ch.base, d.segs[k]) {
      var q := Order(y);
      assert q[|before| + k] == d.segs[k] && q[|before| + k - 1] == d.segs[k - 1];
      ModShift(q[0] + (|before| + k - 1), 1);
    }
  }

  /** On the ring, whatever is queued is visited correctly. */
  lemma RingWalk(y: System)
    requires RingInv(y) && MemoryInv(y)
    ensures y.ch.pending != [] ==> Visits(y.ch, y.ch.pending)
    ensures y.ch.active != [] ==> Visits(y.ch, y.ch.active)
  {
    WalkInEveryRun(y);
    forall d | d in y.ch.pending || d in y.ch.active ensures Chain(y.ch.hw, y.ch.base, d.segs) {
      assert d in Owners(y);
      RingChains(y, d);
    }
  }

  // ---- What was written to the engine -----------------------------------------------------

  /** While a batch is active, the two address registers were last written with its ends. */
  ghost predicate BatchRegs(s: State) {
    s.sg && s.active != [] ==>
      s.regs.curdesc == HeadAddr(s.active) && s.regs.taildesc == TailAddr(s.base, s.active)
  }

  lemma StartRegs(s: State, ok: bool)
    requires BatchRegs(s) && (s.idle ==> s.active == [])
    ensures BatchRegs(Start(s, ok))
  {
    if CanStart(s) && ok { assert Start(s, ok).active == s.pending; }
  }

  /** What neither submission nor preparation touches. */
  ghost predicate SameBatch(s: State, t: State) {
    && t.base == s.base && t.sg == s.sg && t.active == s.active
    && t.regs.curdesc == s.regs.curdesc && t.regs.taildesc == s.regs.taildesc
  }

  lemma PrepSameBatch(y: System, step: Step)
    requires IsPrep(step)
    ensures SameBatch(y.ch, Next(y, step).ch)
  {
    var z := PrepStep(y, step);
  }

  lemma SubmitSameBatch(s: State, d: Desc, after: nat)
    ensures SameBatch(s, Submit(s, d, after).state)
  {
  }

  lemma TerminateBatch(s: State, ok: bool)
    ensures Terminate(s, ok).active == [] && Terminate(s, ok).sg == s.sg
  {
  }

  lemma IrqBatch(s: State, status: nat, ok: bool)
    requires BatchRegs(s)
    ensures BatchRegs(Irq(s, status, ok))
  {
    if HasIoc(status) {
      StartRegs(Completed(s, status), ok);
      assert Irq(s, status, ok) == Start(Completed(s, status), ok);
    }
  }

  /** The engine behind a channel never changes. */
  lemma SameEngine(y: System, step: Step)
    ensures Next(y, step).ch.sg == y.ch.sg
  {
    match step
    case StepPrepSg(_, _, _) => PrepSameBatch(y, step);
    case StepPrepCyclic(_, _, _, _) => PrepSameBatch(y, step);
    case StepSubmit(j, callback, after) =>
      if j < |y.prepared| { SubmitSameBatch(y.ch, y.prepared[j].(callback := callback), after); }
    case StepTerminate(ok) => TerminateBatch(y.ch, ok);
    case _ =>
  }

  lemma BatchRegsNext(y: System, step: Step)
    requires BatchRegs(y.ch) && MemoryInv(y)
    ensures BatchRegs(Next(y, step).ch)
  {
    match step
    case StepPrepSg(_, _, _) => PrepSameBatch(y, step);
    case StepPrepCyclic(_, _, _, _) => PrepSameBatch(y, step);
    case StepSubmit(j, callback, after) =>
      if j < |y.prepared| { SubmitSameBatch(y.ch, y.prepared[j].(callback := callback), after); }
    case StepIssue(ok) => StartRegs(y.ch, ok);
    case StepIrq(status, ok) => IrqBatch(y.ch, status, ok);
    case StepTerminate(ok) => TerminateBatch(y.ch, ok);
    case StepTake =>
    case StepFree =>
    case StepRing =>
    case StepCall =>
    case StepRung =>
    case StepHwWrite(_, _, _) =>
    case StepHwFinish =>
  }

  lemma {:induction false} BatchRegsInEveryRun(y: System, steps: seq<Step>)
    requires BatchRegs(y.ch) && MemoryInv(y)
    ensures BatchRegs(Run(y, steps).ch) && Run(y, steps).ch.sg == y.ch.sg
    decreases |steps|
  {
    if steps != [] {
      BatchRegsNext(y, steps[0]);
      SameEngine(y, steps[0]);
      MemoryNext(y, steps[0]);
      BatchRegsInEveryRun(Next(y, steps[0]), steps[1..]);
    }
  }

  /** In every disciplined run on a scatter-gather engine, while a batch is active, following
      the links from the address written to CURDESC reaches the address written to TAILDESC
      after exactly the batch's segments, in order, once each. */
  lemma EngineVisitsTheBatch(base: nat, ctrl: nat, regs: Regs, steps: seq<Step>)
    requires Disciplined(Boot(base, true, ctrl, regs), steps)
    ensures
      var s := Run(Boot(base, true, ctrl, regs), steps).ch;
      s.active != [] ==>
        HwWalk(s.hw, s.base, s.regs.curdesc, s.regs.taildesc, NUM_DESCS) == Some(Flat(s.active))
  {
    var y := Boot(base, true, ctrl, regs);
    BootMemory(base, true, ctrl, regs);
    BootRing(base, true, ctrl, regs);
    RingInDisciplinedRun(y, steps);
    BatchRegsInEveryRun(y, steps);
    RingWalk(Run(y, steps));
  }
}
