/** The hidden invariant: pool order is a rotation of the hardware ring. The driver links the
    ring once and never relinks the segments inside a descriptor, so it depends on this; the
    module says exactly which steps keep it. */
module Ring {
  import opened ChannelState
  import opened Memory
  import opened Options
  import opened Runs
  import opened Splitting

  /** All segments, each followed by its ring successor. */
  ghost predicate IsRing(q: seq<SegId>) {
    && |q| == NUM_DESCS
    && forall k :: 0 <= k < NUM_DESCS ==> q[k] == (q[0] + k) % NUM_DESCS
  }

  lemma ModShift(x: nat, k: nat)
    ensures (x % NUM_DESCS + k) % NUM_DESCS == (x + k) % NUM_DESCS
    ensures (x + NUM_DESCS) % NUM_DESCS == x % NUM_DESCS
  {
  }

  lemma RingRotate(a: seq<SegId>, b: seq<SegId>)
    requires IsRing(a + b)
    ensures IsRing(b + a)
  {
    var q, z := a + b, b + a;
    if a == [] || b == [] {
      assert z == q;
    } else {
      assert z[0] == q[|a|] == (q[0] + |a|) % NUM_DESCS;
      forall k | 0 <= k < NUM_DESCS ensures z[k] == (z[0] + k) % NUM_DESCS {
        ModShift(q[0] + |a|, k);
        if k < |b| {
          assert z[k] == q[|a| + k];
        } else {
          assert z[k] == q[k - |b|];
          ModShift(q[0] + (k - |b|), 0);
        }
      }
    }
  }

  lemma RingApart(q: seq<SegId>, i: nat, j: nat)
    requires IsRing(q) && i < j < |q|
    ensures q[i] != q[j]
  {
    ModApart(q[0], i, j);
  }

  lemma ModApart(x: nat, i: nat, j: nat)
    requires x < NUM_DESCS && i < j < NUM_DESCS
    ensures (x + i) % NUM_DESCS != (x + j) % NUM_DESCS
  {
  }

  /** Where block a ends, the next non-empty block starts with the ring successor. */
  lemma RingJoin(a: seq<SegId>, b: seq<SegId>, c: seq<SegId>)
    requires IsRing(a + b + c) && a != [] && b != []
    ensures b[0] == Succ(Last(a))
  {
    var q := a + b + c;
    assert q[|a| - 1] == Last(a) && q[|a|] == b[0];
  }

  /** Exchanging two adjacent blocks of the ring leaves a rotation of it exactly when one of
      the three blocks concerned is empty. */
  lemma SwapBlocks(a: seq<SegId>, b: seq<SegId>, c: seq<SegId>)
    requires IsRing(a + b + c)
    ensures IsRing(a + c + b) <==> a == [] || b == [] || c == []
  {
    if a == [] {
      assert a + b + c == b + c && a + c + b == c + b;
      RingRotate(b, c);
    } else if b == [] || c == [] {
      assert a + c + b == a + b + c;
    } else {
      RingJoin(a, b, c);
      if IsRing(a + c + b) { RingJoin(a, c, b); }
      var q := a + b + c;
      RingApart(q, |a|, |a| + |b|);
      assert q[|a|] == b[0] && q[|a| + |b|] == c[0];
    }
  }

  function Count(b: bool): nat { if b then 1 else 0 }

  /** Reversing the order of three blocks after a fixed one: a rotation exactly when at most
      two of the four are non-empty. */
  lemma ReverseBlocks(a: seq<SegId>, b: seq<SegId>, c: seq<SegId>, d: seq<SegId>)
    requires IsRing(a + b + c + d)
    ensures IsRing(a + d + c + b) <==> Count(a != []) + Count(b != []) + Count(c != []) + Count(d != []) <= 2
  {
    if a == [] {
      assert a + b + c + d == b + c + d && a + d + c + b == (d + c) + b;
      SwapBlocks(b, c, d);
      assert b + (d + c) == b + d + c;
      if IsRing((d + c) + b) { RingRotate(d + c, b); }
      if IsRing(b + d + c) { RingRotate(b, d + c); }
    } else if b == [] {
      assert a + b + c + d == a + c + d && a + d + c + b == a + d + c;
      SwapBlocks(a, c, d);
    } else if d == [] {
      assert a + b + c + d == a + b + c && a + d + c + b == a + c + b;
      SwapBlocks(a, b, c);
    } else {
      ReverseFails(a, b, c, d);
    }
  }

  lemma ReverseFails(a: seq<SegId>, b: seq<SegId>, c: seq<SegId>, d: seq<SegId>)
    requires IsRing(a + b + c + d) && a != [] && b != [] && d != []
    ensures !IsRing(a + d + c + b)
  {
    var q := a + b + c + d;
    assert q == a + b + (c + d);
    RingJoin(a, b, c + d);
    if IsRing(a + d + c + b) {
      assert a + d + c + b == a + d + (c + b);
      RingJoin(a, d, c + b);
    }
    RingApart(q, |a|, |a| + |b| + |c|);
    assert q[|a|] == b[0] && q[|a| + |b| + |c|] == d[0];
  }

  // ---- The channel's ring ---------------------------------------------------------------

  /** Every link still names the ring successor, as the allocator set it. */
  ghost predicate Intact(s: State) {
    forall i: SegId :: s.hw[i].next == Addr(s.base, Succ(i))
  }

  ghost predicate RingInv(y: System) {
    IsRing(Order(y)) && Intact(y.ch)
  }

  /** The caller-visible condition under which a step keeps the ring. */
  predicate KeepsRing(y: System, step: Step) {
    y.ch.bug ||
    match step
    case StepSubmit(j, callback, after) =>
      j < |y.prepared| ==>
        if y.ch.cyclic then
          // a refused descriptor jumps to the pool's tail: harmless only from either end
          (Queued(y) == [] && j == 0) || (j == |y.prepared| - 1 && y.ch.free == [])
        else
          // oldest prepared first, or nothing else in the pool to be out of order with
          Accepting(y.ch, after) ==>
            j == 0 || (Queued(y) == [] && j == |y.prepared| - 1 && y.ch.free == [])
    case StepTerminate(_) =>
      Count(y.held != []) + Count(y.ch.done + y.ch.active != []) + Count(y.ch.pending != [])
      + Count(y.prepared != [] || y.ch.free != []) <= 2
    case _ => true
  }

  /** The descriptors the driver has hold of. */
  function Queued(y: System): seq<Desc> {
    y.held + y.ch.done + y.ch.active + y.ch.pending
  }

  lemma FlatEmpty(ds: seq<Desc>)
    ensures Flat(ds) == [] <==> ds == []
  {
  }

  lemma LiveIsQueued(y: System)
    ensures Live(y) == Flat(Queued(y))
    ensures Live(y) == [] <==> Queued(y) == []
  {
    FlatConcat(y.held + y.ch.done + y.ch.active, y.ch.pending);
    FlatConcat(y.held + y.ch.done, y.ch.active);
    FlatConcat(y.held, y.ch.done);
    FlatEmpty(Queued(y));
  }

  /** Exchanging two neighbours deep inside the ring. */
  lemma SwapInside(l: seq<SegId>, b: seq<SegId>, d: seq<SegId>, r: seq<SegId>)
    requires IsRing(l + b + d + r)
    ensures IsRing(l + d + b + r) <==> b == [] || d == [] || (l == [] && r == [])
  {
    assert l + b + d + r == (l + b + d) + r && l + d + b + r == (l + d + b) + r;
    RingRotate(l + b + d, r);
    assert r + (l + b + d) == (r + l) + b + d;
    assert r + (l + d + b) == (r + l) + d + b;
    SwapBlocks(r + l, b, d);
    if IsRing((l + d + b) + r) { RingRotate(l + d + b, r); }
    if IsRing(r + (l + d + b)) { RingRotate(r, l + d + b); }
  }

  lemma AcceptedRing(y: System, j: nat, callback: bool, after: nat)
    requires IsRing(Order(y)) && j < |y.prepared|
    requires Submit(y.ch, y.prepared[j].(callback := callback), after).outcome.Accepted?
    ensures IsRing(Order(NextSubmit(y, j, callback, after))) <==>
            j == 0 || (Queued(y) == [] && j == |y.prepared| - 1 && y.ch.free == [])
  {
    var before, d, behind := Flat(y.prepared[..j]), y.prepared[j].segs, Flat(y.prepared[j + 1..]);
    SubmitOrder(y, j, callback, after);
    LiveIsQueued(y);
    FlatEmpty(y.prepared[..j]);
    FlatEmpty(y.prepared[j + 1..]);
    Regroup(Live(y), before, d, behind, y.ch.free);
    SwapInside(Live(y), before, d, behind + y.ch.free);
  }

  lemma Regroup(l: seq<SegId>, b: seq<SegId>, d: seq<SegId>, h: seq<SegId>, f: seq<SegId>)
    ensures l + (b + d + h) + f == l + b + d + (h + f)
    ensures l + d + (b + h) + f == l + d + b + (h + f)
    ensures l + (b + h) + (f + d) == (l + b) + (h + f) + d
    ensures l + (b + d + h) + f == (l + b) + d + (h + f)
  {
  }

  lemma BusyRing(y: System, j: nat, callback: bool, after: nat)
    requires IsRing(Order(y)) && j < |y.prepared|
    requires Submit(y.ch, y.prepared[j].(callback := callback), after).outcome.Busy?
    ensures IsRing(Order(NextSubmit(y, j, callback, after))) <==>
            (Queued(y) == [] && j == 0) || (j == |y.prepared| - 1 && y.ch.free == [])
  {
    var before, d, behind := Flat(y.prepared[..j]), y.prepared[j].segs, Flat(y.prepared[j + 1..]);
    SubmitOrder(y, j, callback, after);
    LiveIsQueued(y);
    FlatEmpty(y.prepared[..j]);
    FlatEmpty(y.prepared[j + 1..]);
    Regroup(Live(y), before, d, behind, y.ch.free);
    SwapBlocks(Live(y) + before, d, behind + y.ch.free);
  }

  lemma TerminateRing(y: System, ok: bool)
    requires IsRing(Order(y))
    ensures IsRing(Order(NextTerminate(y, ok))) <==>
            Count(y.held != []) + Count(y.ch.done + y.ch.active != []) + Count(y.ch.pending != [])
            + Count(y.prepared != [] || y.ch.free != []) <= 2
  {
    TerminateOrder(y, ok);
    FlatEmpty(y.held);
    FlatEmpty(y.ch.done);
    FlatEmpty(y.ch.active);
    FlatEmpty(y.ch.pending);
    FlatEmpty(y.prepared);
    ReverseBlocks(Flat(y.held), Flat(y.ch.done) + Flat(y.ch.active), Flat(y.ch.pending), Flat(y.prepared) + y.ch.free);
  }

  lemma LastLive(y: System)
    requires y.ch.pending != []
    ensures Live(y) != [] && Last(Live(y)) == Last(Last(y.ch.pending).segs)
  {
    var n := |y.ch.pending| - 1;
    FlatRemove(y.ch.pending, n);
    assert y.ch.pending[n + 1..] == [];
    assert Flat(y.ch.pending) == Flat(y.ch.pending[..n]) + y.ch.pending[n].segs;
  }

  lemma FirstPrepared(y: System)
    requires y.prepared != []
    ensures Order(y) == Live(y) + y.prepared[0].segs + (Flat(y.prepared[1..]) + y.ch.free)
  {
    OrderLive(y);
  }

  /** In order, the write in append_desc_queue stores the value that is already there. */
  lemma AppendKeepsLinks(y: System, d: Desc)
    requires RingInv(y) && MemoryInv(y)
    requires y.prepared != [] && d.segs == y.prepared[0].segs && d.phys == y.prepared[0].phys
    ensures Append(y.ch, d).hw == y.ch.hw
  {
    if y.ch.pending != [] {
      LastLive(y);
      FirstPrepared(y);
      RingJoin(Live(y), d.segs, Flat(y.prepared[1..]) + y.ch.free);
      assert y.prepared[0] in Owners(y);
    }
  }

  lemma AcceptedRingLinks(y: System, j: nat, callback: bool, after: nat)
    requires RingInv(y) && MemoryInv(y) && j < |y.prepared| && Accepting(y.ch, after)
    ensures RingInv(NextSubmit(y, j, callback, after)) <==>
            j == 0 || (Queued(y) == [] && j == |y.prepared| - 1 && y.ch.free == [])
  {
    var d := y.prepared[j].(callback := callback);
    AcceptedState(y.ch, d, after);
    AcceptedRing(y, j, callback, after);
    if j == 0 { AppendKeepsLinks(y, d.(cookie := Submit(y.ch, d, after).outcome.cookie)); }
  }

  lemma BusyRingLinks(y: System, j: nat, callback: bool, after: nat)
    requires RingInv(y) && j < |y.prepared| && y.ch.cyclic
    ensures RingInv(NextSubmit(y, j, callback, after)) <==>
            (Queued(y) == [] && j == 0) || (j == |y.prepared| - 1 && y.ch.free == [])
  {
    BusyRing(y, j, callback, after);
  }

  lemma FailedRing(y: System, j: nat, callback: bool, after: nat)
    requires RingInv(y) && j < |y.prepared| && !y.ch.cyclic && !Accepting(y.ch, after)
    ensures RingInv(NextSubmit(y, j, callback, after))
  {
    SubmitOrder(y, j, callback, after);
  }

  lemma SubmitRing(y: System, j: nat, callback: bool, after: nat)
    requires RingInv(y) && MemoryInv(y) && j < |y.prepared| && !y.ch.bug
    ensures RingInv(NextSubmit(y, j, callback, after)) <==> KeepsRing(y, StepSubmit(j, callback, after))
  {
    if y.ch.cyclic {
      BusyRingLinks(y, j, callback, after);
    } else if Accepting(y.ch, after) {
      AcceptedRingLinks(y, j, callback, after);
    } else {
      FailedRing(y, j, callback, after);
    }
  }

  lemma PrepRing(y: System, ps: seq<Range>, mark: bool, app: Option<App>)
    requires RingInv(y)
    ensures RingInv(AddPrepared(y, Prep(y.ch, ps, mark, app)))
  {
    if PrepFits(y.ch, ps) {
      PrepOrder(y, ps, mark, app);
      PrepFrame(y.ch, ps, mark, app);
      var s := Prep(y.ch, ps, mark, app).state;
      assert SameLinks(y.ch.hw, s.hw) && s.base == y.ch.base;
    }
  }

  lemma PrepCyclicRing(y: System, buf: nat, len: nat, period: nat, mark: bool)
    requires RingInv(y) && period > 0
    ensures RingInv(AddPrepared(y, PrepCyclic(y.ch, buf, len, period, mark)))
  {
    var ps := Split(Periods(buf, period, len / period));
    PrepCyclicOrder(y, buf, len, period, mark);
    if PrepFits(y.ch, ps) {
      PrepFrame(y.ch, ps, mark, None);
      var s := PrepCyclic(y.ch, buf, len, period, mark).state;
      assert SameLinks(y.ch.hw, s.hw) && s.base == y.ch.base;
    }
  }

  lemma StartRing(y: System, ok: bool)
    requires RingInv(y)
    ensures RingInv(y.(ch := Start(y.ch, ok)))
  {
    StartOrder(y, ok);
  }

  lemma IrqRing(y: System, status: nat, ok: bool)
    requires RingInv(y)
    ensures RingInv(NextIrq(y, status, ok))
  {
    IrqOrder(y, status, ok);
    var s := Irq(y.ch, status, ok);
    assert s.hw == y.ch.hw && s.base == y.ch.base;
  }

  lemma TerminateKeepsLinks(y: System, ok: bool)
    requires Intact(y.ch)
    ensures Intact(Terminate(y.ch, ok))
  {
    TerminateShape(y.ch, ok);
  }

  lemma HwWriteRing(y: System, seg: SegId, status: nat, words: App)
    requires RingInv(y)
    ensures RingInv(NextHwWrite(y, seg, status, words))
  {
    assert Order(NextHwWrite(y, seg, status, words)) == Order(y);
  }

  lemma StartStepRing(y: System, ok: bool)
    requires RingInv(y) && !y.ch.bug
    ensures RingInv(Next(y, StepIssue(ok)))
  {
    StartRing(y, ok);
    assert Order(Next(y, StepIssue(ok))) == Order(y.(ch := Start(y.ch, ok)));
  }

  /** All other steps keep the ring whatever they find. */
  lemma EngineRing(y: System, step: Step)
    requires RingInv(y) && !y.ch.bug && !step.StepSubmit? && !step.StepTerminate?
    ensures RingInv(Next(y, step))
  {
    match step
    case StepPrepSg(entries, mark, app) => PrepRing(y, Split(entries), mark, app);
    case StepPrepCyclic(buf, len, period, mark) => if period > 0 { PrepCyclicRing(y, buf, len, period, mark); }
    case StepIssue(ok) => StartStepRing(y, ok);
    case StepIrq(status, ok) => IrqRing(y, status, ok);
    case StepTake => if AtLoopHead(y) && CanTake(y.ch) { TakeOrder(y); }
    case StepFree => FreeRing(y);
    case StepHwWrite(seg, status, words) => HwWriteRing(y, seg, status, words);
    case StepRing =>
    case StepCall =>
    case StepRung =>
    case StepHwFinish =>
  }

  /** Exactly the steps that satisfy the condition keep the ring. */
  lemma RingNext(y: System, step: Step)
    requires RingInv(y) && MemoryInv(y)
    ensures RingInv(Next(y, step)) <==> KeepsRing(y, step)
  {
    if y.ch.bug {
      assert Next(y, step) == y;
    } else if step.StepSubmit? {
      if step.j < |y.prepared| { SubmitRing(y, step.j, step.callback, step.after); }
    } else if step.StepTerminate? {
      TerminateRing(y, step.ok);
      TerminateKeepsLinks(y, step.ok);
    } else {
      EngineRing(y, step);
    }
  }

  lemma FreeRing(y: System)
    requires RingInv(y)
    ensures RingInv(NextFree(y))
  {
    FreeOrder(y);
    var rest := Flat(y.ch.done) + Flat(y.ch.active) + Flat(y.ch.pending) + (Flat(y.prepared) + y.ch.free);
    RingRotate(Flat(y.held), rest);
  }

  lemma BootRing(base: nat, sg: bool, ctrl: nat, regs: Regs)
    ensures RingInv(Boot(base, sg, ctrl, regs))
  {
    BootOrder(base, sg, ctrl, regs);
    AllSegsRing();
  }

  lemma AllSegsRing()
    ensures IsRing(AllSegs())
  {
  }

  lemma BootOrder(base: nat, sg: bool, ctrl: nat, regs: Regs)
    ensures Order(Boot(base, sg, ctrl, regs)) == AllSegs() && Intact(Boot(base, sg, ctrl, regs).ch)
  {
  }

  // ---- Disciplined runs -----------------------------------------------------------------

  predicate Disciplined(y: System, steps: seq<Step>)
    decreases |steps|
  {
    steps == [] || (KeepsRing(y, steps[0]) && Disciplined(Next(y, steps[0]), steps[1..]))
  }

  lemma {:induction false} RingInDisciplinedRun(y: System, steps: seq<Step>)
    requires RingInv(y) && MemoryInv(y) && Disciplined(y, steps)
    ensures RingInv(Run(y, steps)) && MemoryInv(Run(y, steps))
    decreases |steps|
  {
    if steps != [] {
      RingNext(y, steps[0]);
      MemoryNext(y, steps[0]);
      RingInDisciplinedRun(Next(y, steps[0]), steps[1..]);
    }
  }

  ghost predicate StaysOnRing(y: System, steps: seq<Step>) {
    forall n :: 0 <= n <= |steps| ==> RingInv(Run(y, steps[..n]))
  }

  lemma RunPrefix(y: System, steps: seq<Step>, n: nat)
    requires n < |steps|
    ensures Run(y, steps[..n + 1]) == Run(Next(y, steps[0]), steps[1..][..n])
  {
    assert steps[..n + 1][1..] == steps[1..][..n];
  }

  /** The discipline is necessary as well: a run stays on the ring throughout exactly when
      every one of its steps meets the condition. */
  lemma {:induction false} OnlyDisciplinedRunsStayOnTheRing(y: System, steps: seq<Step>)
    requires RingInv(y) && MemoryInv(y)
    ensures Disciplined(y, steps) <==> StaysOnRing(y, steps)
    decreases |steps|
  {
    if Disciplined(y, steps) {
      forall n | 0 <= n <= |steps| ensures RingInv(Run(y, steps[..n])) {
        DisciplinedPrefix(y, steps, n);
        RingInDisciplinedRun(y, steps[..n]);
      }
    }
    if StaysOnRing(y, steps) && steps != [] {
      var z := Next(y, steps[0]);
      RunPrefix(y, steps, 0);
      assert Run(z, steps[1..][..0]) == z;
      assert RingInv(Run(y, steps[..1]));
      RingNext(y, steps[0]);
      MemoryNext(y, steps[0]);
      forall n | 0 <= n <= |steps[1..]| ensures RingInv(Run(z, steps[1..][..n])) {
        RunPrefix(y, steps, n);
        assert RingInv(Run(y, steps[..n + 1]));
      }
      OnlyDisciplinedRunsStayOnTheRing(z, steps[1..]);
    }
  }

  lemma {:induction false} DisciplinedPrefix(y: System, steps: seq<Step>, n: nat)
    requires Disciplined(y, steps) && n <= |steps|
    ensures Disciplined(y, steps[..n])
    decreases n
  {
    if n > 0 {
      DisciplinedPrefix(Next(y, steps[0]), steps[1..], n - 1);
      assert steps[..n][1..] == steps[1..][..n - 1];
    }
  }
}
