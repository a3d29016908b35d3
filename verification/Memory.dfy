/** What every run keeps about segment memory: bus addresses, the links between queued
    descriptors, and the cleanliness of free segments. */
module Memory {
  import opened ChannelState
  import opened Options
  import opened Pool
  import opened Runs
  import opened Splitting

  /** Every descriptor carries the bus address of its first segment. */
  ghost predicate Addressed(y: System) {
    forall d :: d in Owners(y) ==> d.phys == Addr(y.ch.base, d.segs[0])
  }

  /** Consecutive descriptors are chained: the last segment of one links to the next. */
  ghost predicate Linked(hw: Bank, ds: seq<Desc>) {
    forall k :: 0 < k < |ds| ==> hw[Last(ds[k - 1].segs)].next == ds[k].phys
  }

  ghost predicate SameLinks(hw: Bank, hw': Bank) {
    forall i: SegId :: hw'[i].next == hw[i].next
  }

  /** Free segments hold nothing but their link: every other word is zero. */
  ghost predicate FreeClean(s: State) {
    forall i :: i in s.free ==> s.hw[i] == Hw(s.hw[i].next, 0, 0, 0, [0, 0, 0, 0, 0])
  }

  /** The memory part of the channel invariant. */
  ghost predicate MemoryInv(y: System) {
    && Conserved(y)
    && Addressed(y)
    && Linked(y.ch.hw, y.ch.pending)
    && Linked(y.ch.hw, y.ch.active)
    && FreeClean(y.ch)
    && (y.ch.idle ==> y.ch.active == [])
  }

  lemma {:induction false} FillFrame(hw: Bank, segs: seq<SegId>, ps: seq<Range>, app: Option<App>, n: nat)
    requires n <= |segs| && n <= |ps|
    ensures SameLinks(hw, Fill(hw, segs, ps, app, n))
    ensures forall i: SegId :: i !in segs[..n] ==> Fill(hw, segs, ps, app, n)[i] == hw[i]
  {
    if n > 0 {
      FillFrame(hw, segs, ps, app, n - 1);
      assert segs[..n] == segs[..n - 1] + [segs[n - 1]];
    }
  }

  lemma MarkFrame(hw: Bank, segs: Segs, mark: bool)
    ensures SameLinks(hw, MarkPacket(hw, segs, mark))
    ensures forall i: SegId :: i !in segs ==> MarkPacket(hw, segs, mark)[i] == hw[i]
  {
  }

  /** Preparation writes to the segments it takes, and not to their links. */
  lemma PrepFrame(s: State, ps: seq<Range>, mark: bool, app: Option<App>)
    requires PrepFits(s, ps)
    ensures SameLinks(s.hw, Prep(s, ps, mark, app).state.hw)
    ensures forall i: SegId :: i !in s.free[..|ps|] ==> Prep(s, ps, mark, app).state.hw[i] == s.hw[i]
  {
    var words := if mark then app else None;
    FillFrame(s.hw, s.free[..|ps|], ps, words, |ps|);
    MarkFrame(Fill(s.hw, s.free[..|ps|], ps, words, |ps|), s.free[..|ps|], mark);
  }

  lemma PrepClean(y: System, ps: seq<Range>, mark: bool, app: Option<App>)
    requires MemoryInv(y) && PrepFits(y.ch, ps)
    ensures FreeClean(Prep(y.ch, ps, mark, app).state)
  {
    var s := Prep(y.ch, ps, mark, app).state;
    PrepFrame(y.ch, ps, mark, app);
    OwnersApart(y);
    assert y.ch.free == y.ch.free[..|ps|] + s.free;
    PartNoRepeats(y.ch.free[..|ps|], s.free);
  }

  lemma PreparedMemory(y: System, p: Prepared)
    requires MemoryInv(y) && p.desc.Some? && Conserved(AddPrepared(y, p))
    requires p.state.done == y.ch.done && p.state.active == y.ch.active && p.state.pending == y.ch.pending
    requires p.state.base == y.ch.base && p.state.idle == y.ch.idle
    requires p.desc.value.phys == Addr(y.ch.base, p.desc.value.segs[0])
    requires SameLinks(y.ch.hw, p.state.hw) && FreeClean(p.state)
    ensures MemoryInv(AddPrepared(y, p))
  {
    PreparedOwners(y, p);
  }

  lemma PrepMemory(y: System, ps: seq<Range>, mark: bool, app: Option<App>)
    requires MemoryInv(y)
    ensures MemoryInv(AddPrepared(y, Prep(y.ch, ps, mark, app)))
  {
    if PrepFits(y.ch, ps) {
      PrepOrder(y, ps, mark, app);
      PrepFrame(y.ch, ps, mark, app);
      PrepClean(y, ps, mark, app);
      PreparedMemory(y, Prep(y.ch, ps, mark, app));
    }
  }

  lemma PrepCyclicMemory(y: System, buf: nat, len: nat, period: nat, mark: bool)
    requires MemoryInv(y) && period > 0
    ensures MemoryInv(AddPrepared(y, PrepCyclic(y.ch, buf, len, period, mark)))
  {
    var ps := Split(Periods(buf, period, len / period));
    PrepCyclicOrder(y, buf, len, period, mark);
    if PrepFits(y.ch, ps) {
      PrepFrame(y.ch, ps, mark, None);
      PrepClean(y, ps, mark, None);
      PreparedMemory(y, PrepCyclic(y.ch, buf, len, period, mark));
    }
  }

  /** Appending links the old tail to the new descriptor and disturbs no other link that
      matters. */
  lemma AppendLinks(y: System, s: State, d: Desc)
    requires MemoryInv(y)
    requires s.hw == y.ch.hw && s.pending == y.ch.pending && s.active == y.ch.active
    ensures Linked(Append(s, d).hw, s.pending + [d])
    ensures Linked(Append(s, d).hw, s.active)
  {
    var hw := Append(s, d).hw;
    var queued := s.active + s.pending;
    QueuedApart(y);
    if s.pending != [] {
      var t := Last(Last(s.pending).segs);
      forall k: nat | k < |queued| - 1 ensures Last(queued[k].segs) != t {
        if Last(queued[k].segs) == t { SegsApart(queued, k, |queued| - 1, t); }
      }
      forall k | 0 < k < |s.active| ensures hw[Last(s.active[k - 1].segs)].next == s.active[k].phys {
        assert queued[k - 1] == s.active[k - 1];
      }
      var pending' := s.pending + [d];
      forall k | 0 < k < |pending'| ensures hw[Last(pending'[k - 1].segs)].next == pending'[k].phys {
        if k < |s.pending| { assert queued[|s.active| + k - 1] == s.pending[k - 1]; }
      }
    }
  }

  lemma AcceptedState(s: State, d: Desc, after: nat)
    requires Submit(s, d, after).outcome.Accepted?
    ensures
      var t := Submit(s, d, after).state;
      var d' := d.(cookie := Submit(s, d, after).outcome.cookie);
      && t.hw == Append(s, d').hw && t.pending == s.pending + [d'] && t.active == s.active && t.done == s.done
      && t.free == s.free && t.base == s.base && t.idle == s.idle
  {
  }

  lemma AcceptedOwners(y: System, z: System, j: nat, d: Desc)
    requires Addressed(y) && j < |y.prepared| && d.segs == y.prepared[j].segs && d.phys == y.prepared[j].phys
    requires z.held == y.held && z.ch.done == y.ch.done && z.ch.active == y.ch.active && z.ch.base == y.ch.base
    requires z.ch.pending == y.ch.pending + [d] && z.prepared == Remove(y.prepared, j)
    ensures Addressed(z)
  {
    assert y.prepared[j] in Owners(y);
    forall e | e in Owners(z) ensures e in Owners(y) || e == d { }
  }

  lemma AcceptedMemory(y: System, j: nat, callback: bool, after: nat)
    requires MemoryInv(y) && j < |y.prepared|
    requires Submit(y.ch, y.prepared[j].(callback := callback), after).outcome.Accepted?
    ensures MemoryInv(NextSubmit(y, j, callback, after))
  {
    var z := NextSubmit(y, j, callback, after);
    SubmitConserved(y, j, callback, after);
    var d := y.prepared[j].(callback := callback);
    var d' := d.(cookie := Submit(y.ch, d, after).outcome.cookie);
    AcceptedState(y.ch, d, after);
    AcceptedOwners(y, z, j, d');
    AppendLinks(y, y.ch, d');
  }

  lemma BusyMemory(y: System, j: nat, callback: bool, after: nat)
    requires MemoryInv(y) && j < |y.prepared| && y.ch.cyclic
    ensures MemoryInv(NextSubmit(y, j, callback, after))
  {
    var z := NextSubmit(y, j, callback, after);
    SubmitConserved(y, j, callback, after);
    assert z.ch == FreeSegs(y.ch, y.prepared[j].segs) && z.prepared == Remove(y.prepared, j);
    assert forall e :: e in Owners(z) ==> e in Owners(y);
  }

  lemma SubmitMemory(y: System, j: nat, callback: bool, after: nat)
    requires MemoryInv(y) && j < |y.prepared|
    ensures MemoryInv(NextSubmit(y, j, callback, after))
  {
    var z := NextSubmit(y, j, callback, after);
    var r := Submit(y.ch, y.prepared[j].(callback := callback), after);
    match r.outcome
    case Accepted(cookie) => AcceptedMemory(y, j, callback, after);
    case Busy => BusyMemory(y, j, callback, after);
    case ResetFailed =>
      SubmitConserved(y, j, callback, after);
      assert z.ch.hw == y.ch.hw && Owners(z) == Owners(y);
  }

  lemma StartMemory(y: System, ok: bool)
    requires MemoryInv(y)
    ensures MemoryInv(y.(ch := Start(y.ch, ok)))
  {
    StartOrder(y, ok);
    StartOwners(y, ok);
    if CanStart(y.ch) && ok { assert Start(y.ch, ok).active == y.ch.pending; }
  }

  lemma CompletedMemory(y: System, status: nat)
    requires MemoryInv(y)
    ensures MemoryInv(y.(ch := Completed(y.ch, status)))
  {
    var z := y.(ch := Completed(y.ch, status));
    CompletedOrder(y, status);
    assert z.ch.hw == y.ch.hw && z.ch.base == y.ch.base;
  }

  lemma IrqMemory(y: System, status: nat, ok: bool)
    requires MemoryInv(y)
    ensures MemoryInv(NextIrq(y, status, ok))
  {
    var w := NextIrq(y, status, ok);
    if HasIoc(status) {
      var z := y.(ch := Completed(y.ch, status));
      CompletedMemory(y, status);
      StartMemory(z, ok);
      assert w.ch == Start(z.ch, ok);
      assert Owners(w) == Owners(z.(ch := Start(z.ch, ok)));
    } else {
      assert Order(w) == Order(y) && Owners(w) == Owners(y);
    }
  }

  lemma FreeMemory(y: System)
    requires MemoryInv(y)
    ensures MemoryInv(NextFree(y))
  {
    FreeConserved(y);
    assert forall e :: e in Owners(NextFree(y)) ==> e in Owners(y);
  }

  lemma TerminateShape(s: State, ok: bool)
    ensures
      var t := Terminate(s, ok);
      && t.base == s.base && t.idle == s.idle
      && t.pending == [] && t.done == [] && t.active == []
      && t.free == s.free + Flat(s.pending + s.done + s.active)
      && t.hw == CleanAll(s.hw, Flat(s.pending + s.done + s.active))
  {
  }

  lemma TerminateMemory(y: System, ok: bool)
    requires MemoryInv(y)
    ensures MemoryInv(NextTerminate(y, ok))
  {
    var z := NextTerminate(y, ok);
    TerminateConserved(y, ok);
    TerminateShape(y.ch, ok);
    RegroupOwners(y.held, y.ch.done, y.ch.active, y.ch.pending, y.prepared, []);
    assert Owners(z) == y.held + y.prepared;
    assert forall e :: e in Owners(z) ==> e in Owners(y);
  }

  lemma TakeMemory(y: System)
    requires MemoryInv(y) && y.held == [] && CanTake(y.ch)
    ensures MemoryInv(NextTake(y))
  {
    TakeOrder(y);
    TakeOwners(y);
  }

  lemma HwWriteMemory(y: System, seg: SegId, status: nat, app: App)
    requires MemoryInv(y)
    ensures MemoryInv(NextHwWrite(y, seg, status, app))
  {
    QueuedApart(y);
    var z := NextHwWrite(y, seg, status, app);
    assert Order(z) == Order(y) && Owners(z) == Owners(y);
    assert SameLinks(y.ch.hw, z.ch.hw);
  }

  lemma IssueMemory(y: System, ok: bool)
    requires MemoryInv(y) && !y.ch.bug
    ensures MemoryInv(Next(y, StepIssue(ok)))
  {
    StartMemory(y, ok);
    SameMemory(y.(ch := Start(y.ch, ok)), Next(y, StepIssue(ok)));
  }

  lemma ClientMemory(y: System, step: Step)
    requires MemoryInv(y) && !y.ch.bug && ClientSide(step)
    ensures MemoryInv(Next(y, step))
  {
    match step
    case StepPrepSg(entries, mark, app) => PrepMemory(y, Split(entries), mark, app);
    case StepPrepCyclic(buf, len, period, mark) => if period > 0 { PrepCyclicMemory(y, buf, len, period, mark); }
    case StepSubmit(j, callback, after) => if j < |y.prepared| { SubmitMemory(y, j, callback, after); }
    case StepIssue(ok) => IssueMemory(y, ok);
    case StepTerminate(ok) => TerminateMemory(y, ok);
  }

  lemma TaskletMemory(y: System, step: Step)
    requires MemoryInv(y) && !y.ch.bug && (step.StepTake? || step.StepFree?)
    ensures MemoryInv(Next(y, step))
  {
    match step
    case StepTake => if AtLoopHead(y) && CanTake(y.ch) { TakeMemory(y); }
    case StepFree => FreeMemory(y);
  }

  /** Every step, whatever the discipline of the clients, keeps the memory invariant. */
  lemma MemoryNext(y: System, step: Step)
    requires MemoryInv(y)
    ensures MemoryInv(Next(y, step))
  {
    if y.ch.bug {
      assert Next(y, step) == y;
    } else if ClientSide(step) {
      ClientMemory(y, step);
    } else if step.StepIrq? {
      IrqMemory(y, step.status, step.ok);
    } else if step.StepHwWrite? {
      HwWriteMemory(y, step.seg, step.status, step.words);
    } else if step.StepTake? || step.StepFree? {
      TaskletMemory(y, step);
    } else {
      SameMemory(y, Next(y, step));
    }
  }

  lemma SameMemory(y: System, z: System)
    requires MemoryInv(y) && z.ch == y.ch && z.held == y.held && z.prepared == y.prepared
    ensures MemoryInv(z)
  {
    assert Owners(z) == Owners(y);
  }

  lemma BootMemory(base: nat, sg: bool, ctrl: nat, regs: Regs)
    ensures MemoryInv(Boot(base, sg, ctrl, regs))
  {
    assert Order(Boot(base, sg, ctrl, regs)) == AllSegs();
  }

  /** In every run: conservation, addresses, batch links, clean free segments, and an idle
      channel has no active descriptor. */
  lemma {:induction false} MemoryInEveryRun(y: System, steps: seq<Step>)
    requires MemoryInv(y)
    ensures MemoryInv(Run(y, steps))
    decreases |steps|
  {
    if steps != [] {
      MemoryNext(y, steps[0]);
      MemoryInEveryRun(Next(y, steps[0]), steps[1..]);
    }
  }
}
