/** Conservation of segments: in every run each segment is in exactly one place, once. */
module Pool {
  import opened ChannelState
  import opened Runs

  /** The pool order is a rearrangement of all the segments. */
  ghost predicate Conserved(y: System) {
    multiset(Order(y)) == multiset(AllSegs())
  }

  lemma CountAll(i: SegId)
    ensures multiset(AllSegs())[i] == 1
  {
    assert AllSegs() == AllSegs()[..i] + [i] + AllSegs()[i + 1..];
    assert i !in AllSegs()[..i] && i !in AllSegs()[i + 1..];
  }

  /** Each segment is in exactly one of the six places, and once in it. */
  lemma ExactlyOnePlace(y: System, i: SegId)
    requires Conserved(y)
    ensures multiset(Flat(y.held))[i] + multiset(Flat(y.ch.done))[i] + multiset(Flat(y.ch.active))[i]
            + multiset(Flat(y.ch.pending))[i] + multiset(Flat(y.prepared))[i] + multiset(y.ch.free)[i] == 1
  {
    CountAll(i);
    OrderBlocks(y);
  }

  lemma PoolSize(q: seq<SegId>)
    requires multiset(q) == multiset(AllSegs())
    ensures |q| == NUM_DESCS
  {
    assert |multiset(q)| == |q| && |multiset(AllSegs())| == |AllSegs()|;
  }

  lemma SubmitConserved(y: System, j: nat, callback: bool, after: nat)
    requires Conserved(y) && j < |y.prepared|
    ensures Conserved(NextSubmit(y, j, callback, after))
  {
    SubmitOrder(y, j, callback, after);
  }

  lemma FreeConserved(y: System)
    requires Conserved(y)
    ensures Conserved(NextFree(y))
  {
    FreeOrder(y);
  }

  lemma TerminateConserved(y: System, ok: bool)
    requires Conserved(y)
    ensures Conserved(NextTerminate(y, ok))
  {
    TerminateOrder(y, ok);
  }

  lemma ClientConserved(y: System, step: Step)
    requires Conserved(y) && !y.ch.bug && ClientSide(step)
    ensures Conserved(Next(y, step))
  {
    match step
    case StepPrepSg(entries, mark, app) => PrepSgOrder(y, entries, mark, app);
    case StepPrepCyclic(buf, len, period, mark) => if period > 0 { PrepCyclicOrder(y, buf, len, period, mark); }
    case StepSubmit(j, callback, after) => if j < |y.prepared| { SubmitConserved(y, j, callback, after); }
    case StepIssue(ok) => StartOrder(y, ok);
    case StepTerminate(ok) => TerminateConserved(y, ok);
  }

  /** No step loses or duplicates a segment. */
  lemma ConservedNext(y: System, step: Step)
    requires Conserved(y)
    ensures Conserved(Next(y, step))
  {
    if y.ch.bug {
      assert Next(y, step) == y;
    } else if ClientSide(step) {
      ClientConserved(y, step);
    } else if step.StepIrq? {
      IrqOrder(y, step.status, step.ok);
    } else if step.StepTake? {
      if AtLoopHead(y) && CanTake(y.ch) { TakeOrder(y); }
    } else if step.StepFree? {
      FreeConserved(y);
    } else {
      OrderSame(y, step);
    }
  }

  lemma OrderSame(y: System, step: Step)
    requires step.StepRing? || step.StepCall? || step.StepRung? || step.StepHwWrite? || step.StepHwFinish?
    ensures Order(Next(y, step)) == Order(y)
  {
  }

  // ---- Consequences for the descriptors that own segments ------------------------------

  /** No segment appears twice. */
  ghost predicate NoRepeats(q: seq<SegId>) {
    forall i: SegId :: multiset(q)[i] <= 1
  }

  lemma OrderNoRepeats(y: System)
    requires Conserved(y)
    ensures NoRepeats(Order(y))
  {
    forall i: SegId ensures multiset(Order(y))[i] <= 1 { CountAll(i); }
  }

  lemma PartNoRepeats(a: seq<SegId>, b: seq<SegId>)
    requires NoRepeats(a + b)
    ensures NoRepeats(a) && NoRepeats(b)
    ensures forall i :: i in a ==> i !in b
  {
    forall i: SegId ensures multiset(a)[i] + multiset(b)[i] <= 1 {
      assert multiset(a + b)[i] <= 1;
    }
    forall i | i in a ensures i !in b {
      assert multiset(a)[i] + multiset(b)[i] <= 1;
    }
  }

  /** A segment of one descriptor is not a segment of a later one. */
  lemma SegsApart(ds: seq<Desc>, j: nat, k: nat, i: SegId)
    requires NoRepeats(Flat(ds)) && j < k < |ds| && i in ds[j].segs
    ensures i !in ds[k].segs
  {
    FlatRemove(ds, k);
    FlatRemove(ds[..k], j);
    assert i in Flat(ds[..k]);
    PartNoRepeats(Flat(ds[..k]) + ds[k].segs, Flat(ds[k + 1..]));
    PartNoRepeats(Flat(ds[..k]), ds[k].segs);
  }

  /** Owners' segments are distinct, and apart from the free list. */
  lemma OwnersApart(y: System)
    requires Conserved(y)
    ensures NoRepeats(Flat(Owners(y))) && NoRepeats(y.ch.free)
    ensures forall i :: i in Flat(Owners(y)) ==> i !in y.ch.free
  {
    OrderNoRepeats(y);
    PartNoRepeats(Flat(Owners(y)), y.ch.free);
  }

  /** The active and pending descriptors' segments are distinct, and not free. */
  lemma QueuedApart(y: System)
    requires Conserved(y)
    ensures NoRepeats(Flat(y.ch.active + y.ch.pending))
    ensures forall i :: i in Flat(y.ch.active) || i in Flat(y.ch.pending) ==> i !in y.ch.free
  {
    OwnersApart(y);
    var front, queued := y.held + y.ch.done, y.ch.active + y.ch.pending;
    assert Owners(y) == front + queued + y.prepared;
    FlatConcat(front + queued, y.prepared);
    FlatConcat(front, queued);
    FlatConcat(y.ch.active, y.ch.pending);
    PartNoRepeats(Flat(front + queued), Flat(y.prepared));
    PartNoRepeats(Flat(front), Flat(queued));
  }

  /** Pigeonhole: descriptors that own distinct segments, with what is free, number at most
      the pool size. */
  lemma {:induction false} OwnersFewer(ds: seq<Desc>)
    ensures |ds| <= |Flat(ds)|
  {
    if ds != [] { OwnersFewer(ds[1..]); }
  }

  lemma AtMostPool(y: System)
    requires Conserved(y)
    ensures |Owners(y)| + |y.ch.free| <= NUM_DESCS
    ensures forall d :: d in Owners(y) ==> |d.segs| <= NUM_DESCS
  {
    OwnersFewer(Owners(y));
    PoolSize(Order(y));
    forall d | d in Owners(y) ensures |d.segs| <= NUM_DESCS {
      var k :| 0 <= k < |Owners(y)| && Owners(y)[k] == d;
      FlatRemove(Owners(y), k);
    }
  }
}
