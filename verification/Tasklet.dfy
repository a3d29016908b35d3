/** The cleanup loop with its lock released around every callback, and the whole channel as one
    machine whose every step is carried out by the driver's operations. */
module Tasklet {
  import opened ChannelState
  import opened Callbacks
  import opened Driver
  import opened Memory
  import opened Options
  import opened Runs
  import opened Splitting

  /** What others can do while the tasklet has released the lock. */
  predicate Outside(step: Step) { !TaskletSide(step) }

  /** What others do while the lock is released for a callback, before it and after it. */
  datatype Gap = Gap(before: seq<Step>, after: seq<Step>)

  const NOTHING := Gap([], [])

  predicate OutsideOnly(w: Gap) {
    forall s :: s in w.before + w.after ==> Outside(s)
  }

  function First(windows: seq<Gap>): Gap {
    if windows == [] then NOTHING else windows[0]
  }

  lemma OutsideShape(y: System, step: Step)
    requires Outside(step)
    ensures
      var z := Next(y, step);
      && z.held == y.held && z.ringing == y.ringing && z.due == y.due && z.h.log == y.h.log
      && (y.ch.bug ==> z.ch.bug)
  {
    if IsPrep(step) { var z := PrepStep(y, step); }
  }

  lemma {:induction false} WindowShape(y: System, steps: seq<Step>)
    requires forall s :: s in steps ==> Outside(s)
    ensures
      var z := Run(y, steps);
      && z.held == y.held && z.ringing == y.ringing && z.due == y.due && z.h.log == y.h.log
      && (y.ch.bug ==> z.ch.bug)
    decreases |steps|
  {
    if steps != [] {
      OutsideShape(y, steps[0]);
      WindowShape(Next(y, steps[0]), steps[1..]);
    }
  }

  /** The callback, with what happens around it. */
  function CallIn(y: System, w: Gap): System {
    Run(Next(Run(y, w.before), StepCall), w.after)
  }

  /** One turn of the loop for a finite descriptor. */
  function Turn(y: System, w: Gap): System {
    Next(CallIn(Next(y, StepTake), w), StepFree)
  }

  /** The last turn, for a cyclic one. */
  function RingTurn(y: System, w: Gap): System {
    Next(CallIn(Next(y, StepRing), w), StepRung)
  }

  /** What happens in the window of the next turn, if it has one. */
  function NextWindow(y: System, windows: seq<Gap>): Gap
    requires y.ch.done != []
  {
    if y.ch.done[0].callback then First(windows) else NOTHING
  }

  function Later(y: System, windows: seq<Gap>): seq<Gap>
    requires y.ch.done != []
  {
    if y.ch.done[0].callback && windows != [] then windows[1..] else windows
  }

  predicate Stops(y: System) {
    y.ch.bug || !AtLoopHead(y) || y.ch.done == []
  }

  lemma TurnShortens(y: System)
    requires !Stops(y) && !y.ch.done[0].cyclic
    ensures |Turn(y, NOTHING).ch.done| < |y.ch.done|
  {
  }

  /** One pass of the loop, when windows[k] is what happens around its k-th callback, and nothing
      around the further ones. */
  function CleanupRun(y: System, windows: seq<Gap>): System
    decreases |windows|, |y.ch.done|
  {
    if Stops(y) then y
    else if y.ch.done[0].cyclic then
      if y.ch.done[0].callback then RingTurn(y, First(windows)) else y
    else
      TurnShortens(y);
      CleanupRun(Turn(y, NextWindow(y, windows)), Later(y, windows))
  }

  /** The same pass, as the steps it consists of. */
  function CleanupSteps(y: System, windows: seq<Gap>): seq<Step>
    decreases |windows|, |y.ch.done|
  {
    if Stops(y) then []
    else if y.ch.done[0].cyclic then
      if y.ch.done[0].callback then Around(StepRing, First(windows), StepRung) else []
    else
      var w := NextWindow(y, windows);
      TurnShortens(y);
      Around(StepTake, w, StepFree) + CleanupSteps(Turn(y, w), Later(y, windows))
  }

  function Around(a: Step, w: Gap, b: Step): seq<Step> {
    [a] + w.before + [StepCall] + w.after + [b]
  }

  lemma RunAround(y: System, a: Step, w: Gap, b: Step, rest: seq<Step>)
    ensures Run(y, Around(a, w, b) + rest) == Run(Next(CallIn(Next(y, a), w), b), rest)
  {
    var late := w.after + ([b] + rest);
    assert Around(a, w, b) + rest == [a] + (w.before + ([StepCall] + late));
    RunStep(y, a, w.before + ([StepCall] + late));
    RunConcat(Next(y, a), w.before, [StepCall] + late);
    var z := Run(Next(y, a), w.before);
    RunStep(z, StepCall, late);
    RunConcat(Next(z, StepCall), w.after, [b] + rest);
    RunStep(Run(Next(z, StepCall), w.after), b, rest);
  }

  /** A pass of the loop, whatever happens in its windows, is a run: all that holds in every
      run holds during and after it. */
  lemma {:induction false} CleanupIsARun(y: System, windows: seq<Gap>)
    ensures Run(y, CleanupSteps(y, windows)) == CleanupRun(y, windows)
    decreases |windows|, |y.ch.done|
  {
    if Stops(y) {
    } else if y.ch.done[0].cyclic {
      if y.ch.done[0].callback {
        var steps := Around(StepRing, First(windows), StepRung);
        RunAround(y, StepRing, First(windows), StepRung, []);
        assert steps + [] == steps;
      }
    } else {
      var w := NextWindow(y, windows);
      TurnShortens(y);
      CleanupIsARun(Turn(y, w), Later(y, windows));
      RunAround(y, StepTake, w, StepFree, CleanupSteps(Turn(y, w), Later(y, windows)));
    }
  }

  /** Where a pass ends, whatever happened in its windows: with nothing done, or at a cyclic
      descriptor, after calling it back if it asks for that. */
  ghost predicate Ended(z: System) {
    z.ch.bug || (AtLoopHead(z) &&
      (z.ch.done == [] ||
       (z.ch.done[0].cyclic && !z.ch.done[0].callback) ||
       (z.h.log != [] && Last(z.h.log).cyclic)))
  }

  /** Around a callback the tasklet keeps what it has, and the callback is made. */
  lemma CallInShape(y: System, w: Gap) returns (z: System)
    requires OutsideOnly(w)
    ensures z == CallIn(y, w) && z.held == y.held && z.ringing == y.ringing
    ensures z.ch.bug || (z.due == [] && z.h.log == y.h.log + y.due)
  {
    var b := Run(y, w.before);
    WindowShape(y, w.before);
    WindowShape(Next(b, StepCall), w.after);
    z := CallIn(y, w);
  }

  lemma RingTurnEnds(y: System, w: Gap)
    requires !Stops(y) && CanRing(y.ch) && OutsideOnly(w)
    ensures Ended(RingTurn(y, w))
  {
    var z := CallInShape(Next(y, StepRing), w);
  }

  lemma TurnEnds(y: System, w: Gap)
    requires OutsideOnly(w) && AtLoopHead(y)
    ensures Turn(y, w).ch.bug || AtLoopHead(Turn(y, w))
  {
    var z := CallInShape(Next(y, StepTake), w);
  }

  lemma {:induction false} CleanupRunEnds(y: System, windows: seq<Gap>)
    requires AtLoopHead(y) && forall w :: w in windows ==> OutsideOnly(w)
    ensures Ended(CleanupRun(y, windows))
    decreases |windows|, |y.ch.done|
  {
    if Stops(y) {
    } else if y.ch.done[0].cyclic {
      if y.ch.done[0].callback { RingTurnEnds(y, First(windows)); }
    } else {
      var w := NextWindow(y, windows);
      TurnShortens(y);
      TurnEnds(y, w);
      if !Turn(y, w).ch.bug { CleanupRunEnds(Turn(y, w), Later(y, windows)); }
    }
  }

  // ---- Nothing in the windows -----------------------------------------------------------------

  lemma CleanupStep(s: State)
    requires CanTake(s)
    ensures Cleanup(s) == Cleanup(FreeSegs(Take(s), s.done[0].segs))
  {
    var d, t := s.done[0], FreeSegs(Take(s), s.done[0].segs);
    var rest := Finite(s.done[1..]);
    assert Finite(s.done) == [d] + rest;
    FreeSegsStep(Take(s), d.segs, Flat(rest));
    assert Flat([d] + rest) == d.segs + Flat(rest) by {
      FlatConcat([d], rest);
      FlatOne(d);
    }
    assert s.done[|rest| + 1..] == s.done[1..][|rest|..];
  }

  lemma CleanupStop(s: State)
    requires !CanTake(s)
    ensures Cleanup(s) == s
  {
    FreeSegsNone(s);
    assert s.done[0..] == s.done;
  }

  /** The callbacks of an undisturbed pass: the finite descriptors', then a cyclic one's. */
  function PassCalls(ds: seq<Desc>): seq<Desc> {
    if ds == [] then []
    else (if ds[0].callback then [ds[0]] else []) + (if ds[0].cyclic then [] else PassCalls(ds[1..]))
  }

  /** The descriptors before a cyclic one have been freed, and exactly their callbacks made and
      then its. */
  ghost predicate Passed(y: System, z: System) {
    && z.ch == Cleanup(y.ch)
    && z.h.freed == y.h.freed + Finite(y.ch.done)
    && z.h.log == y.h.log + PassCalls(y.ch.done)
  }

  lemma TakeFreed(y: System) returns (z: System)
    requires !Stops(y) && CanTake(y.ch)
    ensures AtLoopHead(z) && !z.ch.bug && CleanupRun(y, []) == CleanupRun(z, [])
    ensures z.ch.done == y.ch.done[1..] && Cleanup(y.ch) == Cleanup(z.ch)
    ensures z.h.freed == y.h.freed + [y.ch.done[0]]
    ensures z.h.log == y.h.log + (if y.ch.done[0].callback then [y.ch.done[0]] else [])
  {
    FlatOne(y.ch.done[0]);
    NotifiedOne(y.ch.done[0]);
    TurnShortens(y);
    CleanupStep(y.ch);
    z := Turn(y, NOTHING);
  }

  lemma Assoc(a: seq<Desc>, b: seq<Desc>, c: seq<Desc>)
    ensures a + b + c == a + (b + c)
  {
  }

  lemma PassedFurther(y: System, z: System, w: System)
    requires y.ch.done != [] && !y.ch.done[0].cyclic && z.ch.done == y.ch.done[1..] && Cleanup(y.ch) == Cleanup(z.ch)
    requires z.h.freed == y.h.freed + [y.ch.done[0]]
    requires z.h.log == y.h.log + (if y.ch.done[0].callback then [y.ch.done[0]] else [])
    requires Passed(z, w)
    ensures Passed(y, w)
  {
    var d := y.ch.done[0];
    Assoc(y.h.freed, [d], Finite(z.ch.done));
    Assoc(y.h.log, if d.callback then [d] else [], PassCalls(z.ch.done));
  }

  lemma PassedEnd(y: System, z: System)
    requires !CanTake(y.ch) && z.ch == y.ch && z.h.freed == y.h.freed
    requires z.h.log == y.h.log + (if CanRing(y.ch) then [y.ch.done[0]] else [])
    ensures Passed(y, z)
  {
    CleanupStop(y.ch);
    FreedNothing(y, z);
    LastCalls(y.ch);
  }

  lemma FreedNothing(y: System, z: System)
    requires !CanTake(y.ch) && z.h.freed == y.h.freed
    ensures z.h.freed == y.h.freed + Finite(y.ch.done)
  {
  }

  lemma LastCalls(s: State)
    requires !CanTake(s)
    ensures PassCalls(s.done) == if CanRing(s) then [s.done[0]] else []
  {
  }

  lemma RingAlone(y: System)
    requires !y.ch.bug && AtLoopHead(y) && CanRing(y.ch)
    ensures
      var z := RingTurn(y, NOTHING);
      z.ch == y.ch && z.h.freed == y.h.freed && z.h.log == y.h.log + [y.ch.done[0]]
  {
  }

  lemma LastTurn(y: System) returns (z: System)
    requires !y.ch.bug && AtLoopHead(y) && !CanTake(y.ch)
    ensures z == CleanupRun(y, []) && z.ch == y.ch && z.h.freed == y.h.freed
    ensures z.h.log == y.h.log + (if CanRing(y.ch) then [y.ch.done[0]] else [])
  {
    z := if CanRing(y.ch) then RingTurn(y, NOTHING) else y;
    if CanRing(y.ch) { RingAlone(y); }
    assert Stops(y) || y.ch.done[0].cyclic;
  }

  /** A pass with nothing in its windows. */
  lemma {:induction false} CleanupAlone(y: System)
    requires !y.ch.bug && AtLoopHead(y)
    ensures Passed(y, CleanupRun(y, []))
    decreases |y.ch.done|
  {
    if CanTake(y.ch) {
      var z := TakeFreed(y);
      CleanupAlone(z);
      PassedFurther(y, z, CleanupRun(z, []));
    } else {
      var z := LastTurn(y);
      PassedEnd(y, z);
    }
  }

  // ---- The machine ----------------------------------------------------------------------------

  lemma EmptyPrep(s: State, entries: seq<Range>, mark: bool, app: Option<App>)
    requires TotalLength(entries) == 0
    ensures PrepSg(s, entries, mark, app) == Prepared(s, None)
  {
    NonEmptySplit(entries);
  }

  lemma NoPeriods(s: State, buf: nat, len: nat, period: nat, mark: bool)
    requires len < period
    ensures PrepCyclic(s, buf, len, period, mark) == Prepared(s, None)
  {
    assert len / period == 0;
    assert Periods(buf, period, 0) == [];
  }

  class Machine {
    const channel: Channel
    var prepared: seq<Desc>
    var held: seq<Desc>
    var ringing: seq<Desc>
    var due: seq<Desc>
    ghost var h: History

    ghost predicate Valid()
      reads this, channel, channel.hw
    {
      channel.Valid() && MemoryInv(Now())
    }

    ghost function Now(): (y: System)
      requires channel.Valid()
      reads this, channel, channel.hw
    {
      System(channel.Now(), prepared, held, ringing, due, h)
    }

    constructor (channel: Channel, ghost base: nat, ghost sg: bool, ghost ctrl: nat, ghost regs: Regs)
      requires channel.Valid() && channel.Now() == Init(base, sg, ctrl, regs)
      ensures this.channel == channel && Valid() && Now() == Boot(base, sg, ctrl, regs)
    {
      this.channel := channel;
      prepared, held, ringing, due, h := [], [], [], [], NO_HISTORY;
      new;
      BootMemory(base, sg, ctrl, regs);
    }

    method AddDesc(desc: Option<Desc>, ghost y: System)
      requires channel.Valid() && Now() == System(channel.Now(), y.prepared, y.held, y.ringing, y.due, y.h)
      modifies this`prepared
      ensures channel.Valid() && Now() == AddPrepared(y, Prepared(channel.Now(), desc))
    {
      if desc != None {
        prepared := prepared + [desc.value];
      }
    }

    method PrepareSg(entries: seq<Range>, mark: bool, app: Option<App>)
      requires Valid()
      modifies this`prepared, channel, channel.hw
      ensures channel.Valid()
      ensures Now() == AddPrepared(old(Now()), PrepSg(old(Now()).ch, entries, mark, app))
    {
      ghost var y := Now();
      var direction := if mark then MemToDev else DevToMem;
      var desc, wild := channel.PrepSlaveSg(entries, direction, app, true);
      if wild { EmptyPrep(y.ch, entries, mark, app); }
      assert PrepSg(y.ch, entries, mark, app) == Prepared(channel.Now(), desc);
      AddDesc(desc, y);
    }

    method PrepareCyclic(buf: nat, len: nat, period: nat, mark: bool)
      requires Valid() && period > 0
      modifies this`prepared, channel, channel.hw
      ensures channel.Valid()
      ensures Now() == AddPrepared(old(Now()), PrepCyclic(old(Now()).ch, buf, len, period, mark))
    {
      ghost var y := Now();
      var direction := if mark then MemToDev else DevToMem;
      var desc, wild := channel.PrepDmaCyclic(buf, len, period, direction, true);
      if wild { NoPeriods(y.ch, buf, len, period, mark); }
      assert PrepCyclic(y.ch, buf, len, period, mark) == Prepared(channel.Now(), desc);
      AddDesc(desc, y);
    }

    method SubmitOne(j: nat, callback: bool, after: nat)
      requires Valid() && j < |prepared|
      modifies this, channel, channel.hw
      ensures channel.Valid() && Now() == NextSubmit(old(Now()), j, callback, after)
    {
      ghost var y := Now();
      var outcome := channel.TxSubmit(prepared[j].(callback := callback), after);
      if outcome != ResetFailed {
        prepared := Remove(prepared, j);
      }
      h := NextSubmit(y, j, callback, after).h;
    }

    method Issue(ok: bool)
      requires Valid()
      modifies this`h, channel
      ensures channel.Valid()
      ensures Now() == old(Now()).(ch := Start(old(Now()).ch, ok), h := StartHistory(old(h), old(Now()).ch, ok))
    {
      h := StartHistory(h, channel.Now(), ok);
      channel.IssuePending(ok);
    }

    method Interrupt(status: nat, ok: bool)
      requires Valid()
      modifies this`h, channel
      ensures channel.Valid() && Now() == NextIrq(old(Now()), status, ok)
    {
      h := NextIrq(Now(), status, ok).h;
      var _, _ := channel.IrqHandler(status, ok);
    }

    method Terminate(ok: bool)
      requires Valid()
      modifies this`h, channel, channel.hw
      ensures channel.Valid() && Now() == NextTerminate(old(Now()), ok)
    {
      h := NextTerminate(Now(), ok).h;
      channel.TerminateAll(ok);
    }

    method Take()
      requires Valid()
      modifies this`held, this`due, channel
      ensures channel.Valid()
      ensures Now() == if AtLoopHead(old(Now())) && CanTake(old(Now()).ch) then NextTake(old(Now())) else old(Now())
    {
      if AtHead() && channel.done != [] && !channel.done[0].cyclic {
        NotifiedOne(channel.done[0]);
        var desc := channel.TakeDone();
        held := [desc];
        due := if desc.callback then [desc] else [];
      }
    }

    method Free()
      requires Valid()
      modifies this`held, this`h, channel, channel.hw
      ensures channel.Valid() && Now() == NextFree(old(Now()))
    {
      h := NextFree(Now()).h;
      channel.FreeDescList(held);
      held := [];
    }

    method Ring()
      requires Valid()
      modifies this`ringing, this`due
      ensures channel.Valid()
      ensures Now() == if AtLoopHead(old(Now())) && CanRing(old(Now()).ch) then NextRing(old(Now())) else old(Now())
    {
      if AtHead() && channel.done != [] && channel.done[0].cyclic && channel.done[0].callback {
        ringing := [channel.done[0]];
        due := ringing;
      }
    }

    predicate AtHead()
      reads this
    {
      held == [] && ringing == [] && due == []
    }

    /** The callback runs, without the lock. */
    method Call()
      requires Valid() && due != []
      modifies this`due, this`h
      ensures channel.Valid() && Now() == NextCall(old(Now()))
    {
      h := NextCall(Now()).h;
      due := [];
    }

    /** The hardware's report on a segment. */
    method Report(seg: SegId, status: nat, words: App)
      requires Valid()
      modifies channel.hw
      ensures channel.Valid() && Now() == NextHwWrite(old(Now()), seg, status, words)
    {
      if seg in Flat(channel.active) {
        ghost var was := channel.hw[..];
        channel.hw[seg] := channel.hw[seg].(status := status, app := words);
        assert channel.hw[..] == was[seg := was[seg].(status := status, app := words)];
      }
    }

    method DoOutside(step: Step)
      requires Valid() && !channel.bug && Outside(step)
      modifies this, channel, channel.hw
      ensures channel.Valid() && Now() == Next(old(Now()), step)
    {
      match step
      case StepPrepSg(entries, mark, app) => PrepareSg(entries, mark, app);
      case StepPrepCyclic(buf, len, period, mark) => if period > 0 { PrepareCyclic(buf, len, period, mark); }
      case StepSubmit(j, callback, after) => if j < |prepared| { SubmitOne(j, callback, after); }
      case StepIssue(ok) => Issue(ok);
      case StepIrq(status, ok) => Interrupt(status, ok);
      case StepTerminate(ok) => Terminate(ok);
      case StepHwWrite(seg, status, words) => Report(seg, status, words);
      case StepHwFinish => h := Next(Now(), step).h;
    }

    method DoTasklet(step: Step)
      requires Valid() && !channel.bug && !Outside(step)
      modifies this, channel, channel.hw
      ensures channel.Valid() && Now() == Next(old(Now()), step)
    {
      match step
      case StepTake => Take();
      case StepRing => Ring();
      case StepCall => if due != [] { Call(); }
      case StepFree => if due == [] { Free(); }
      case StepRung => if due == [] { ringing := []; }
    }

    /** Any step of a run, by the operation of the driver that makes it. */
    method Do(step: Step)
      requires Valid()
      modifies this, channel, channel.hw
      ensures Valid() && Now() == Next(old(Now()), step)
    {
      MemoryNext(Now(), step);
      if channel.bug {
        return;
      }
      if Outside(step) { DoOutside(step); } else { DoTasklet(step); }
    }

    method DoAll(steps: seq<Step>)
      requires Valid()
      modifies this, channel, channel.hw
      ensures Valid() && Now() == Run(old(Now()), steps)
    {
      assert steps[0..] == steps;
      for k := 0 to |steps|
        invariant Valid() && Run(Now(), steps[k..]) == Run(old(Now()), steps)
      {
        assert steps[k..][0] == steps[k] && steps[k..][1..] == steps[k + 1..];
        Do(steps[k]);
      }
    }

    /** The callback, with what others do around it. */
    method CallAround(w: Gap)
      requires Valid()
      modifies this, channel, channel.hw
      ensures Valid() && Now() == CallIn(old(Now()), w)
    {
      DoAll(w.before);
      Do(StepCall);
      DoAll(w.after);
    }

    /** One turn of the cleanup loop: between its halves the lock is released. */
    method TakeTurn(w: Gap)
      requires Valid()
      modifies this, channel, channel.hw
      ensures Valid() && Now() == Turn(old(Now()), w)
    {
      Do(StepTake);
      CallAround(w);
      Do(StepFree);
    }

    method TakeRingTurn(w: Gap)
      requires Valid()
      modifies this, channel, channel.hw
      ensures Valid() && Now() == RingTurn(old(Now()), w)
    {
      Do(StepRing);
      CallAround(w);
      Do(StepRung);
    }

    /** xilinx_dma_chan_desc_cleanup: windows[k] is what others do while the lock is released for
        its k-th callback, before that takes effect and after. */
    method DescCleanup(windows: seq<Gap>)
      requires Valid() && AtHead() && forall w :: w in windows ==> OutsideOnly(w)
      modifies this, channel, channel.hw
      ensures Valid() && Now() == CleanupRun(old(Now()), windows)
    {
      var rest := windows;
      while channel.done != [] && !channel.bug
        invariant Valid() && (channel.bug || AtLoopHead(Now()))
        invariant forall w :: w in rest ==> OutsideOnly(w)
        invariant CleanupRun(Now(), rest) == CleanupRun(old(Now()), windows)
        decreases |rest|, |channel.done|
      {
        var desc := channel.done[0];
        if desc.cyclic {
          if desc.callback { TakeRingTurn(First(rest)); }
          return;
        }
        ghost var y := Now();
        var w := if desc.callback then First(rest) else NOTHING;
        TurnEnds(y, w);
        TurnShortens(y);
        TakeTurn(w);
        rest := if desc.callback && rest != [] then rest[1..] else rest;
      }
    }
  }
}
