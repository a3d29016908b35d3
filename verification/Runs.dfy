/** The channel together with what its clients, its tasklet and its hardware hold, and the
    steps that interleave on it. A run is any finite sequence of steps: a step that is not
    possible in a state leaves it unchanged. */
module Runs {
  import opened Bits
  import opened ChannelState
  import opened Options
  import opened Registers
  import opened Splitting

  /** What happened since the channel was allocated or last terminated, and what the hardware
      has done with the current batch. */
  datatype History = History(
    submitted: seq<Desc>,  // accepted submissions, in order
    freed: seq<Desc>,      // descriptors cleanup has released, in order
    called: seq<Desc>,     // callbacks made of these, in order, a cyclic descriptor's each time
    log: seq<Desc>,        // callbacks made since the channel was allocated, terminates or not
    ended: seq<Desc>,      // descriptors completed by an interrupt since then, in order
    stale: nat,            // descriptors terminated while counted and never started
    lag: nat,              // `stale` when the current batch started
    threshold: nat,        // coalesce field programmed when the current batch started
    finished: nat,         // transfers of the current batch the hardware has finished
    lost: bool,            // the engine has been reset since the current batch started
    premature: bool)       // an interrupt completed a descriptor not wholly transferred

  /** `prepared`: descriptors in clients' hands. `held`: the descriptor the tasklet has
      unlinked and not yet freed. `ringing`: the cyclic descriptor it has left in the done
      list. Either can ask for a callback; `due`: the lock has been released for it, and it has
      still to be made. */
  datatype System = System(ch: State, prepared: seq<Desc>, held: seq<Desc>, ringing: seq<Desc>, due: seq<Desc>,
                           h: History)

  datatype Step =
    | StepPrepSg(entries: seq<Range>, mark: bool, app: Option<App>)
    | StepPrepCyclic(buf: nat, len: nat, period: nat, mark: bool)
    | StepSubmit(j: nat, callback: bool, after: nat)
    | StepIssue(ok: bool)
    | StepIrq(status: nat, ok: bool)
    | StepTake
    | StepRing
    | StepCall
    | StepFree
    | StepRung
    | StepTerminate(ok: bool)
    | StepHwWrite(seg: SegId, status: nat, words: App)
    | StepHwFinish

  /** What clients do; the rest is the interrupt, the tasklet and the hardware. */
  predicate ClientSide(step: Step) {
    step.StepPrepSg? || step.StepPrepCyclic? || step.StepSubmit? || step.StepIssue? || step.StepTerminate?
  }

  const NO_HISTORY := History([], [], [], [], [], 0, 0, 0, 0, false, false)

  function Boot(base: nat, sg: bool, ctrl: nat, regs: Regs): System {
    System(Init(base, sg, ctrl, regs), [], [], [], [], NO_HISTORY)
  }

  function Remove<T>(s: seq<T>, j: nat): seq<T>
    requires j < |s|
  {
    s[..j] + s[j + 1..]
  }

  /** The descriptors among `ds` that asked for a callback. */
  function Notified(ds: seq<Desc>): seq<Desc> {
    if ds == [] then []
    else if Last(ds).callback then Notified(ds[..|ds| - 1]) + [Last(ds)]
    else Notified(ds[..|ds| - 1])
  }

  /** The history after a start attempt from state s. */
  function StartHistory(h: History, s: State, ok: bool): History {
    if CanStart(s) && ok then
      h.(stale := 0, lag := h.stale, threshold := Coalesce(StartControl(s)), finished := 0,
          lost := false)
    else h
  }

  function HasIoc(status: nat): bool { And(status, IRQ_IOC) != 0 && And(status, IRQ_ALL) != 0 }

  /** The state in which an interrupt with the completion bit attempts the next start. */
  function Completed(s: State, status: nat): State {
    Complete(if And(status, IRQ_ERROR) != 0 then s.(err := true) else s).(idle := true)
  }

  function AddPrepared(y: System, p: Prepared): System {
    match p.desc
    case None => y.(ch := p.state)
    case Some(d) => y.(ch := p.state, prepared := y.prepared + [d])
  }

  function NextSubmit(y: System, j: nat, callback: bool, after: nat): System
    requires j < |y.prepared|
  {
    var d := y.prepared[j].(callback := callback);
    var r := Submit(y.ch, d, after);
    match r.outcome
    case Accepted(cookie) =>
      y.(ch := r.state, prepared := Remove(y.prepared, j),
         h := y.h.(submitted := y.h.submitted + [d.(cookie := cookie)], lost := y.h.lost || y.ch.err))
    case Busy => y.(ch := r.state, prepared := Remove(y.prepared, j))
    case ResetFailed => y.(ch := r.state, h := y.h.(lost := true))
  }

  /** How many transfers of the active list the engine has been told of: without scatter-gather,
      the first segment of the first descriptor. */
  function Given(s: State): nat {
    if s.active == [] then 0 else if s.sg then |s.active| else 1
  }

  /** The engine has transferred all that the active list describes. */
  predicate Transferred(y: System) {
    y.ch.active == [] || (y.h.finished == Given(y.ch) && (y.ch.sg || |Flat(y.ch.active)| == 1))
  }

  function NextIrq(y: System, status: nat, ok: bool): System {
    var h :=
      if HasIoc(status) then
        StartHistory(y.h.(premature := y.h.premature || !Transferred(y), finished := 0,
                          ended := y.h.ended + y.ch.active),
                     Completed(y.ch, status), ok)
      else y.h;
    y.(ch := Irq(y.ch, status, ok), h := h)
  }

  /** The tasklet is at the head of its loop. */
  predicate AtLoopHead(y: System) { y.held == [] && y.ringing == [] && y.due == [] }

  function NextTake(y: System): System
    requires CanTake(y.ch)
  {
    var d := y.ch.done[0];
    y.(ch := Take(y.ch), held := [d], due := Notified([d]))
  }

  /** A cyclic descriptor that has been completed is called back where it is. */
  predicate CanRing(s: State) {
    s.done != [] && s.done[0].cyclic && s.done[0].callback
  }

  function NextRing(y: System): System
    requires CanRing(y.ch)
  {
    y.(ringing := [y.ch.done[0]], due := [y.ch.done[0]])
  }

  /** The callback itself. It is one of those counted from the last terminate unless its
      descriptor was terminated after the lock was released. */
  function NextCall(y: System): System
    requires y.due != []
  {
    y.(due := [],
       h := y.h.(log := y.h.log + y.due,
                 called := if y.due[0] in y.h.submitted then y.h.called + y.due else y.h.called))
  }

  function NextFree(y: System): System {
    y.(ch := FreeSegs(y.ch, Flat(y.held)), held := [], h := y.h.(freed := y.h.freed + y.held))
  }

  function NextTerminate(y: System, ok: bool): System {
    y.(ch := Terminate(y.ch, ok),
       h := y.h.(submitted := y.held, freed := [], called := if y.due == [] then Notified(y.held) else [],
                 stale := y.h.stale + |y.ch.pending|, finished := 0))
  }

  /** The hardware reports on a segment of the batch it is working on. */
  function NextHwWrite(y: System, seg: SegId, status: nat, app: App): System {
    if seg in Flat(y.ch.active) then
      y.(ch := y.ch.(hw := y.ch.hw[seg := y.ch.hw[seg].(status := status, app := app)]))
    else y
  }

  function Next(y: System, step: Step): System {
    if y.ch.bug then y
    else
      match step
      case StepPrepSg(entries, mark, app) => AddPrepared(y, PrepSg(y.ch, entries, mark, app))
      case StepPrepCyclic(buf, len, period, mark) =>
        if period > 0 then AddPrepared(y, PrepCyclic(y.ch, buf, len, period, mark)) else y
      case StepSubmit(j, callback, after) =>
        if j < |y.prepared| then NextSubmit(y, j, callback, after) else y
      case StepIssue(ok) => y.(ch := Start(y.ch, ok), h := StartHistory(y.h, y.ch, ok))
      case StepIrq(status, ok) => NextIrq(y, status, ok)
      case StepTake => if AtLoopHead(y) && CanTake(y.ch) then NextTake(y) else y
      case StepRing => if AtLoopHead(y) && CanRing(y.ch) then NextRing(y) else y
      case StepCall => if y.due != [] then NextCall(y) else y
      case StepFree => if y.due == [] then NextFree(y) else y
      case StepRung => if y.due == [] then y.(ringing := []) else y
      case StepTerminate(ok) => NextTerminate(y, ok)
      case StepHwWrite(seg, status, app) => NextHwWrite(y, seg, status, app)
      case StepHwFinish =>
        if y.h.finished < Given(y.ch) then y.(h := y.h.(finished := y.h.finished + 1)) else y
  }

  function Run(y: System, steps: seq<Step>): System
    decreases |steps|
  {
    if steps == [] then y else Run(Next(y, steps[0]), steps[1..])
  }

  lemma {:induction false} RunConcat(y: System, a: seq<Step>, b: seq<Step>)
    ensures Run(y, a + b) == Run(Run(y, a), b)
    decreases |a|
  {
    if a == [] {
      assert a + b == b;
    } else {
      assert (a + b)[1..] == a[1..] + b;
      RunConcat(Next(y, a[0]), a[1..], b);
    }
  }

  lemma RunStep(y: System, a: Step, rest: seq<Step>)
    ensures Run(y, [a] + rest) == Run(Next(y, a), rest)
  {
    assert ([a] + rest)[1..] == rest;
  }

  // ---- The pool order -----------------------------------------------------------------

  /** Every descriptor that owns segments, oldest first. */
  function Owners(y: System): seq<Desc> {
    y.held + y.ch.done + y.ch.active + y.ch.pending + y.prepared
  }

  /** Every place a segment can be, in pool order: owned, oldest first, then free. */
  function Order(y: System): seq<SegId> {
    Flat(Owners(y)) + y.ch.free
  }

  lemma {:induction false} FlatConcat(a: seq<Desc>, b: seq<Desc>)
    ensures Flat(a + b) == Flat(a) + Flat(b)
  {
    if a == [] {
      assert a + b == b;
    } else {
      assert (a + b)[1..] == a[1..] + b;
      FlatConcat(a[1..], b);
    }
  }

  lemma FlatOne(d: Desc)
    ensures Flat([d]) == d.segs
  {
    assert Flat([d]) == d.segs + Flat([]);
  }

  /** The pool order, block by block. */
  lemma OrderBlocks(y: System)
    ensures Order(y) == Flat(y.held) + Flat(y.ch.done) + Flat(y.ch.active) + Flat(y.ch.pending)
                        + Flat(y.prepared) + y.ch.free
  {
    FlatConcat(y.held + y.ch.done + y.ch.active + y.ch.pending, y.prepared);
    FlatConcat(y.held + y.ch.done + y.ch.active, y.ch.pending);
    FlatConcat(y.held + y.ch.done, y.ch.active);
    FlatConcat(y.held, y.ch.done);
  }

  lemma FlatSplit(ds: seq<Desc>, j: nat)
    requires j <= |ds|
    ensures Flat(ds) == Flat(ds[..j]) + Flat(ds[j..])
  {
    assert ds == ds[..j] + ds[j..];
    FlatConcat(ds[..j], ds[j..]);
  }

  lemma FlatHead(ds: seq<Desc>, j: nat)
    requires j < |ds|
    ensures Flat(ds[j..]) == ds[j].segs + Flat(ds[j + 1..])
  {
    assert ds[j..][1..] == ds[j + 1..];
  }

  lemma FlatRemove(ds: seq<Desc>, j: nat)
    requires j < |ds|
    ensures Flat(ds) == Flat(ds[..j]) + ds[j].segs + Flat(ds[j + 1..])
    ensures Flat(Remove(ds, j)) == Flat(ds[..j]) + Flat(ds[j + 1..])
  {
    FlatSplit(ds, j);
    FlatHead(ds, j);
    FlatConcat(ds[..j], ds[j + 1..]);
  }

  /** How each step moves descriptors and segments about, in terms of the pool order's
      blocks. */

  lemma RegroupOwners(h: seq<Desc>, d: seq<Desc>, a: seq<Desc>, p: seq<Desc>, r: seq<Desc>, x: seq<Desc>)
    ensures h + d + (a + p) + [] + r == h + d + a + p + r
    ensures h + (d + a) + [] + p + r == h + d + a + p + r
    ensures x + d + a + p + r == [] + (x + d) + a + p + r
    ensures h + d + a + p + (r + x) == h + d + a + p + r + x
    ensures h + [] + [] + [] + r == h + r
  {
  }

  lemma StartOwners(y: System, ok: bool)
    ensures Owners(y.(ch := Start(y.ch, ok))) == Owners(y)
  {
    RegroupOwners(y.held, y.ch.done, y.ch.active, y.ch.pending, y.prepared, []);
  }

  lemma PreparedOwners(y: System, p: Prepared)
    requires p.state.done == y.ch.done && p.state.active == y.ch.active && p.state.pending == y.ch.pending
    ensures Owners(AddPrepared(y, p)) == Owners(y) + (if p.desc.Some? then [p.desc.value] else [])
  {
    var x := if p.desc.Some? then [p.desc.value] else [];
    RegroupOwners(y.held, y.ch.done, y.ch.active, y.ch.pending, y.prepared, x);
    assert y.prepared + [] == y.prepared;
  }

  /** Cutting a descriptor off the free list's head leaves the pool order as it is. */
  lemma PreparedOrder(y: System, p: Prepared)
    requires p.state.done == y.ch.done && p.state.active == y.ch.active && p.state.pending == y.ch.pending
    requires y.ch.free == (if p.desc.Some? then p.desc.value.segs else []) + p.state.free
    ensures Order(AddPrepared(y, p)) == Order(y)
  {
    PreparedOwners(y, p);
    if p.desc.Some? {
      FlatConcat(Owners(y), [p.desc.value]);
      FlatOne(p.desc.value);
    }
  }

  predicate IsPrep(step: Step) { step.StepPrepSg? || step.StepPrepCyclic? }

  /** All that a preparation can do to the channel. */
  ghost predicate OnlyTakes(s: State, p: Prepared) {
    && p.state == s.(hw := p.state.hw, free := p.state.free, ctrl := p.state.ctrl, regs := p.state.regs)
    && p.state.regs == s.regs.(control := p.state.regs.control)
    && s.free == (if p.desc.Some? then p.desc.value.segs else []) + p.state.free
  }

  lemma PrepTakes(s: State, ps: seq<Range>, mark: bool, app: Option<App>)
    ensures OnlyTakes(s, Prep(s, ps, mark, app))
  {
  }

  lemma PrepCyclicTakes(s: State, buf: nat, len: nat, period: nat, mark: bool)
    requires period > 0
    ensures OnlyTakes(s, PrepCyclic(s, buf, len, period, mark))
  {
    PrepTakes(s, Split(Periods(buf, period, len / period)), mark, None);
  }

  /** All that it can do to the system. */
  ghost predicate OnlyPrepared(y: System, z: System) {
    && z == y.(ch := z.ch, prepared := z.prepared)
    && z.ch == y.ch.(hw := z.ch.hw, free := z.ch.free, ctrl := z.ch.ctrl, regs := z.ch.regs)
    && z.ch.regs == y.ch.regs.(control := z.ch.regs.control)
    && ((z.prepared == y.prepared && z.ch.free == y.ch.free) ||
        (z.prepared != [] && z.prepared == y.prepared + [Last(z.prepared)]
         && y.ch.free == Last(z.prepared).segs + z.ch.free))
  }

  lemma AddTaken(y: System, p: Prepared)
    requires OnlyTakes(y.ch, p)
    ensures OnlyPrepared(y, AddPrepared(y, p))
  {
  }

  lemma PrepStep(y: System, step: Step) returns (z: System)
    requires IsPrep(step)
    ensures z == Next(y, step) && OnlyPrepared(y, z)
  {
    z := Next(y, step);
    if !y.ch.bug {
      match step
      case StepPrepSg(entries, mark, app) =>
        PrepTakes(y.ch, Split(entries), mark, app);
        AddTaken(y, PrepSg(y.ch, entries, mark, app));
      case StepPrepCyclic(buf, len, period, mark) =>
        if period > 0 {
          PrepCyclicTakes(y.ch, buf, len, period, mark);
          AddTaken(y, PrepCyclic(y.ch, buf, len, period, mark));
        }
    }
  }

  lemma PrepOrder(y: System, ps: seq<Range>, mark: bool, app: Option<App>)
    requires PrepFits(y.ch, ps)
    ensures Order(AddPrepared(y, Prep(y.ch, ps, mark, app))) == Order(y)
  {
    PreparedOrder(y, Prep(y.ch, ps, mark, app));
  }

  lemma PrepSgOrder(y: System, entries: seq<Range>, mark: bool, app: Option<App>)
    ensures Order(AddPrepared(y, PrepSg(y.ch, entries, mark, app))) == Order(y)
  {
    if PrepFits(y.ch, Split(entries)) { PrepOrder(y, Split(entries), mark, app); }
  }

  lemma PrepCyclicOrder(y: System, buf: nat, len: nat, period: nat, mark: bool)
    requires period > 0
    ensures Order(AddPrepared(y, PrepCyclic(y.ch, buf, len, period, mark))) == Order(y)
  {
    var ps := Split(Periods(buf, period, len / period));
    if PrepFits(y.ch, ps) { PreparedOrder(y, PrepCyclic(y.ch, buf, len, period, mark)); }
  }

  /** The segments of the descriptors the driver itself has hold of. */
  function Live(y: System): seq<SegId> {
    Flat(y.held) + Flat(y.ch.done) + Flat(y.ch.active) + Flat(y.ch.pending)
  }

  lemma OrderLive(y: System)
    ensures Order(y) == Live(y) + Flat(y.prepared) + y.ch.free
  {
    OrderBlocks(y);
  }

  lemma AcceptedOrder(y: System, j: nat, callback: bool, after: nat)
    requires j < |y.prepared|
    requires Submit(y.ch, y.prepared[j].(callback := callback), after).outcome.Accepted?
    ensures Order(NextSubmit(y, j, callback, after)) ==
            Live(y) + y.prepared[j].segs + (Flat(y.prepared[..j]) + Flat(y.prepared[j + 1..])) + y.ch.free
  {
    var z := NextSubmit(y, j, callback, after);
    var d := y.prepared[j].(callback := callback);
    var d' := d.(cookie := Submit(y.ch, d, after).outcome.cookie);
    assert Live(z) == Live(y) + d.segs by {
      assert z.ch.pending == y.ch.pending + [d'];
      FlatConcat(y.ch.pending, [d']);
      FlatOne(d');
    }
    OrderLive(z);
    FlatRemove(y.prepared, j);
  }

  /** The blocks around prepared descriptor j: live segments, those prepared before it, its
      own, those prepared after it, and the free ones. */
  lemma SubmitOrder(y: System, j: nat, callback: bool, after: nat)
    requires j < |y.prepared|
    ensures
      var z, d := NextSubmit(y, j, callback, after), y.prepared[j];
      var before, behind := Flat(y.prepared[..j]), Flat(y.prepared[j + 1..]);
      && Order(y) == Live(y) + (before + d.segs + behind) + y.ch.free
      && Order(z) == match Submit(y.ch, d.(callback := callback), after).outcome
           case Accepted(_) => Live(y) + d.segs + (before + behind) + y.ch.free
           case Busy => Live(y) + (before + behind) + (y.ch.free + d.segs)
           case ResetFailed => Order(y)
  {
    var z := NextSubmit(y, j, callback, after);
    OrderLive(y);
    FlatRemove(y.prepared, j);
    var d := y.prepared[j].(callback := callback);
    match Submit(y.ch, d, after).outcome
    case Accepted(cookie) => AcceptedOrder(y, j, callback, after);
    case Busy =>
      OrderLive(z);
      assert Live(z) == Live(y) && z.ch.free == y.ch.free + d.segs;
    case ResetFailed =>
      OrderLive(z);
  }

  lemma StartOrder(y: System, ok: bool)
    ensures Order(y.(ch := Start(y.ch, ok))) == Order(y)
  {
    StartOwners(y, ok);
  }

  lemma CompletedOrder(y: System, status: nat)
    ensures
      var z := y.(ch := Completed(y.ch, status));
      Owners(z) == Owners(y) && Order(z) == Order(y)
  {
    RegroupOwners(y.held, y.ch.done, y.ch.active, y.ch.pending, y.prepared, []);
  }

  lemma IrqOrder(y: System, status: nat, ok: bool)
    ensures Order(NextIrq(y, status, ok)) == Order(y)
  {
    if HasIoc(status) {
      var z := y.(ch := Completed(y.ch, status));
      CompletedOrder(y, status);
      StartOrder(z, ok);
      assert NextIrq(y, status, ok).ch == Start(z.ch, ok);
    }
  }

  lemma TakeOrder(y: System)
    requires y.held == [] && CanTake(y.ch)
    ensures Order(NextTake(y)) == Order(y)
  {
    TakeOwners(y);
  }

  lemma TakeOwners(y: System)
    requires y.held == [] && CanTake(y.ch)
    ensures Owners(NextTake(y)) == Owners(y)
  {
    RegroupOwners([], NextTake(y).ch.done, y.ch.active, y.ch.pending, y.prepared, NextTake(y).held);
    assert y.ch.done == [y.ch.done[0]] + y.ch.done[1..];
  }

  lemma RegroupFree(h: seq<SegId>, d: seq<SegId>, a: seq<SegId>, p: seq<SegId>, r: seq<SegId>, f: seq<SegId>)
    ensures h + d + a + p + r + f == h + (d + a + p + (r + f))
    ensures [] + d + a + p + r + (f + h) == d + a + p + (r + f) + h
  {
  }

  lemma FreeOrder(y: System)
    ensures
      var rest := Flat(y.ch.done) + Flat(y.ch.active) + Flat(y.ch.pending) + (Flat(y.prepared) + y.ch.free);
      Order(y) == Flat(y.held) + rest && Order(NextFree(y)) == rest + Flat(y.held)
  {
    OrderBlocks(y);
    OrderBlocks(NextFree(y));
    RegroupFree(Flat(y.held), Flat(y.ch.done), Flat(y.ch.active), Flat(y.ch.pending), Flat(y.prepared), y.ch.free);
  }

  lemma RegroupTerminate(h: seq<SegId>, d: seq<SegId>, a: seq<SegId>, p: seq<SegId>, r: seq<SegId>, f: seq<SegId>)
    ensures h + d + a + p + r + f == h + (d + a) + p + (r + f)
    ensures h + [] + [] + [] + r + (f + (p + d + a)) == h + (r + f) + p + (d + a)
  {
  }

  /** Terminating puts the blocks after the held one in the opposite order. */
  lemma TerminateOrder(y: System, ok: bool)
    ensures
      var busy := Flat(y.ch.done) + Flat(y.ch.active);
      var rest := Flat(y.prepared) + y.ch.free;
      && Order(y) == Flat(y.held) + busy + Flat(y.ch.pending) + rest
      && Order(NextTerminate(y, ok)) == Flat(y.held) + rest + Flat(y.ch.pending) + busy
  {
    OrderBlocks(y);
    OrderBlocks(NextTerminate(y, ok));
    FlatConcat(y.ch.pending + y.ch.done, y.ch.active);
    FlatConcat(y.ch.pending, y.ch.done);
    RegroupTerminate(Flat(y.held), Flat(y.ch.done), Flat(y.ch.active), Flat(y.ch.pending), Flat(y.prepared), y.ch.free);
  }
}
