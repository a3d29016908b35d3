/** From the client's scatter list to the bytes the engine moves: what a descriptor's segments
    describe stays as prepared until they are freed, through every step of every run. */
module Contents {
  import opened Bits
  import opened ChannelState
  import opened Memory
  import opened Options
  import opened Pool
  import opened Preparation
  import opened Registers
  import opened Ring
  import opened Runs
  import opened Splitting
  import opened Walk

  /** What a client asks of a preparation. */
  datatype Demand = Demand(ranges: seq<Range>, mark: bool, app: Option<App>)

  /** Each live descriptor, by its segments, with what its client asked for. */
  type Asked = map<Segs, Demand>

  /** Ranges as segments hold them: with 32-bit addresses. */
  function Wrapped(ps: seq<Range>): seq<Range> {
    seq(|ps|, k requires 0 <= k < |ps| => Range(ps[k].addr % 0x1_0000_0000, ps[k].len))
  }

  /** The segments describe the pieces of a request, with its packet flags. */
  ghost predicate Holds(hw: Bank, segs: seq<SegId>, request: Demand) {
    Described(hw, segs) == Wrapped(Split(request.ranges)) && Marked(hw, segs, request.mark)
  }

  /** Every owned descriptor's segments hold what was asked for. */
  ghost predicate Carries(y: System, asked: Asked) {
    forall d :: d in Owners(y) ==> d.segs in asked && Holds(y.ch.hw, d.segs, asked[d.segs])
  }

  /** The application words a request is prepared with: those given, towards the device; none
      otherwise. */
  function Words(request: Demand): App {
    if request.mark && request.app.Some? then request.app.value else [0, 0, 0, 0, 0]
  }

  /** The hardware has not reported on these segments, and they carry the request's words. */
  ghost predicate Unreported(hw: Bank, segs: seq<SegId>, request: Demand) {
    forall i :: i in segs ==> hw[i].status == 0 && hw[i].app == Words(request)
  }

  /** Prepared, or submitted and not started. */
  function Unstarted(y: System): seq<Desc> { y.ch.pending + y.prepared }

  /** Whatever has not been started is as it was prepared. */
  ghost predicate Pristine(y: System, asked: Asked) {
    forall d :: d in Unstarted(y) ==> d.segs in asked && Unreported(y.ch.hw, d.segs, asked[d.segs])
  }

  /** The ranges a preparation is asked for. */
  function Ranges(step: Step): seq<Range>
    requires IsPrep(step)
  {
    match step
    case StepPrepSg(entries, _, _) => entries
    case StepPrepCyclic(buf, len, period, _) => if period > 0 then Periods(buf, period, len / period) else []
  }

  function RequestOf(step: Step): Demand
    requires IsPrep(step)
  {
    Demand(Ranges(step), step.mark, if step.StepPrepSg? then step.app else None)
  }

  /** A preparation that succeeds adds its descriptor. */
  function AskedAfter(y: System, step: Step, asked: Asked): Asked {
    if IsPrep(step) && |Next(y, step).prepared| > |y.prepared|
    then asked[Last(Next(y, step).prepared).segs := RequestOf(step)]
    else asked
  }

  function AskedIn(y: System, steps: seq<Step>, asked: Asked): Asked
    decreases |steps|
  {
    if steps == [] then asked else AskedIn(Next(y, steps[0]), steps[1..], AskedAfter(y, steps[0], asked))
  }

  // ---- Steps that prepare nothing ---------------------------------------------------------------

  ghost predicate SameContent(g: Hw, h: Hw) { h.buf == g.buf && h.control == g.control }

  /** No owner is new, and owned segments describe what they did. */
  ghost predicate Kept(y: System, z: System) {
    && (forall d :: d in Owners(z) ==> exists e :: e in Owners(y) && e.segs == d.segs)
    && (forall i :: i in Flat(Owners(z)) ==> SameContent(y.ch.hw[i], z.ch.hw[i]))
  }

  lemma {:induction false} InFlat(ds: seq<Desc>, d: Desc)
    requires d in ds
    ensures forall i :: i in d.segs ==> i in Flat(ds)
  {
    if ds[0] != d { InFlat(ds[1..], d); }
  }

  lemma KeptCarries(y: System, z: System, asked: Asked)
    requires Carries(y, asked) && Kept(y, z)
    ensures Carries(z, asked)
  {
    forall d | d in Owners(z) ensures d.segs in asked && Holds(z.ch.hw, d.segs, asked[d.segs]) {
      var e :| e in Owners(y) && e.segs == d.segs;
      InFlat(Owners(z), d);
      assert forall k :: 0 <= k < |d.segs| ==> d.segs[k] in d.segs;
      assert Described(z.ch.hw, d.segs) == Described(y.ch.hw, e.segs);
    }
  }

  lemma SameOwnersKept(y: System, z: System)
    requires Owners(z) == Owners(y) && forall i: SegId :: SameContent(y.ch.hw[i], z.ch.hw[i])
    ensures Kept(y, z)
  {
  }

  /** Steps that give segments back, clean. */
  lemma ReleasedKept(y: System, z: System, gone: seq<SegId>)
    requires Conserved(z) && z.ch.free == y.ch.free + gone && z.ch.hw == CleanAll(y.ch.hw, gone)
    requires forall d :: d in Owners(z) ==> d in Owners(y)
    ensures Kept(y, z)
  {
    OwnersApart(z);
  }

  lemma FreeKept(y: System)
    requires Conserved(y)
    ensures Kept(y, NextFree(y))
  {
    FreeConserved(y);
    ReleasedKept(y, NextFree(y), Flat(y.held));
  }

  lemma TerminateKept(y: System, ok: bool)
    requires Conserved(y)
    ensures Kept(y, NextTerminate(y, ok))
  {
    var z := NextTerminate(y, ok);
    TerminateConserved(y, ok);
    TerminateShape(y.ch, ok);
    RegroupOwners(y.held, y.ch.done, y.ch.active, y.ch.pending, y.prepared, []);
    assert Owners(z) == y.held + y.prepared;
    ReleasedKept(y, z, Flat(y.ch.pending + y.ch.done + y.ch.active));
  }

  lemma AppendContent(s: State, d: Desc)
    ensures forall i: SegId :: SameContent(s.hw[i], Append(s, d).hw[i])
  {
  }

  lemma AcceptedKept(y: System, j: nat, callback: bool, after: nat)
    requires j < |y.prepared| && Accepting(y.ch, after)
    ensures Kept(y, NextSubmit(y, j, callback, after))
  {
    var z := NextSubmit(y, j, callback, after);
    var d := y.prepared[j].(callback := callback);
    AcceptedState(y.ch, d, after);
    var e := Last(z.ch.pending);
    AppendContent(y.ch, e);
    assert y.prepared[j] in Owners(y);
    forall c | c in Owners(z) ensures c in Owners(y) || c == e { }
  }

  lemma RefusedKept(y: System, j: nat, callback: bool, after: nat)
    requires Conserved(y) && j < |y.prepared| && y.ch.cyclic
    ensures Kept(y, NextSubmit(y, j, callback, after))
  {
    var z := NextSubmit(y, j, callback, after);
    SubmitConserved(y, j, callback, after);
    assert z.ch == FreeSegs(y.ch, y.prepared[j].segs) && z.prepared == Remove(y.prepared, j);
    ReleasedKept(y, z, y.prepared[j].segs);
  }

  lemma FailedKept(y: System, j: nat, callback: bool, after: nat)
    requires j < |y.prepared| && !y.ch.cyclic && !Accepting(y.ch, after)
    ensures Kept(y, NextSubmit(y, j, callback, after))
  {
    SameOwnersKept(y, NextSubmit(y, j, callback, after));
  }

  lemma SubmitKept(y: System, j: nat, callback: bool, after: nat)
    requires Conserved(y) && j < |y.prepared|
    ensures Kept(y, NextSubmit(y, j, callback, after))
  {
    if y.ch.cyclic { RefusedKept(y, j, callback, after); }
    else if Accepting(y.ch, after) { AcceptedKept(y, j, callback, after); }
    else { FailedKept(y, j, callback, after); }
  }

  lemma StartKept(y: System, z: System, ok: bool)
    requires z.ch == Start(y.ch, ok) && z.held == y.held && z.prepared == y.prepared
    ensures Kept(y, z)
  {
    StartOwners(y, ok);
    assert Owners(z) == Owners(y.(ch := Start(y.ch, ok)));
    SameOwnersKept(y, z);
  }

  lemma IrqKept(y: System, status: nat, ok: bool)
    ensures Kept(y, NextIrq(y, status, ok))
  {
    var w := NextIrq(y, status, ok);
    if HasIoc(status) {
      var z := y.(ch := Completed(y.ch, status));
      CompletedOrder(y, status);
      StartKept(z, w, ok);
      SameOwnersKept(y, z);
    } else {
      SameOwnersKept(y, w);
    }
  }

  lemma TakeKept(y: System)
    requires y.held == [] && CanTake(y.ch)
    ensures Kept(y, NextTake(y))
  {
    TakeOwners(y);
    SameOwnersKept(y, NextTake(y));
  }

  lemma OtherKept(y: System, step: Step)
    requires step.StepRing? || step.StepCall? || step.StepRung? || step.StepHwWrite? || step.StepHwFinish?
    ensures Kept(y, Next(y, step))
  {
    SameOwnersKept(y, Next(y, step));
  }

  lemma StepKept(y: System, step: Step)
    requires Conserved(y) && !y.ch.bug && !IsPrep(step)
    ensures Kept(y, Next(y, step))
  {
    match step
    case StepSubmit(j, callback, after) =>
      if j < |y.prepared| { SubmitKept(y, j, callback, after); } else { SameOwnersKept(y, y); }
    case StepIssue(ok) => StartKept(y, Next(y, step), ok);
    case StepIrq(status, ok) => IrqKept(y, status, ok);
    case StepTake => if AtLoopHead(y) && CanTake(y.ch) { TakeKept(y); } else { SameOwnersKept(y, y); }
    case StepFree => if y.due == [] { FreeKept(y); } else { SameOwnersKept(y, y); }
    case StepTerminate(ok) => TerminateKept(y, ok);
    case StepRing => OtherKept(y, step);
    case StepCall => OtherKept(y, step);
    case StepRung => OtherKept(y, step);
    case StepHwWrite(_, _, _) => OtherKept(y, step);
    case StepHwFinish => OtherKept(y, step);
  }

  // ---- Preparation --------------------------------------------------------------------------------

  lemma ControlReadBack(s: State, ps: seq<Range>, mark: bool, app: Option<App>, k: nat)
    requires PrepFits(s, ps) && NoRepeats(s.free) && k < |ps| && ps[k].len <= MAX_TRANS_LEN
    ensures
      var h := Prep(s, ps, mark, app).state.hw[s.free[k]];
      && Range(h.buf, Length(h.control)) == Wrapped(ps)[k]
      && (Bit(h.control, 27) <==> mark && k == 0) && (Bit(h.control, 26) <==> mark && k == |ps| - 1)
      && h.status == s.hw[s.free[k]].status
      && h.app == (if mark && app.Some? then app.value else s.hw[s.free[k]].app)
  {
    PrepContents(s, ps, mark, app, k);
    ControlWordExact(ps[k].len, mark, k == 0, k == |ps| - 1);
  }

  lemma WrappedReadBack(s: State, ps: seq<Range>, mark: bool, app: Option<App>)
    requires PrepFits(s, ps) && NoRepeats(s.free) && forall p :: p in ps ==> p.len <= MAX_TRANS_LEN
    ensures
      var p := Prep(s, ps, mark, app);
      Described(p.state.hw, p.desc.value.segs) == Wrapped(ps) && Marked(p.state.hw, p.desc.value.segs, mark)
  {
    var p := Prep(s, ps, mark, app);
    forall k | 0 <= k < |ps|
      ensures Described(p.state.hw, p.desc.value.segs)[k] == Wrapped(ps)[k]
      ensures Bit(p.state.hw[s.free[k]].control, 27) <==> mark && k == 0
      ensures Bit(p.state.hw[s.free[k]].control, 26) <==> mark && k == |ps| - 1
    {
      assert ps[k] in ps;
      ControlReadBack(s, ps, mark, app, k);
    }
  }

  /** From a clean pool, the segments also carry the request's words and no report. */
  lemma CleanReadBack(s: State, ps: seq<Range>, request: Demand)
    requires PrepFits(s, ps) && NoRepeats(s.free) && FreeClean(s) && forall p :: p in ps ==> p.len <= MAX_TRANS_LEN
    ensures
      var p := Prep(s, ps, request.mark, request.app);
      Unreported(p.state.hw, p.desc.value.segs, request)
  {
    var p := Prep(s, ps, request.mark, request.app);
    forall i | i in p.desc.value.segs
      ensures p.state.hw[i].status == 0 && p.state.hw[i].app == Words(request)
    {
      var k :| 0 <= k < |ps| && s.free[k] == i;
      assert ps[k] in ps && s.free[k] in s.free;
      ControlReadBack(s, ps, request.mark, request.app, k);
    }
  }

  /** A successful preparation of this request, for the purposes of this module. */
  ghost predicate Took(y: System, z: System, request: Demand) {
    var ps := Split(request.ranges);
    && 0 < |ps| <= |y.ch.free|
    && z.prepared != [] && Owners(z) == Owners(y) + [Last(z.prepared)]
    && Unstarted(z) == Unstarted(y) + [Last(z.prepared)]
    && Last(z.prepared).segs == y.ch.free[..|ps|]
    && (forall i: SegId :: i !in y.ch.free[..|ps|] ==> z.ch.hw[i] == y.ch.hw[i])
    && Holds(z.ch.hw, Last(z.prepared).segs, request)
    && (FreeClean(y.ch) ==> Unreported(z.ch.hw, Last(z.prepared).segs, request))
  }

  /** Other descriptors' segments are not among those taken. */
  lemma OthersApart(y: System, z: System, request: Demand)
    requires Conserved(y) && Took(y, z, request)
    ensures forall d :: d in Owners(y) ==>
      d.segs != Last(z.prepared).segs && forall k :: 0 <= k < |d.segs| ==> z.ch.hw[d.segs[k]] == y.ch.hw[d.segs[k]]
  {
    OwnersApart(y);
    forall d | d in Owners(y)
      ensures d.segs != Last(z.prepared).segs
      ensures forall k :: 0 <= k < |d.segs| ==> z.ch.hw[d.segs[k]] == y.ch.hw[d.segs[k]]
    {
      InFlat(Owners(y), d);
      assert forall k :: 0 <= k < |d.segs| ==> d.segs[k] in d.segs && d.segs[k] !in y.ch.free;
      assert Last(z.prepared).segs[0] in y.ch.free;
    }
  }

  lemma TookCarries(y: System, z: System, request: Demand, asked: Asked)
    requires Conserved(y) && Carries(y, asked) && Took(y, z, request)
    ensures Carries(z, asked[Last(z.prepared).segs := request])
  {
    OthersApart(y, z, request);
    forall d | d in Owners(y) ensures Holds(z.ch.hw, d.segs, asked[d.segs]) {
      assert Described(z.ch.hw, d.segs) == Described(y.ch.hw, d.segs);
    }
  }

  lemma TookPristine(y: System, z: System, request: Demand, asked: Asked)
    requires Conserved(y) && FreeClean(y.ch) && Pristine(y, asked) && Took(y, z, request)
    ensures Pristine(z, asked[Last(z.prepared).segs := request])
  {
    OthersApart(y, z, request);
    forall d | d in Unstarted(y) ensures d.segs != Last(z.prepared).segs && Unreported(z.ch.hw, d.segs, asked[d.segs]) {
      assert d in Owners(y);
    }
  }

  lemma PrepTook(y: System, p: Prepared, request: Demand)
    requires Conserved(y) && PrepFits(y.ch, Split(request.ranges)) && p.desc.Some?
    requires p.desc.value.segs == y.ch.free[..|Split(request.ranges)|]
    requires p.state.hw == Prep(y.ch, Split(request.ranges), request.mark, request.app).state.hw
    requires p.state.done == y.ch.done && p.state.active == y.ch.active && p.state.pending == y.ch.pending
    ensures Took(y, AddPrepared(y, p), request)
  {
    PrepHolds(y, p, request);
    PrepFrame(y.ch, Split(request.ranges), request.mark, request.app);
    PreparedOwners(y, p);
    assert y.ch.pending + (y.prepared + [p.desc.value]) == Unstarted(y) + [p.desc.value];
  }

  lemma PrepHolds(y: System, p: Prepared, request: Demand)
    requires Conserved(y) && PrepFits(y.ch, Split(request.ranges)) && p.desc.Some?
    requires p.desc.value.segs == y.ch.free[..|Split(request.ranges)|]
    requires p.state.hw == Prep(y.ch, Split(request.ranges), request.mark, request.app).state.hw
    ensures Holds(p.state.hw, p.desc.value.segs, request)
    ensures FreeClean(y.ch) ==> Unreported(p.state.hw, p.desc.value.segs, request)
  {
    var ps := Split(request.ranges);
    SplitTiles(request.ranges);
    OwnersApart(y);
    WrappedReadBack(y.ch, ps, request.mark, request.app);
    if FreeClean(y.ch) { CleanReadBack(y.ch, ps, request); }
  }

  lemma SgTook(y: System, entries: seq<Range>, mark: bool, app: Option<App>) returns (z: System)
    requires Conserved(y) && PrepFits(y.ch, Split(entries))
    ensures z == AddPrepared(y, PrepSg(y.ch, entries, mark, app))
    ensures |z.prepared| == |y.prepared| + 1 && Took(y, z, Demand(entries, mark, app))
  {
    PrepTook(y, PrepSg(y.ch, entries, mark, app), Demand(entries, mark, app));
    z := AddPrepared(y, PrepSg(y.ch, entries, mark, app));
  }

  lemma CyclicTook(y: System, buf: nat, len: nat, period: nat, mark: bool) returns (z: System)
    requires Conserved(y) && period > 0 && PrepFits(y.ch, Split(Periods(buf, period, len / period)))
    ensures z == AddPrepared(y, PrepCyclic(y.ch, buf, len, period, mark))
    ensures |z.prepared| == |y.prepared| + 1 && Took(y, z, Demand(Periods(buf, period, len / period), mark, None))
  {
    PrepTook(y, PrepCyclic(y.ch, buf, len, period, mark), Demand(Periods(buf, period, len / period), mark, None));
    z := AddPrepared(y, PrepCyclic(y.ch, buf, len, period, mark));
  }

  /** A preparation takes what it needs, or does nothing. */
  lemma PrepTakesOrNot(y: System, step: Step) returns (z: System)
    requires Conserved(y) && !y.ch.bug && IsPrep(step)
    ensures z == Next(y, step)
    ensures if PrepFits(y.ch, Split(Ranges(step)))
      then |z.prepared| == |y.prepared| + 1 && Took(y, z, RequestOf(step))
      else z == y
  {
    z := Next(y, step);
    if PrepFits(y.ch, Split(Ranges(step))) {
      match step
      case StepPrepSg(entries, mark, app) => z := SgTook(y, entries, mark, app);
      case StepPrepCyclic(buf, len, period, mark) => z := CyclicTook(y, buf, len, period, mark);
    }
  }

  lemma PrepCarries(y: System, step: Step, asked: Asked)
    requires Conserved(y) && !y.ch.bug && IsPrep(step) && Carries(y, asked)
    ensures Carries(Next(y, step), AskedAfter(y, step, asked))
  {
    var z := PrepTakesOrNot(y, step);
    if PrepFits(y.ch, Split(Ranges(step))) { TookCarries(y, z, RequestOf(step), asked); }
  }

  lemma PrepPristine(y: System, step: Step, asked: Asked)
    requires MemoryInv(y) && !y.ch.bug && IsPrep(step) && Pristine(y, asked)
    ensures Pristine(Next(y, step), AskedAfter(y, step, asked))
  {
    var z := PrepTakesOrNot(y, step);
    if PrepFits(y.ch, Split(Ranges(step))) { TookPristine(y, z, RequestOf(step), asked); }
  }

  // ---- Until it is started ------------------------------------------------------------------------

  ghost predicate SameReport(g: Hw, h: Hw) { h.status == g.status && h.app == g.app }

  /** What has not been started was not before either, and has not been written to. */
  ghost predicate Waits(y: System, z: System) {
    && (forall d :: d in Unstarted(z) ==> exists e :: e in Unstarted(y) && e.segs == d.segs)
    && (forall d, i :: d in Unstarted(z) && i in d.segs ==> SameReport(y.ch.hw[i], z.ch.hw[i]))
  }

  lemma WaitsPristine(y: System, z: System, asked: Asked)
    requires Pristine(y, asked) && Waits(y, z)
    ensures Pristine(z, asked)
  {
  }

  /** Steps that give segments back. */
  lemma ReleasedWaits(y: System, z: System, gone: seq<SegId>)
    requires Conserved(z) && z.ch.free == y.ch.free + gone && z.ch.hw == CleanAll(y.ch.hw, gone)
    requires forall d :: d in Unstarted(z) ==> d in Unstarted(y)
    ensures Waits(y, z)
  {
    OwnersApart(z);
    forall d, i | d in Unstarted(z) && i in d.segs ensures SameReport(y.ch.hw[i], z.ch.hw[i]) {
      assert d in Owners(z);
      InFlat(Owners(z), d);
    }
  }

  lemma SameWaits(y: System, z: System)
    requires forall d :: d in Unstarted(z) ==> d in Unstarted(y)
    requires forall i: SegId :: SameReport(y.ch.hw[i], z.ch.hw[i])
    ensures Waits(y, z)
  {
  }

  lemma SubmitWaits(y: System, j: nat, callback: bool, after: nat)
    requires Conserved(y) && j < |y.prepared|
    ensures Waits(y, NextSubmit(y, j, callback, after))
  {
    var z := NextSubmit(y, j, callback, after);
    var d := y.prepared[j].(callback := callback);
    SubmitConserved(y, j, callback, after);
    if y.ch.cyclic {
      assert z.ch == FreeSegs(y.ch, y.prepared[j].segs) && z.prepared == Remove(y.prepared, j);
      ReleasedWaits(y, z, y.prepared[j].segs);
    } else if Accepting(y.ch, after) {
      AcceptedWaits(y, j, callback, after);
    } else {
      SameWaits(y, z);
    }
  }

  lemma AcceptedWaits(y: System, j: nat, callback: bool, after: nat)
    requires j < |y.prepared| && Accepting(y.ch, after)
    ensures Waits(y, NextSubmit(y, j, callback, after))
  {
    var z := NextSubmit(y, j, callback, after);
    AcceptedState(y.ch, y.prepared[j].(callback := callback), after);
    var e := Last(z.ch.pending);
    assert y.prepared[j] in Unstarted(y) && y.prepared[j].segs == e.segs;
    AppendReports(y.ch, e);
    forall c | c in Unstarted(z) ensures c in Unstarted(y) || c == e { }
  }

  lemma AppendReports(s: State, d: Desc)
    ensures forall i: SegId :: SameReport(s.hw[i], Append(s, d).hw[i])
  {
  }

  lemma StartWaits(y: System, z: System, ok: bool)
    requires z.ch == Start(y.ch, ok) && z.prepared == y.prepared
    ensures Waits(y, z)
  {
    SameWaits(y, z);
  }

  lemma IrqWaits(y: System, status: nat, ok: bool)
    ensures Waits(y, NextIrq(y, status, ok))
  {
    IrqKeepsMemory(y.ch, status, ok);
    SameWaits(y, NextIrq(y, status, ok));
  }

  lemma StartKeepsMemory(s: State, ok: bool)
    ensures Start(s, ok).hw == s.hw && (Start(s, ok).pending == s.pending || Start(s, ok).pending == [])
  {
  }

  lemma IrqKeepsMemory(s: State, status: nat, ok: bool)
    ensures Irq(s, status, ok).hw == s.hw
    ensures Irq(s, status, ok).pending == s.pending || Irq(s, status, ok).pending == []
  {
    if HasIoc(status) {
      StartKeepsMemory(Completed(s, status), ok);
      assert Irq(s, status, ok) == Start(Completed(s, status), ok);
    }
  }

  lemma HwWriteWaits(y: System, seg: SegId, status: nat, words: App)
    requires Conserved(y)
    ensures Waits(y, NextHwWrite(y, seg, status, words))
  {
    var z := NextHwWrite(y, seg, status, words);
    ActiveApart(y);
    forall d, i | d in Unstarted(z) && i in d.segs ensures SameReport(y.ch.hw[i], z.ch.hw[i]) {
      InFlat(Unstarted(y), d);
    }
  }

  lemma ActiveApart(y: System)
    requires Conserved(y)
    ensures forall i :: i in Flat(Unstarted(y)) ==> i !in Flat(y.ch.active)
  {
    OwnersApart(y);
    assert Owners(y) == y.held + y.ch.done + y.ch.active + Unstarted(y);
    FlatConcat(y.held + y.ch.done + y.ch.active, Unstarted(y));
    FlatConcat(y.held + y.ch.done, y.ch.active);
    PartNoRepeats(Flat(y.held + y.ch.done + y.ch.active), Flat(Unstarted(y)));
  }

  lemma TerminateWaits(y: System, ok: bool)
    requires Conserved(y)
    ensures Waits(y, NextTerminate(y, ok))
  {
    TerminateConserved(y, ok);
    TerminateShape(y.ch, ok);
    ReleasedWaits(y, NextTerminate(y, ok), Flat(y.ch.pending + y.ch.done + y.ch.active));
  }

  lemma FreeWaits(y: System)
    requires Conserved(y)
    ensures Waits(y, NextFree(y))
  {
    FreeConserved(y);
    ReleasedWaits(y, NextFree(y), Flat(y.held));
  }

  lemma TaskletWaits(y: System, step: Step)
    requires step.StepTake? || step.StepRing? || step.StepCall? || step.StepRung? || step.StepHwFinish?
    ensures Waits(y, Next(y, step))
  {
    SameWaits(y, Next(y, step));
  }

  lemma StepWaits(y: System, step: Step)
    requires Conserved(y) && !y.ch.bug && !IsPrep(step)
    ensures Waits(y, Next(y, step))
  {
    match step
    case StepSubmit(j, callback, after) =>
      if j < |y.prepared| { SubmitWaits(y, j, callback, after); } else { SameWaits(y, y); }
    case StepIssue(ok) => StartWaits(y, Next(y, step), ok);
    case StepIrq(status, ok) => IrqWaits(y, status, ok);
    case StepFree => if y.due == [] { FreeWaits(y); } else { SameWaits(y, y); }
    case StepTerminate(ok) => TerminateWaits(y, ok);
    case StepHwWrite(seg, status, words) => HwWriteWaits(y, seg, status, words);
    case StepTake => TaskletWaits(y, step);
    case StepRing => TaskletWaits(y, step);
    case StepCall => TaskletWaits(y, step);
    case StepRung => TaskletWaits(y, step);
    case StepHwFinish => TaskletWaits(y, step);
  }

  // ---- Every run ------------------------------------------------------------------------------------

  lemma CarriesNext(y: System, step: Step, asked: Asked)
    requires Conserved(y) && Carries(y, asked)
    ensures Carries(Next(y, step), AskedAfter(y, step, asked))
  {
    if y.ch.bug {
      assert Next(y, step) == y;
    } else if IsPrep(step) {
      PrepCarries(y, step, asked);
    } else {
      StepKept(y, step);
      KeptCarries(y, Next(y, step), asked);
    }
  }

  lemma PristineNext(y: System, step: Step, asked: Asked)
    requires MemoryInv(y) && Pristine(y, asked)
    ensures Pristine(Next(y, step), AskedAfter(y, step, asked))
  {
    if y.ch.bug {
      assert Next(y, step) == y;
    } else if IsPrep(step) {
      PrepPristine(y, step, asked);
    } else {
      StepWaits(y, step);
      WaitsPristine(y, Next(y, step), asked);
    }
  }

  /** In every run, until a descriptor is started its segments carry no report and the
      application words its client gave, or five zeros if it gave none. */
  lemma {:induction false} PristineInEveryRun(y: System, steps: seq<Step>, asked: Asked)
    requires MemoryInv(y) && Pristine(y, asked)
    ensures MemoryInv(Run(y, steps)) && Pristine(Run(y, steps), AskedIn(y, steps, asked))
    decreases |steps|
  {
    if steps != [] {
      PristineNext(y, steps[0], asked);
      MemoryNext(y, steps[0]);
      PristineInEveryRun(Next(y, steps[0]), steps[1..], AskedAfter(y, steps[0], asked));
    }
  }

  /** In every run, the segments of every owned descriptor describe what its client asked for,
      with the packet flags of its direction. */
  lemma {:induction false} CarriesInEveryRun(y: System, steps: seq<Step>, asked: Asked)
    requires MemoryInv(y) && Carries(y, asked)
    ensures MemoryInv(Run(y, steps)) && Carries(Run(y, steps), AskedIn(y, steps, asked))
    decreases |steps|
  {
    if steps != [] {
      CarriesNext(y, steps[0], asked);
      MemoryNext(y, steps[0]);
      CarriesInEveryRun(Next(y, steps[0]), steps[1..], AskedAfter(y, steps[0], asked));
    }
  }

  // ---- What the engine transfers --------------------------------------------------------------------

  /** The ranges asked for by these descriptors' clients, in order. */
  function AllAsked(ds: seq<Desc>, asked: Asked): seq<Range>
    requires forall d :: d in ds ==> d.segs in asked
  {
    if ds == [] then [] else asked[ds[0].segs].ranges + AllAsked(ds[1..], asked)
  }

  lemma DescribedConcat(hw: Bank, a: seq<SegId>, b: seq<SegId>)
    ensures Described(hw, a + b) == Described(hw, a) + Described(hw, b)
  {
  }

  lemma WrappedConcat(a: seq<Range>, b: seq<Range>)
    ensures Wrapped(a + b) == Wrapped(a) + Wrapped(b)
  {
  }

  lemma {:induction false} BatchDescribed(hw: Bank, ds: seq<Desc>, asked: Asked)
    requires forall d :: d in ds ==> d.segs in asked && Described(hw, d.segs) == Wrapped(Split(asked[d.segs].ranges))
    ensures Described(hw, Flat(ds)) == Wrapped(Split(AllAsked(ds, asked)))
  {
    if ds != [] {
      BatchDescribed(hw, ds[1..], asked);
      DescribedConcat(hw, ds[0].segs, Flat(ds[1..]));
      SplitConcat(asked[ds[0].segs].ranges, AllAsked(ds[1..], asked));
      WrappedConcat(Split(asked[ds[0].segs].ranges), Split(AllAsked(ds[1..], asked)));
    }
  }

  lemma WrappedInSpace(entries: seq<Range>)
    requires InAddressSpace(entries)
    ensures Wrapped(Split(entries)) == Split(entries)
  {
    SplitInSpace(entries);
    forall k | 0 <= k < |Split(entries)| ensures Wrapped(Split(entries))[k] == Split(entries)[k] {
      assert Split(entries)[k] in Split(entries);
    }
  }

  /** What a walk from the address in CURDESC to that in TAILDESC transfers. */
  ghost predicate EngineIsGiven(s: State, ranges: seq<Range>) {
    var walk := HwWalk(s.hw, s.base, s.regs.curdesc, s.regs.taildesc, NUM_DESCS);
    && walk.Some?
    && Described(s.hw, walk.value) == Wrapped(Split(ranges))
    && (InAddressSpace(ranges) ==> Bytes(Described(s.hw, walk.value)) == Bytes(ranges))
  }

  lemma WalkMoves(s: State, asked: Asked)
    requires s.active != []
    requires HwWalk(s.hw, s.base, s.regs.curdesc, s.regs.taildesc, NUM_DESCS) == Some(Flat(s.active))
    requires forall d :: d in s.active ==>
      d.segs in asked && Described(s.hw, d.segs) == Wrapped(Split(asked[d.segs].ranges))
    ensures EngineIsGiven(s, AllAsked(s.active, asked))
  {
    var ranges := AllAsked(s.active, asked);
    BatchDescribed(s.hw, s.active, asked);
    if InAddressSpace(ranges) {
      WrappedInSpace(ranges);
      SplitTiles(ranges);
    }
  }

  /** End to end: in every disciplined run on a scatter-gather engine, while a batch is active, the
      engine moves exactly the bytes its clients asked for, transfer after transfer, in the order
      they were submitted, each byte once. */
  lemma EngineMovesWhatWasAsked(base: nat, ctrl: nat, regs: Regs, steps: seq<Step>)
    requires Disciplined(Boot(base, true, ctrl, regs), steps)
    ensures
      var y := Boot(base, true, ctrl, regs);
      var s, asked := Run(y, steps).ch, AskedIn(y, steps, map[]);
      && (forall d :: d in s.active ==> d.segs in asked)
      && (s.active != [] ==> EngineIsGiven(s, AllAsked(s.active, asked)))
  {
    var y := Boot(base, true, ctrl, regs);
    var z := Run(y, steps);
    BootMemory(base, true, ctrl, regs);
    CarriesInEveryRun(y, steps, map[]);
    assert forall d :: d in z.ch.active ==> d in Owners(z);
    if z.ch.active != [] {
      EngineVisitsTheBatch(base, ctrl, regs, steps);
      WalkMoves(z.ch, AskedIn(y, steps, map[]));
    }
  }
}
