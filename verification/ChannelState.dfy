/** The state of one DMA channel and what each driver operation does to it, as functions on
    values. Driver.dfy holds the imperative operations proved against these functions. */
module ChannelState {
  import opened Bits
  import opened Options
  import opened Registers
  import opened Splitting

  const NUM_DESCS: nat := 255
  const COALESCE_MAX: nat := 255
  // sizeof(struct xilinx_dma_tx_segment): a 64-byte aligned hardware part, then the list
  // node and the bus address, the whole aligned to 64 bytes.
  const SEG_SIZE: nat := 128

  type App = a: seq<nat> | |a| == 5 witness [0, 0, 0, 0, 0]
  const NO_APP: App := [0, 0, 0, 0, 0]

  /** The hardware words of a segment that the driver reads or writes. */
  datatype Hw = Hw(next: nat, buf: nat, control: nat, status: nat, app: App)

  /** Segments are named by their index in the coherent array. */
  type SegId = i: int | 0 <= i < NUM_DESCS
  type Segs = s: seq<SegId> | |s| > 0 witness [0]
  type Bank = b: seq<Hw> | |b| == NUM_DESCS witness seq(NUM_DESCS, _ => Hw(0, 0, 0, 0, NO_APP))

  /** A transaction descriptor. `phys` is the bus address of its first segment. */
  datatype Desc = Desc(segs: Segs, phys: nat, cyclic: bool, callback: bool, cookie: nat)

  /** The last value the driver wrote to each channel register. */
  datatype Regs = Regs(control: nat, curdesc: nat, taildesc: nat, srcdst: nat, btt: nat)

  datatype State = State(
    base: nat, sg: bool,
    hw: Bank, free: seq<SegId>,
    pending: seq<Desc>, active: seq<Desc>, done: seq<Desc>,
    count: nat, idle: bool, err: bool, cyclic: bool,
    ctrl: nat, cookie: nat, completed: nat,
    regs: Regs,
    bug: bool)  // the assertion in append_desc_queue has fired

  function Addr(base: nat, i: SegId): nat { base + SEG_SIZE * i }

  function Succ(i: SegId): SegId { (i + 1) % NUM_DESCS }

  /** The segments of a list of descriptors, in order. */
  function Flat(ds: seq<Desc>): seq<SegId> {
    if ds == [] then [] else ds[0].segs + Flat(ds[1..])
  }

  function Last<T>(s: seq<T>): T
    requires |s| > 0
  {
    s[|s| - 1]
  }

  function AllSegs(): (q: seq<SegId>)
    ensures |q| == NUM_DESCS && forall i: SegId :: q[i] == i
  {
    seq(NUM_DESCS, i requires 0 <= i < NUM_DESCS => i as SegId)
  }

  // ---- Pool ---------------------------------------------------------------------------

  function Init(base: nat, sg: bool, ctrl: nat, regs: Regs): State {
    var ctrl' := Or(ctrl, IRQ_ALL);
    State(base, sg,
          seq(NUM_DESCS, i requires 0 <= i < NUM_DESCS => Hw(Addr(base, Succ(i)), 0, 0, 0, NO_APP)),
          AllSegs(),
          [], [], [], 0, true, false, false, ctrl', 1, 1, regs.(control := ctrl'), false)
  }

  /** Everything but the link is zeroed. */
  function Clean(h: Hw): Hw { Hw(h.next, 0, 0, 0, NO_APP) }

  function CleanAll(hw: Bank, segs: seq<SegId>): Bank {
    seq(NUM_DESCS, i requires 0 <= i < NUM_DESCS => if i in segs then Clean(hw[i]) else hw[i])
  }

  /** Segments come back clean, at the tail of the free list, in order. */
  function FreeSegs(s: State, segs: seq<SegId>): State {
    s.(hw := CleanAll(s.hw, segs), free := s.free + segs)
  }

  // ---- Preparation --------------------------------------------------------------------

  function FillSegment(h: Hw, p: Range, app: Option<App>): Hw {
    h.(buf := p.addr % WORD, control := p.len, app := if app.Some? then app.value else h.app)
  }

  /** The bank once the first n segments of `segs` carry the first n pieces. */
  function Fill(hw: Bank, segs: seq<SegId>, ps: seq<Range>, app: Option<App>, n: nat): Bank
    requires n <= |segs| && n <= |ps|
  {
    if n == 0 then hw
    else
      var b := Fill(hw, segs, ps, app, n - 1);
      b[segs[n - 1] := FillSegment(b[segs[n - 1]], ps[n - 1], app)]
  }

  function OrControl(hw: Bank, i: SegId, flag: nat): Bank {
    hw[i := hw[i].(control := Or(hw[i].control, flag))]
  }

  function MarkPacket(hw: Bank, segs: Segs, mark: bool): Bank {
    if mark then OrControl(OrControl(hw, segs[0], BD_SOP), Last(segs), BD_EOP) else hw
  }

  datatype Prepared = Prepared(state: State, desc: Option<Desc>)

  /** What preparation asks of its caller and of the pool: at least one piece, and enough
      free segments. */
  predicate PrepFits(s: State, ps: seq<Range>) {
    0 < |ps| <= |s.free|
  }

  /** Cut segments off the head of the free list and fill them; or leave everything alone. */
  function Prep(s: State, ps: seq<Range>, mark: bool, app: Option<App>): Prepared {
    if PrepFits(s, ps) then
      var segs: Segs := s.free[..|ps|];
      var hw := MarkPacket(Fill(s.hw, segs, ps, if mark then app else None, |ps|), segs, mark);
      Prepared(s.(hw := hw, free := s.free[|ps|..]),
               Some(Desc(segs, Addr(s.base, segs[0]), false, false, 0)))
    else
      Prepared(s, None)
  }

  function PrepSg(s: State, entries: seq<Range>, mark: bool, app: Option<App>): Prepared {
    Prep(s, Split(entries), mark, app)
  }

  /** A successful cyclic preparation also enables cyclic mode in the control register. */
  function PrepCyclic(s: State, buf: nat, len: nat, period: nat, mark: bool): Prepared
    requires period > 0
  {
    var p := Prep(s, Split(Periods(buf, period, len / period)), mark, None);
    match p.desc
    case None => p
    case Some(d) =>
      var ctrl := Or(s.ctrl, CR_CYCLIC_BD_EN);
      Prepared(p.state.(ctrl := ctrl, regs := s.regs.(control := ctrl)), Some(d.(cyclic := true)))
  }

  // ---- Submission ---------------------------------------------------------------------

  /** Reset, where `after` is the control register's value when polling ends. It succeeds if
      the reset bit has cleared itself. */
  function Reset(s: State, after: nat): State {
    s.(ctrl := s.regs.control, regs := s.regs.(control := after),
       err := s.err && And(after, CR_RESET) != 0)
  }

  /** The pending tail's last segment is linked to the new descriptor, which is then queued
      and counted. */
  function Append(s: State, d: Desc): State {
    var hw: Bank :=
      if s.pending == [] then s.hw
      else
        var t := Last(Last(s.pending).segs);
        s.hw[t := s.hw[t].(next := d.phys)];
    var count := s.count + 1;
    s.(hw := hw, pending := s.pending + [d],
       count := if count > COALESCE_MAX then COALESCE_MAX else count,
       bug := s.bug || count > COALESCE_MAX)
  }

  /** Whether a submission is accepted: the channel is not cyclic, and an error can be reset. */
  predicate Accepting(s: State, after: nat) {
    !s.cyclic && (s.err ==> And(after, CR_RESET) == 0)
  }

  datatype Outcome = Accepted(cookie: nat) | Busy | ResetFailed
  datatype Submitted = Submitted(state: State, outcome: Outcome)

  /** The descriptor gets the next cookie and is queued; a cyclic one makes the channel so. */
  function Enqueue(s: State, d: Desc): Submitted {
    var cookie := s.cookie + 1;
    var t := Append(s.(cookie := cookie), d.(cookie := cookie));
    Submitted(if d.cyclic && !t.bug then t.(cyclic := true) else t, Accepted(cookie))
  }

  /** Busy consumes the descriptor; ResetFailed leaves it with the caller. */
  function Submit(s: State, d: Desc, after: nat): Submitted {
    if s.cyclic then Submitted(FreeSegs(s, d.segs), Busy)
    else
      var s1 := if s.err then Reset(s, after) else s;
      if s1.err then Submitted(s1, ResetFailed) else Enqueue(s1, d)
  }

  // ---- Starting and completing --------------------------------------------------------

  predicate CanStart(s: State) {
    !s.err && s.pending != [] && s.idle
  }

  /** The control register value a start writes. */
  function StartControl(s: State): nat {
    Or(if s.count <= COALESCE_MAX then SetCoalesce(s.ctrl, s.count) else s.ctrl, CR_RUNSTOP)
  }

  /** `ok` says whether the engine left the halted state within the poll limit. */
  function Start(s: State, ok: bool): State {
    if !CanStart(s) then s
    else
      var head, tail := s.pending[0], Last(s.pending);
      var first := s.hw[head.segs[0]];
      var ctrl := StartControl(s);
      var regs := s.regs.(control := ctrl, curdesc := if s.sg then head.phys else s.regs.curdesc);
      if !ok then s.(ctrl := ctrl, regs := regs, err := true)
      else
        s.(ctrl := ctrl,
           regs := if s.sg then regs.(taildesc := Addr(s.base, Last(tail.segs)))
                   else regs.(srcdst := first.buf, btt := Length(first.control)),
           pending := [], active := s.active + s.pending, count := 0, idle := false)
  }

  /** The cookie reached once `ds` have completed in order: cyclic ones complete nothing. */
  function CompletedBy(ds: seq<Desc>, completed: nat): nat {
    if ds == [] then completed
    else if Last(ds).cyclic then CompletedBy(ds[..|ds| - 1], completed)
    else Last(ds).cookie
  }

  function Complete(s: State): State {
    s.(completed := CompletedBy(s.active, s.completed), active := [], done := s.done + s.active)
  }

  /** One interrupt with the given status word. */
  function Irq(s: State, status: nat, startOk: bool): State {
    if And(status, IRQ_ALL) == 0 then s
    else
      var s1 := if And(status, IRQ_ERROR) != 0 then s.(err := true) else s;
      if And(status, IRQ_IOC) != 0 then Start(Complete(s1).(idle := true), startOk) else s1
  }

  // ---- Cleanup and termination --------------------------------------------------------

  /** Cleanup can unlink the head of the done list. */
  predicate CanTake(s: State) {
    s.done != [] && !s.done[0].cyclic
  }

  function Take(s: State): State
    requires CanTake(s)
  {
    s.(done := s.done[1..])
  }

  /** The leading descriptors that an uninterrupted cleanup frees: those before a cyclic one. */
  function Finite(ds: seq<Desc>): (r: seq<Desc>)
    ensures r <= ds
  {
    if ds == [] || ds[0].cyclic then [] else [ds[0]] + Finite(ds[1..])
  }

  /** A cleanup during whose callbacks nothing else runs. */
  function Cleanup(s: State): State {
    var gone := Finite(s.done);
    FreeSegs(s, Flat(gone)).(done := s.done[|gone|..])
  }

  /** Halt, then empty the pending, done and active lists in that order. */
  function Terminate(s: State, haltOk: bool): State {
    var ctrl := AndNot(s.ctrl, CR_RUNSTOP);
    var s1 := s.(ctrl := ctrl, regs := s.regs.(control := ctrl), err := s.err || !haltOk);
    var s2 := FreeSegs(s1, Flat(s.pending + s.done + s.active)).(pending := [], done := [], active := []);
    if s.cyclic then
      var off := AndNot(ctrl, CR_CYCLIC_BD_EN);
      s2.(ctrl := off, regs := s2.regs.(control := off), cyclic := false)
    else s2
  }

  // ---- Status -------------------------------------------------------------------------

  /** dma_cookie_status, below cookie wrap. */
  predicate IsComplete(s: State, cookie: nat) {
    cookie <= s.completed || s.cookie < cookie
  }

  /** A query for a cookie in progress reads the last active descriptor of a scatter-gather
      engine: there has to be one. */
  predicate QuerySafe(s: State, cookie: nat) {
    IsComplete(s, cookie) || !s.sg || s.active != []
  }

  /** What one segment still has to transfer, computed as the driver does in 32 bits. */
  function SegmentResidue(h: Hw): nat {
    And((h.control - h.status) % WORD, MAX_TRANS_LEN)
  }

  /** The residue loop over the first n segments, in 32 bits. */
  function Residue(hw: Bank, segs: seq<SegId>): nat {
    if segs == [] then 0
    else (Residue(hw, segs[..|segs| - 1]) + SegmentResidue(hw[Last(segs)])) % WORD
  }
}
