/** The proxy end to end: what the engine moves for its requests is the user's buffer. */
module Buffers {
  import opened ChannelState
  import opened Contents
  import opened Options
  import opened Preparation
  import opened Proxy
  import opened Requests
  import opened Ring
  import opened Runs
  import opened SimpleMode
  import opened Splitting
  import opened Walk

  /** What each descriptor's request was, by the client's own moves. */
  function AskedBy(z: Pair, move: Move, asked: Asked): Asked {
    var w := NextPair(z, move);
    if move.Prepare? && |w.y.prepared| > |z.y.prepared|
    then asked[Last(w.y.prepared).segs := Demand([Range(move.handle, move.len)], move.mark, None)]
    else asked
  }

  function Requested(z: Pair, moves: seq<Move>, asked: Asked): Asked
    decreases |moves|
  {
    if moves == [] then asked else Requested(NextPair(z, moves[0]), moves[1..], AskedBy(z, moves[0], asked))
  }

  /** The channel carries what the proxy's moves asked for. */
  lemma MoveCarries(z: Pair, move: Move, asked: Asked)
    requires PairInv(z) && Carries(z.y, asked)
    ensures Carries(NextPair(z, move).y, AskedBy(z, move, asked))
  {
    var w := MoveSteps(z, move);
    if MoveStep(z, move).Some? {
      CarriesNext(z.y, MoveStep(z, move).value, asked);
      if !move.Prepare? { PreparedNotMore(z, move); }
    }
  }

  /** Only preparing adds a prepared descriptor. */
  lemma PreparedNotMore(z: Pair, move: Move)
    requires PairInv(z) && MoveStep(z, move).Some? && !move.Prepare?
    ensures !IsPrep(MoveStep(z, move).value)
  {
  }

  lemma {:induction false} BuffersInRun(z: Pair, moves: seq<Move>, asked: Asked)
    requires PairInv(z) && Carries(z.y, asked)
    ensures Carries(RunPair(z, moves).y, Requested(z, moves, asked))
    decreases |moves|
  {
    if moves != [] {
      MoveCarries(z, moves[0], asked);
      PairNext(z, moves[0]);
      BuffersInRun(NextPair(z, moves[0]), moves[1..], AskedBy(z, moves[0], asked));
    }
  }

  /** With scatter-gather, as long as its resets succeed: while requests are active, the engine's
      walk moves their buffers, one after the other, and nothing else, with the packet flags of their
      directions. */
  lemma ProxyMovesBuffers(base: nat, ctrl: nat, regs: Regs, status: Status, moves: seq<Move>)
    requires Resets(Open(base, true, ctrl, regs, status), moves)
    ensures
      var o := Open(base, true, ctrl, regs, status);
      var s, asked := RunPair(o, moves).y.ch, Requested(o, moves, map[]);
      && (forall d :: d in s.active ==> d.segs in asked && Marked(s.hw, d.segs, asked[d.segs].mark))
      && (s.active != [] ==> EngineIsGiven(s, AllAsked(s.active, asked)))
  {
    var o := Open(base, true, ctrl, regs, status);
    OpenInv(base, true, ctrl, regs, status);
    BuffersInRun(o, moves, map[]);
    ProxyWalk(base, ctrl, regs, status, moves);
    BuffersMoved(RunPair(o, moves).y, Requested(o, moves, map[]));
  }

  lemma BuffersMoved(y: System, asked: Asked)
    requires Carries(y, asked)
    requires y.ch.active != [] ==>
      HwWalk(y.ch.hw, y.ch.base, y.ch.regs.curdesc, y.ch.regs.taildesc, NUM_DESCS) == Some(Flat(y.ch.active))
    ensures forall d :: d in y.ch.active ==> d.segs in asked && Marked(y.ch.hw, d.segs, asked[d.segs].mark)
    ensures y.ch.active != [] ==> EngineIsGiven(y.ch, AllAsked(y.ch.active, asked))
  {
    assert forall d :: d in y.ch.active ==> d in Owners(y);
    if y.ch.active != [] { WalkMoves(y.ch, asked); }
  }

  lemma ProxyWalk(base: nat, ctrl: nat, regs: Regs, status: Status, moves: seq<Move>)
    requires Resets(Open(base, true, ctrl, regs, status), moves)
    ensures
      var s := RunPair(Open(base, true, ctrl, regs, status), moves).y.ch;
      s.active != [] ==> HwWalk(s.hw, s.base, s.regs.curdesc, s.regs.taildesc, NUM_DESCS) == Some(Flat(s.active))
  {
    var o := Open(base, true, ctrl, regs, status);
    OpenInv(base, true, ctrl, regs, status);
    BootRing(base, true, ctrl, regs);
    ProxyOnRing(o, moves);
    SameEngineRun(o, moves);
    RingWalk(RunPair(o, moves).y);
  }

  lemma {:induction false} SameEngineRun(z: Pair, moves: seq<Move>)
    ensures RunPair(z, moves).y.ch.sg == z.y.ch.sg
    decreases |moves|
  {
    if moves != [] {
      SameEngineMove(z, moves[0]);
      SameEngineRun(NextPair(z, moves[0]), moves[1..]);
    }
  }

  // ---- Without scatter-gather -----------------------------------------------------------------

  lemma MovePrograms(z: Pair, move: Move)
    requires PairInv(z) && Programs(z.y.ch)
    ensures Programs(NextPair(z, move).y.ch)
  {
    var w := MoveSteps(z, move);
    if MoveStep(z, move).Some? { ProgramsNext(z.y, MoveStep(z, move).value); }
  }

  lemma {:induction false} ProgramsInRun(z: Pair, moves: seq<Move>)
    requires PairInv(z) && Programs(z.y.ch)
    ensures PairInv(RunPair(z, moves)) && Programs(RunPair(z, moves).y.ch)
    decreases |moves|
  {
    if moves != [] {
      MovePrograms(z, moves[0]);
      PairNext(z, moves[0]);
      ProgramsInRun(NextPair(z, moves[0]), moves[1..]);
    }
  }

  /** Without it, the engine is programmed with the first piece of the oldest active request's
      buffer: with the whole of it exactly if that request is the only active one and fits a
      single segment. */
  lemma SimpleProxyMovesBuffer(base: nat, ctrl: nat, regs: Regs, status: Status, moves: seq<Move>)
    ensures
      var o := Open(base, false, ctrl, regs, status);
      var s, asked := RunPair(o, moves).y.ch, Requested(o, moves, map[]);
      && (forall d :: d in s.active ==> d.segs in asked)
      && (s.active != [] ==>
            var pieces := Wrapped(Split(AllAsked(s.active, asked)));
            && pieces != [] && Programmed(s) == Bytes(pieces[..1])
            && (Programmed(s) == Bytes(pieces) <==> |pieces| == 1))
  {
    var o := Open(base, false, ctrl, regs, status);
    OpenInv(base, false, ctrl, regs, status);
    BuffersInRun(o, moves, map[]);
    ProgramsInRun(o, moves);
    SameEngineRun(o, moves);
    if RunPair(o, moves).y.ch.active != [] { FirstTransfer(RunPair(o, moves).y, Requested(o, moves, map[])); }
  }

  // ---- Before the request is armed --------------------------------------------------------------

  /** Callbacks that come before the request arms its completion are forgotten: nothing that
      follows depends on how many there were. */
  lemma EarlierCallsForgotten(z: Pair, n: nat, moves: seq<Move>)
    requires z.p.phase.Prepped?
    ensures RunPair(z.(p := z.p.(cmp := n)), [Arm] + moves) == RunPair(z, [Arm] + moves)
    ensures NextPair(z, Arm).p.cmp == 0
  {
    MoveThen(z, Arm, moves);
    MoveThen(z.(p := z.p.(cmp := n)), Arm, moves);
  }
}
