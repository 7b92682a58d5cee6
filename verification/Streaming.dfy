/**
  The whole component: the pool protocol with the processor's own state in it. The processor's
  passes decide which steps of the protocol it takes.
 */
module Streaming {

  import opened SddsPackets
  import opened SlipDetector
  import opened Processor
  import opened PoolProtocol

  datatype System = System(pool: State, proc: Proc)

  /** A step of the reader, the kernel or the pool; a pass of the processor; an upstream SRI event. */
  datatype Move = PoolMove(step: Step) | ProcessorPass(clockYear: int) | UpstreamMove(e: UpstreamEvent)

  ghost predicate SysInv(cfg: Config, s: System) {
    Inv(cfg, s.pool) && AllUsable(s.pool.received) && UsableBps(s.proc.trk.bps)
  }

  /** The front of the work queue is the next packet received that has not been consumed. */
  lemma FrontIsNext(cfg: Config, s: System)
    requires SysInv(cfg, s) && s.pool.work != []
    ensures |s.pool.consumed| < |s.pool.received|
    ensures s.pool.work[0] in s.pool.mem
    ensures s.pool.mem[s.pool.work[0]] == s.pool.received[|s.pool.consumed|]
    ensures Usable(s.pool.mem[s.pool.work[0]])
  {
    var q := InTransit(s.pool);
    assert q[0] == s.pool.work[0];
    assert Load(s.pool.mem, q)[0] == s.pool.mem[q[0]];
    assert (s.pool.consumed + Load(s.pool.mem, q))[|s.pool.consumed|] == Load(s.pool.mem, q)[0];
  }

  ghost function Front(cfg: Config, s: System): (p: Packet)
    requires SysInv(cfg, s) && s.pool.work != []
    ensures Usable(p)
  {
    FrontIsNext(cfg, s);
    s.pool.mem[s.pool.work[0]]
  }

  /** The step of the protocol that a pass turns out to be. */
  ghost function PassStep(cfg: Config, s: System, clockYear: int): Step
    requires SysInv(cfg, s)
  {
    if s.pool.work == [] then Leave
    else
      var o := Offer(s.proc, Front(cfg, s), clockYear);
      if o.consumed then Consume(o.d) else Leave
  }

  ghost predicate CanMove(cfg: Config, s: System, m: Move) {
    match m
    case PoolMove(step) =>
      && Enabled(cfg, s.pool, step) && !step.Consume? && !step.Leave?
      && (step.Receive? ==> AllUsable(step.pkts))
    case ProcessorPass(_) => s.pool.processor.Working?
    case UpstreamMove(_) => true
  }

  ghost function MoveTo(cfg: Config, s: System, m: Move): System
    requires SysInv(cfg, s) && CanMove(cfg, s, m)
  {
    match m
    case PoolMove(step) => s.(pool := Do(cfg, s.pool, step))
    case ProcessorPass(year) =>
      PassEnabled(cfg, s, year);
      System(Do(cfg, s.pool, PassStep(cfg, s, year)),
             if s.pool.work == [] then s.proc else Offer(s.proc, Front(cfg, s), year).s)
    case UpstreamMove(e) => s.(proc := Apply(s.proc, e))
  }

  lemma PassEnabled(cfg: Config, s: System, clockYear: int)
    requires SysInv(cfg, s) && s.pool.processor.Working?
    ensures Enabled(cfg, s.pool, PassStep(cfg, s, clockYear))
  {
    hide Offer, Inv;
    if s.pool.work != [] {
      FrontIsNext(cfg, s);
    }
  }

  /** Every move is a step of the protocol, or leaves the protocol alone. */
  lemma MoveKeepsSysInv(cfg: Config, s: System, m: Move)
    requires cfg.Valid() && SysInv(cfg, s) && CanMove(cfg, s, m)
    ensures SysInv(cfg, MoveTo(cfg, s, m))
  {
    hide Inv, Offer;
    match m
    case PoolMove(step) => DoKeepsInv(cfg, s.pool, step);
    case ProcessorPass(year) =>
      PassEnabled(cfg, s, year);
      DoKeepsInv(cfg, s.pool, PassStep(cfg, s, year));
    case UpstreamMove(e) =>
  }

  ghost predicate CanRun(cfg: Config, s: System, moves: seq<Move>)
    requires cfg.Valid() && SysInv(cfg, s)
    decreases |moves|
  {
    moves != [] ==>
      && CanMove(cfg, s, moves[0])
      && (MoveKeepsSysInv(cfg, s, moves[0]); CanRun(cfg, MoveTo(cfg, s, moves[0]), moves[1..]))
  }

  ghost function RunTo(cfg: Config, s: System, moves: seq<Move>): (t: System)
    requires cfg.Valid() && SysInv(cfg, s) && CanRun(cfg, s, moves)
    ensures SysInv(cfg, t)
    decreases |moves|
  {
    if moves == [] then s
    else
      MoveKeepsSysInv(cfg, s, moves[0]);
      RunTo(cfg, MoveTo(cfg, s, moves[0]), moves[1..])
  }

  ghost function Begin(cfg: Config, blank: Packet, setup: Setup): (s: System)
    ensures SysInv(cfg, s)
  {
    StartInv(cfg, blank);
    System(Start(cfg, blank), Fresh(setup))
  }

  /** What the processor does in a run, as acts on the stream of received packets. */
  ghost function ActsOf(cfg: Config, s: System, moves: seq<Move>): seq<Act>
    requires cfg.Valid() && SysInv(cfg, s) && CanRun(cfg, s, moves)
    decreases |moves|
  {
    if moves == [] then []
    else
      MoveKeepsSysInv(cfg, s, moves[0]);
      ActOf(s, moves[0]) + ActsOf(cfg, MoveTo(cfg, s, moves[0]), moves[1..])
  }

  function ActOf(s: System, m: Move): seq<Act> {
    match m
    case PoolMove(_) => []
    case ProcessorPass(year) => if s.pool.work == [] then [] else [Pass(year)]
    case UpstreamMove(e) => [Upcall(e)]
  }

  lemma ReceivedGrows(cfg: Config, s: System, m: Move)
    requires cfg.Valid() && SysInv(cfg, s) && CanMove(cfg, s, m)
    ensures s.pool.received <= MoveTo(cfg, s, m).pool.received
  {
    hide Inv, Offer;
  }

  lemma {:induction false} RunReceives(cfg: Config, s: System, moves: seq<Move>)
    requires cfg.Valid() && SysInv(cfg, s) && CanRun(cfg, s, moves)
    ensures s.pool.received <= RunTo(cfg, s, moves).pool.received
    decreases |moves|
  {
    hide SysInv, MoveTo, CanMove;
    if moves != [] {
      MoveKeepsSysInv(cfg, s, moves[0]);
      ReceivedGrows(cfg, s, moves[0]);
      RunReceives(cfg, MoveTo(cfg, s, moves[0]), moves[1..]);
    }
  }

  function PositionOf(s: System): Position {
    Position(s.proc, |s.pool.consumed|)
  }

  /** One move, seen from the stream: at most one act, on the next packet. */
  lemma MoveIsAct(cfg: Config, s: System, m: Move, ps: seq<Packet>)
    requires cfg.Valid() && SysInv(cfg, s) && CanMove(cfg, s, m)
    requires AllUsable(ps) && s.pool.received <= ps
    ensures Processor.Ready(PositionOf(s), ps)
    ensures var t := MoveTo(cfg, s, m);
            var acts := ActOf(s, m);
            if acts == [] then PositionOf(t) == PositionOf(s) else PositionOf(t) == Next(PositionOf(s), ps, acts[0])
  {
    assert |s.pool.consumed| <= |s.pool.received|;
    hide Inv, Offer, Apply;
    if m.ProcessorPass? && s.pool.work != [] {
      FrontIsNext(cfg, s);
    }
  }

  /**
    Whatever the interleaving, the processor works on the packets received, in the order in which
    they were received, exactly as if the stream were offered to it directly.
   */
  lemma {:induction false} SystemRunIsProcessorRun(cfg: Config, s: System, moves: seq<Move>, ps: seq<Packet>)
    requires cfg.Valid() && SysInv(cfg, s) && CanRun(cfg, s, moves)
    requires AllUsable(ps) && RunTo(cfg, s, moves).pool.received <= ps
    ensures Processor.Ready(PositionOf(s), ps)
    ensures Run(PositionOf(s), ps, ActsOf(cfg, s, moves)) == PositionOf(RunTo(cfg, s, moves))
    decreases |moves|
  {
    RunReceives(cfg, s, moves);
    hide SysInv, MoveTo, CanMove, ActOf, Next;
    MoveIsActOrEnd(cfg, s, moves, ps);
    if moves != [] {
      var m := moves[0];
      MoveKeepsSysInv(cfg, s, m);
      var t := MoveTo(cfg, s, m);
      SystemRunIsProcessorRun(cfg, t, moves[1..], ps);
      AtMostOneAct(s, m);
      var rest := ActsOf(cfg, t, moves[1..]);
      if ActOf(s, m) == [] {
        assert ActsOf(cfg, s, moves) == rest;
      } else {
        assert ActsOf(cfg, s, moves) == [ActOf(s, m)[0]] + rest;
        assert ([ActOf(s, m)[0]] + rest)[1..] == rest;
      }
    }
  }

  lemma AtMostOneAct(s: System, m: Move)
    ensures |ActOf(s, m)| <= 1
  {
  }

  lemma MoveIsActOrEnd(cfg: Config, s: System, moves: seq<Move>, ps: seq<Packet>)
    requires cfg.Valid() && SysInv(cfg, s) && CanRun(cfg, s, moves)
    requires AllUsable(ps) && s.pool.received <= ps
    ensures Processor.Ready(PositionOf(s), ps)
    ensures moves != [] ==>
              var t := MoveTo(cfg, s, moves[0]);
              var acts := ActOf(s, moves[0]);
              if acts == [] then PositionOf(t) == PositionOf(s) else PositionOf(t) == Next(PositionOf(s), ps, acts[0])
  {
    hide MoveTo, ActOf, Next, Inv;
    if moves != [] {
      MoveIsAct(cfg, s, moves[0], ps);
    } else {
      ConsumedWereReceived(cfg, s);
    }
  }

  lemma ConsumedWereReceived(cfg: Config, s: System)
    requires SysInv(cfg, s)
    ensures s.pool.consumed <= s.pool.received
  {
  }
}
