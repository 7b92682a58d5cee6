/**
  Progress of the whole component: its threads cannot keep busy without consuming packets, and
  when they have nothing left to do they are waiting for the network.
 */
module Progress {

  import Livelock
  import Deadlock
  import opened SddsPackets
  import opened Processor
  import opened PoolProtocol
  import opened Streaming
  import opened SmartPacketBuffers

  /** Moves the component does not make by itself: packets and upstream SRIs arriving. */
  predicate External(m: Move) {
    m.UpstreamMove? || (m.PoolMove? && m.step.Receive?)
  }

  /** Headers with a positive rate, on which the SRI settles. */
  ghost predicate AllPositive(ps: seq<Packet>) {
    forall i :: 0 <= i < |ps| ==> Rate(ps[i].h) > 0.0
  }

  function ReaderPotential(r: ReaderAt): nat {
    match r
    case Priming => 2
    case Pointing => 1
    case Ready => 0
    case Received(n) => 3
    case Refilling(n) => 2
    case Repointing(n) => 1
  }

  function ProcessorPotential(cfg: Config, s: State): nat {
    match s.processor
    case Popping => 1
    case Working => if |s.work| < cfg.p then 3 else 0
    case Recycling => 2
  }

  /** Packets received and not consumed. */
  function Outstanding(s: State): nat {
    if |s.received| <= |s.consumed| then 0 else |s.received| - |s.consumed|
  }

  /** How often the next packet can still be held back. */
  function FrontObjections(s: System): nat {
    if Outstanding(s.pool) == 0 then 0
    else Livelock.Objections(s.proc, s.pool.received[|s.pool.consumed|].h)
  }

  /** A number that every move of the component itself lowers. */
  function Potential(cfg: Config, s: System): nat {
    12 * Outstanding(s.pool) + 4 * FrontObjections(s)
    + ReaderPotential(s.pool.reader) + ProcessorPotential(cfg, s.pool)
  }

  /** How much a move from outside may raise it, and the move itself. */
  function Budget(m: Move): nat {
    if m.UpstreamMove? then 5
    else if m.PoolMove? && m.step.Receive? then 12 * |m.step.pkts| + 12
    else 0
  }

  function TotalBudget(moves: seq<Move>): nat {
    if moves == [] then 0 else Budget(moves[0]) + TotalBudget(moves[1..])
  }

  lemma FewObjections(s: System)
    ensures FrontObjections(s) <= 2
  {
  }

  /** A step of either thread that neither receives nor passes moves that thread one place on. */
  lemma StepLowers(cfg: Config, s: State, step: Step)
    requires cfg.Valid() && Batched(cfg, s) && Enabled(cfg, s, step)
    requires !step.Receive? && !step.Consume? && !step.Leave?
    ensures var t := Do(cfg, s, step);
            && t.received == s.received && t.consumed == s.consumed
            && ReaderPotential(t.reader) + ProcessorPotential(cfg, t)
               < ReaderPotential(s.reader) + ProcessorPotential(cfg, s)
  {
    hide WriteThrough, TakeEmpty, PushFull;
  }

  lemma PoolMoveLowers(cfg: Config, s: System, step: Step)
    requires cfg.Valid() && SysInv(cfg, s) && CanMove(cfg, s, PoolMove(step)) && !step.Receive?
    ensures Potential(cfg, MoveTo(cfg, s, PoolMove(step))) < Potential(cfg, s)
  {
    StepLowers(cfg, s.pool, step);
    hide Inv, Do, Enabled, Livelock.Objections, ReaderPotential, ProcessorPotential;
  }

  lemma ReceiveRaises(cfg: Config, s: System, step: Step)
    requires cfg.Valid() && SysInv(cfg, s) && CanMove(cfg, s, PoolMove(step)) && step.Receive?
    ensures Potential(cfg, MoveTo(cfg, s, PoolMove(step))) + 1 <= Potential(cfg, s) + Budget(PoolMove(step))
  {
    var t := MoveTo(cfg, s, PoolMove(step));
    ConsumedWereReceived(cfg, s);
    FewObjections(t);
    hide Inv, Livelock.Objections, WriteThrough;
  }

  lemma UpstreamRaises(cfg: Config, s: System, e: UpstreamEvent)
    requires cfg.Valid() && SysInv(cfg, s)
    ensures Potential(cfg, MoveTo(cfg, s, UpstreamMove(e))) + 1 <= Potential(cfg, s) + Budget(UpstreamMove(e))
  {
    if Outstanding(s.pool) > 0 {
      Livelock.UpcallObjects(s.proc, s.pool.received[|s.pool.consumed|].h, e);
    }
    hide Inv, Livelock.Objections, Apply;
  }

  lemma EmptyPassLowers(cfg: Config, s: System, year: int)
    requires cfg.Valid() && SysInv(cfg, s) && s.pool.processor.Working? && s.pool.work == []
    ensures Potential(cfg, MoveTo(cfg, s, ProcessorPass(year))) < Potential(cfg, s)
  {
    hide Inv, Livelock.Objections, Offer;
  }

  lemma PassLowers(cfg: Config, s: System, year: int)
    requires cfg.Valid() && SysInv(cfg, s) && s.pool.processor.Working? && s.pool.work != []
    requires AllPositive(s.pool.received)
    ensures Potential(cfg, MoveTo(cfg, s, ProcessorPass(year))) < Potential(cfg, s)
  {
    hide Offer, Livelock.Objections, Conserved, Aligned, Fifo, Load, AllUsable;
    FrontIsNext(cfg, s);
    assert Batched(cfg, s.pool);
    var t := MoveTo(cfg, s, ProcessorPass(year));
    FewObjections(t);
    var p := Front(cfg, s);
    hide Inv;
    if !Offer(s.proc, p, year).consumed {
      Livelock.HeldPassSettles(s.proc, p, year);
    }
  }

  /** A move of the component itself lowers the potential; one from outside raises it within its budget. */
  lemma MoveSpends(cfg: Config, s: System, m: Move)
    requires cfg.Valid() && SysInv(cfg, s) && CanMove(cfg, s, m) && AllPositive(s.pool.received)
    ensures Potential(cfg, MoveTo(cfg, s, m)) + 1 <= Potential(cfg, s) + Budget(m)
  {
    match m
    case PoolMove(step) =>
      if step.Receive? {
        ReceiveRaises(cfg, s, step);
      } else {
        PoolMoveLowers(cfg, s, step);
      }
    case ProcessorPass(year) =>
      if s.pool.work == [] {
        EmptyPassLowers(cfg, s, year);
      } else {
        PassLowers(cfg, s, year);
      }
    case UpstreamMove(e) => UpstreamRaises(cfg, s, e);
  }

  lemma {:induction false} RunSpends(cfg: Config, s: System, moves: seq<Move>)
    requires cfg.Valid() && SysInv(cfg, s) && CanRun(cfg, s, moves)
    requires AllPositive(RunTo(cfg, s, moves).pool.received)
    ensures |moves| + Potential(cfg, RunTo(cfg, s, moves)) <= Potential(cfg, s) + TotalBudget(moves)
    decreases |moves|
  {
    RunReceives(cfg, s, moves);
    hide SysInv, MoveTo, CanMove, Potential, Budget;
    assert AllPositive(s.pool.received);
    if moves != [] {
      MoveKeepsSysInv(cfg, s, moves[0]);
      MoveSpends(cfg, s, moves[0]);
      RunSpends(cfg, MoveTo(cfg, s, moves[0]), moves[1..]);
    }
  }

  function PacketsIn(moves: seq<Move>): nat {
    if moves == [] then 0
    else PacketsIn(moves[1..])
         + if moves[0].PoolMove? && moves[0].step.Receive? then |moves[0].step.pkts| else 0
  }

  function UpstreamIn(moves: seq<Move>): nat {
    if moves == [] then 0 else UpstreamIn(moves[1..]) + if moves[0].UpstreamMove? then 1 else 0
  }

  lemma {:induction false} BudgetBound(cfg: Config, s: System, moves: seq<Move>)
    requires cfg.Valid() && SysInv(cfg, s) && CanRun(cfg, s, moves)
    ensures TotalBudget(moves) <= 24 * PacketsIn(moves) + 5 * UpstreamIn(moves)
    decreases |moves|
  {
    if moves != [] {
      MoveKeepsSysInv(cfg, s, moves[0]);
      NonEmptyReceive(cfg, s, moves[0]);
      hide SysInv, MoveTo, CanMove;
      BudgetBound(cfg, MoveTo(cfg, s, moves[0]), moves[1..]);
    }
  }

  lemma NonEmptyReceive(cfg: Config, s: System, m: Move)
    requires CanMove(cfg, s, m)
    ensures m.PoolMove? && m.step.Receive? ==> |m.step.pkts| >= 1
  {
  }

  /**
    The component cannot spin: with positive header rates, every run from the start, however the
    threads interleave, has at most 24 moves for each packet received, 5 for each upstream SRI
    event, and 3 besides.
   */
  lemma RunsAreBounded(cfg: Config, blank: Packet, setup: Setup, moves: seq<Move>)
    requires cfg.Valid() && CanRun(cfg, Begin(cfg, blank, setup), moves)
    requires AllPositive(RunTo(cfg, Begin(cfg, blank, setup), moves).pool.received)
    ensures |moves| <= 3 + 24 * PacketsIn(moves) + 5 * UpstreamIn(moves)
  {
    var s := Begin(cfg, blank, setup);
    RunSpends(cfg, s, moves);
    BudgetBound(cfg, s, moves);
    hide RunTo, CanRun, TotalBudget, PacketsIn, UpstreamIn, SysInv;
  }

  /**
    And when it has nothing left to do, all is well: with enough buffers, a state in which only
    the outside world can move is one where the reader waits at the socket and fewer packets than
    one push are unconsumed, all of them in line for the processor.
   */
  lemma QuiescentMeansCaughtUp(cfg: Config, s: System)
    requires cfg.Valid() && cfg.c >= cfg.r + cfg.p - 1 && SysInv(cfg, s)
    requires forall m :: CanMove(cfg, s, m) ==> External(m)
    ensures s.pool.reader.Ready? && s.pool.recycle == []
    ensures |s.pool.received| - |s.pool.consumed| == |s.pool.work| + |s.pool.full| < cfg.p
  {
    OnlyWaiting(cfg, s);
    BlockedMeansFew(cfg, s);
  }

  /** The two threads wait: the processor for full buffers, and the reader at the socket or for empty ones. */
  lemma OnlyWaiting(cfg: Config, s: System)
    requires cfg.Valid() && SysInv(cfg, s)
    requires forall m :: CanMove(cfg, s, m) ==> External(m)
    ensures Deadlock.ProcessorBlocked(cfg, s.pool) && (s.pool.reader.Ready? || Deadlock.ReaderBlocked(cfg, s.pool))
  {
    hide Conserved, Fifo, Load, AllUsable;
    assert !CanMove(cfg, s, ProcessorPass(0));
    assert !CanMove(cfg, s, PoolMove(RecycleAll));
    assert !CanMove(cfg, s, PoolMove(Pop));
    assert !CanMove(cfg, s, PoolMove(Prime)) && !CanMove(cfg, s, PoolMove(Point));
    assert !CanMove(cfg, s, PoolMove(Push)) && !CanMove(cfg, s, PoolMove(Refill));
    assert !CanMove(cfg, s, PoolMove(Repoint));
  }

  lemma BlockedMeansFew(cfg: Config, s: System)
    requires cfg.Valid() && cfg.c >= cfg.r + cfg.p - 1 && SysInv(cfg, s)
    requires Deadlock.ProcessorBlocked(cfg, s.pool) && (s.pool.reader.Ready? || Deadlock.ReaderBlocked(cfg, s.pool))
    ensures s.pool.reader.Ready? && s.pool.recycle == []
    ensures |s.pool.received| - |s.pool.consumed| == |s.pool.work| + |s.pool.full| < cfg.p
  {
    hide Conserved, Aligned, Held, AllUsable;
    Deadlock.BlockedMeansFewOutstanding(cfg, s.pool);
    if Deadlock.Deadlocked(cfg, s.pool) {
      Deadlock.DeadlockNeedsFewBuffers(cfg, s.pool);
    }
    assert |Load(s.pool.mem, InTransit(s.pool))| == |s.pool.work| + |s.pool.full|;
  }
}
