/**
  When the two threads can block each other for good: the reader waiting for empty buffers while
  the processor waits for full ones.
 */
module Deadlock {

  import opened SddsPackets
  import opened SddsTimes
  import opened SmartPacketBuffers
  import opened PoolProtocol

  predicate ReaderBlocked(cfg: Config, s: State) {
    (s.reader.Priming? || s.reader.Refilling?) && Request(s.bufQue, cfg.r) > |s.empty|
  }

  predicate ProcessorBlocked(cfg: Config, s: State) {
    s.processor.Popping? && Request(s.work, cfg.p) > |s.full|
  }

  predicate Deadlocked(cfg: Config, s: State) {
    ReaderBlocked(cfg, s) && ProcessorBlocked(cfg, s)
  }

  /** A state is deadlocked exactly when no step at all can be taken from it. */
  lemma DeadlockedIffStuck(cfg: Config, s: State)
    requires cfg.Valid() && Inv(cfg, s)
    ensures Deadlocked(cfg, s) <==> forall step :: !Enabled(cfg, s, step)
  {
    if !Deadlocked(cfg, s) {
      var blank := Packet(Header(0, false, ZERO, 0, false, false, 0), []);
      var step :=
        if s.processor.Working? then Leave
        else if s.processor.Recycling? then RecycleAll
        else if !ProcessorBlocked(cfg, s) then Pop
        else match s.reader
          case Priming => Prime
          case Pointing => Point
          case Ready => Receive([blank])
          case Received(n) => Push
          case Refilling(n) => Refill
          case Repointing(n) => Repoint;
      assert Enabled(cfg, s, step);
    }
  }

  lemma AllCounted(cfg: Config, s: State)
    requires Inv(cfg, s)
    ensures |s.empty| + |s.bufQue| + |s.full| + |s.work| + |s.recycle| == cfg.c
  {
    Exclusive(cfg, s);
  }

  /** While the processor is blocked, fewer packets than one push are waiting for it. */
  lemma BlockedMeansFewOutstanding(cfg: Config, s: State)
    requires cfg.Valid() && Inv(cfg, s) && ProcessorBlocked(cfg, s)
    ensures |s.work| + |s.full| < cfg.p && s.recycle == []
    ensures !s.reader.Received? ==> |s.received| - |s.consumed| < cfg.p
  {
    assert |Load(s.mem, InTransit(s))| == |InTransit(s)|;
  }

  lemma DeadlockNeedsFewBuffers(cfg: Config, s: State)
    requires cfg.Valid() && Inv(cfg, s) && Deadlocked(cfg, s)
    ensures cfg.c < cfg.r + cfg.p - 1
  {
    AllCounted(cfg, s);
    BlockedMeansFewOutstanding(cfg, s);
  }

  /** One packet at a time moves from the socket to the full queue while the processor sleeps. */
  function Drip(n: nat, x: Packet): (steps: seq<Step>)
    decreases n
  {
    if n == 0 then [Receive([x]), Push] else [Receive([x]), Push, Refill, Repoint] + Drip(n - 1, x)
  }

  /** The reader is at the socket, the processor asleep, and n buffers are still empty. */
  predicate Draining(cfg: Config, s: State, n: nat) {
    && s.reader.Ready? && s.processor.Popping? && s.work == []
    && |s.bufQue| == |s.iovecs| == cfg.r && |s.empty| == n
    && |s.full| + n + 1 < cfg.p
  }

  lemma {:induction false} DripDeadlocks(cfg: Config, s: State, n: nat, x: Packet)
    requires cfg.Valid() && Draining(cfg, s, n)
    ensures Valid(cfg, s, Drip(n, x))
    ensures Deadlocked(cfg, After(cfg, s, Drip(n, x)))
    decreases n
  {
    var s1 := Do(cfg, s, Receive([x]));
    var s2 := Do(cfg, s1, Push);
    if n == 0 {
      hide Do, Enabled, After, Valid;
      TwoSteps(cfg, s, Receive([x]), Push);
    } else {
      var s3 := Do(cfg, s2, Refill);
      var s4 := Do(cfg, s3, Repoint);
      DripDeadlocks(cfg, s4, n - 1, x);
      hide Do, Enabled, After, Valid, Deadlocked;
      FourSteps(cfg, s, Receive([x]), Push, Refill, Repoint, Drip(n - 1, x));
    }
  }

  lemma FourSteps(cfg: Config, s: State, a: Step, b: Step, c: Step, d: Step, rest: seq<Step>)
    requires Enabled(cfg, s, a)
    requires Enabled(cfg, Do(cfg, s, a), b)
    requires Enabled(cfg, Do(cfg, Do(cfg, s, a), b), c)
    requires Enabled(cfg, Do(cfg, Do(cfg, Do(cfg, s, a), b), c), d)
    requires Valid(cfg, Do(cfg, Do(cfg, Do(cfg, Do(cfg, s, a), b), c), d), rest)
    ensures Valid(cfg, s, [a, b, c, d] + rest)
    ensures After(cfg, s, [a, b, c, d] + rest) == After(cfg, Do(cfg, Do(cfg, Do(cfg, Do(cfg, s, a), b), c), d), rest)
  {
    hide Do, Enabled, After, Valid;
    var s1 := Do(cfg, s, a);
    var s2 := Do(cfg, s1, b);
    Prepend(cfg, Do(cfg, s2, c), d, rest);
    Prepend(cfg, s2, c, [d] + rest);
    assert [c] + ([d] + rest) == [c, d] + rest;
    Prepend(cfg, s1, b, [c, d] + rest);
    assert [b] + ([c, d] + rest) == [b, c, d] + rest;
    Prepend(cfg, s, a, [b, c, d] + rest);
    assert [a] + ([b, c, d] + rest) == [a, b, c, d] + rest;
  }

  lemma Prepend(cfg: Config, s: State, step: Step, rest: seq<Step>)
    requires Enabled(cfg, s, step) && Valid(cfg, Do(cfg, s, step), rest)
    ensures Valid(cfg, s, [step] + rest)
    ensures After(cfg, s, [step] + rest) == After(cfg, Do(cfg, s, step), rest)
  {
    hide Do, Enabled;
    assert ([step] + rest)[1..] == rest;
  }

  lemma TwoSteps(cfg: Config, s: State, a: Step, b: Step)
    requires Enabled(cfg, s, a) && Enabled(cfg, Do(cfg, s, a), b)
    ensures Valid(cfg, s, [a, b]) && After(cfg, s, [a, b]) == Do(cfg, Do(cfg, s, a), b)
  {
    hide Do, Enabled;
    assert [a, b] == [a] + [b] && [b] == [b] + [];
    Prepend(cfg, Do(cfg, s, a), b, []);
    Prepend(cfg, s, a, [b]);
  }

  /** The run that blocks both threads when the pool is too small. */
  function BlockingRun(cfg: Config, x: Packet): seq<Step> {
    if cfg.c < cfg.r then [] else [Prime, Point] + Drip(cfg.c - cfg.r, x)
  }

  lemma TooFewBuffersDeadlock(cfg: Config, blank: Packet, x: Packet)
    requires cfg.Valid() && cfg.c < cfg.r + cfg.p - 1
    ensures Valid(cfg, Start(cfg, blank), BlockingRun(cfg, x))
    ensures Deadlocked(cfg, After(cfg, Start(cfg, blank), BlockingRun(cfg, x)))
  {
    if cfg.c >= cfg.r {
      var s := Start(cfg, blank);
      var s1 := Do(cfg, s, Prime);
      var s2 := Do(cfg, s1, Point);
      var rest := Drip(cfg.c - cfg.r, x);
      DripDeadlocks(cfg, s2, cfg.c - cfg.r, x);
      hide Do, Enabled, Start;
      Prepend(cfg, s1, Point, rest);
      Prepend(cfg, s, Prime, [Point] + rest);
      assert [Prime] + ([Point] + rest) == BlockingRun(cfg, x);
    }
  }

  ghost predicate DeadlockReachable(cfg: Config, blank: Packet) {
    exists steps: seq<Step> ::
      Valid(cfg, Start(cfg, blank), steps) && Deadlocked(cfg, After(cfg, Start(cfg, blank), steps))
  }

  /**
    The exact bound: the threads can deadlock if and only if the pool holds fewer than
    (packets per read) + (packets per push) - 1 buffers.
   */
  lemma DeadlockIff(cfg: Config, blank: Packet)
    requires cfg.Valid()
    ensures DeadlockReachable(cfg, blank) <==> cfg.c < cfg.r + cfg.p - 1
  {
    if cfg.c < cfg.r + cfg.p - 1 {
      TooFewBuffersDeadlock(cfg, blank, blank);
      assert Deadlocked(cfg, After(cfg, Start(cfg, blank), BlockingRun(cfg, blank)));
    }
    hide Deadlocked, After, Valid, Start;
    forall steps | Valid(cfg, Start(cfg, blank), steps) && Deadlocked(cfg, After(cfg, Start(cfg, blank), steps))
      ensures cfg.c < cfg.r + cfg.p - 1
    {
      StartInv(cfg, blank);
      RunKeepsInv(cfg, Start(cfg, blank), steps);
      DeadlockNeedsFewBuffers(cfg, After(cfg, Start(cfg, blank), steps));
    }
  }
}
