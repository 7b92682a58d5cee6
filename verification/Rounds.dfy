/**
  A round of the processor's loop as a run of the whole component: it fills its work queue, passes
  over it and recycles what it consumed.
 */
module Rounds {

  import opened ByteOrder
  import opened SddsPackets
  import opened SlipDetector
  import opened Processor
  import opened SmartPacketBuffers
  import opened PoolProtocol
  import opened Streaming

  /** The passes over a queue of m packets of which n are consumed, the last one giving up the queue. */
  function PassMoves(years: seq<int>, n: nat): seq<Move>
    requires n <= |years|
  {
    if n == 0 then [ProcessorPass(if years == [] then 0 else years[0])]
    else [ProcessorPass(years[0])] + PassMoves(years[1..], n - 1)
  }

  /** The memory after the passes over a queue: its buffers rewritten as far as consumed, the others as they were. */
  ghost predicate RewrittenIn(
      w: seq<Buf>, ps: seq<Packet>, ds: seq<seq<byte>>, before: map<Buf, Packet>, after: map<Buf, Packet>)
    requires |ds| <= |ps| == |w|
  {
    && after.Keys == before.Keys
    && (forall i :: 0 <= i < |w| ==> w[i] in after && after[w[i]] == Rewritten(ps, ds)[i])
    && (forall b :: b in before && b !in w ==> after[b] == before[b])
  }

  /** What the passes over a work queue leave: the consumed buffers in the recycle queue, rewritten. */
  ghost predicate Worked(s: System, t: System, ps: seq<Packet>, r: Processed)
    requires |r.ds| <= |ps| == |s.pool.work|
  {
    var w, n := s.pool.work, |r.ds|;
    && t.proc == r.s
    && t.pool == s.pool.(work := w[n..], recycle := s.pool.recycle + w[..n], processor := Recycling,
                         consumed := s.pool.consumed + ps[..n], mem := t.pool.mem)
    && RewrittenIn(w, ps, r.ds, s.pool.mem, t.pool.mem)
  }

  /** The work queue's packets can be processed, and no buffer is in it twice. */
  lemma WorkUsable(cfg: Config, s: System)
    requires SysInv(cfg, s)
    ensures var w := s.pool.work;
            && (forall i :: 0 <= i < |w| ==> w[i] in s.pool.mem)
            && AllUsable(Load(s.pool.mem, w))
            && (forall i, j :: 0 <= i < j < |w| ==> w[i] != w[j])
  {
    DistinctQueue(cfg, s.pool);
    var w, q := s.pool.work, InTransit(s.pool);
    forall i | 0 <= i < |w|
      ensures Usable(s.pool.mem[w[i]])
    {
      assert q[i] == w[i] && Load(s.pool.mem, q)[i] == s.pool.mem[w[i]];
      assert (s.pool.consumed + Load(s.pool.mem, q))[|s.pool.consumed| + i] == s.pool.mem[w[i]];
    }
  }

  /** A pass that consumes the front packet. */
  lemma ConsumingMove(cfg: Config, s: System, year: int)
    requires SysInv(cfg, s) && s.pool.processor.Working? && s.pool.work != []
    requires Offer(s.proc, Front(cfg, s), year).consumed
    ensures var p, w := Front(cfg, s), s.pool.work;
            var o := Offer(s.proc, p, year);
            && w[0] in s.pool.mem && p == s.pool.mem[w[0]]
            && CanMove(cfg, s, ProcessorPass(year))
            && MoveTo(cfg, s, ProcessorPass(year)) ==
               System(s.pool.(consumed := s.pool.consumed + [p], mem := s.pool.mem[w[0] := p.(d := o.d)],
                              work := w[1..], recycle := s.pool.recycle + [w[0]]), o.s)
  {
    hide Offer, Inv;
    FrontIsNext(cfg, s);
    PassEnabled(cfg, s, year);
  }

  /** A pass with no packet, or with one that is held back, gives up the queue. */
  lemma LeavingMove(cfg: Config, s: System, year: int)
    requires SysInv(cfg, s) && s.pool.processor.Working?
    requires s.pool.work != [] ==> !Offer(s.proc, Front(cfg, s), year).consumed
    ensures CanMove(cfg, s, ProcessorPass(year))
    ensures MoveTo(cfg, s, ProcessorPass(year)) ==
            System(s.pool.(processor := Recycling),
                   if s.pool.work == [] then s.proc else Offer(s.proc, Front(cfg, s), year).s)
  {
    hide Offer, Inv;
    PassEnabled(cfg, s, year);
  }

  lemma {:induction false} WorkIsRun(cfg: Config, s: System, ps: seq<Packet>, years: seq<int>)
    requires cfg.Valid() && SysInv(cfg, s) && s.pool.processor.Working?
    requires |years| == |s.pool.work| == |ps| && AllUsable(ps)
    requires forall i :: 0 <= i < |ps| ==> s.pool.work[i] in s.pool.mem && s.pool.mem[s.pool.work[i]] == ps[i]
    ensures var r := Process(s.proc, ps, years);
            var moves := PassMoves(years, |r.ds|);
            CanRun(cfg, s, moves) && Worked(s, RunTo(cfg, s, moves), ps, r)
    decreases |ps|, 1
  {
    hide Offer, Inv, MoveTo, CanMove, CanRun, RunTo, Worked, Process;
    ProcessBegins(s.proc, ps, years);
    var r := Process(s.proc, ps, years);
    if r.ds == [] {
      var year := if years == [] then 0 else years[0];
      FrontIs(cfg, s, ps);
      LeavingMove(cfg, s, year);
      OneMove(cfg, s, ProcessorPass(year));
      WorkedNone(s, MoveTo(cfg, s, ProcessorPass(year)), ps, r);
    } else {
      WorkGoesOn(cfg, s, ps, years);
    }
  }

  lemma FrontIs(cfg: Config, s: System, ps: seq<Packet>)
    requires SysInv(cfg, s) && |s.pool.work| == |ps|
    requires forall i :: 0 <= i < |ps| ==> s.pool.work[i] in s.pool.mem && s.pool.mem[s.pool.work[i]] == ps[i]
    ensures ps != [] ==> Front(cfg, s) == ps[0]
  {
  }

  /** Whether a call consumes anything is decided by its first pass. */
  lemma ProcessBegins(p: Proc, ps: seq<Packet>, years: seq<int>)
    requires UsableBps(p.trk.bps) && AllUsable(ps) && |ps| == |years|
    ensures var r := Process(p, ps, years);
            if ps == [] then r == Processed(p, [])
            else
              var o := Offer(p, ps[0], years[0]);
              if !o.consumed then r == Processed(o.s, [])
              else
                var rest := Process(o.s, ps[1..], years[1..]);
                r == Processed(rest.s, [o.d] + rest.ds)
  {
    hide Offer;
  }

  lemma WorkedNone(s: System, t: System, ps: seq<Packet>, r: Processed)
    requires r.ds == [] && |ps| == |s.pool.work| && t == System(s.pool.(processor := Recycling), r.s)
    requires forall i :: 0 <= i < |ps| ==> s.pool.work[i] in s.pool.mem && s.pool.mem[s.pool.work[i]] == ps[i]
    ensures Worked(s, t, ps, r)
  {
    assert s.pool.work[0..] == s.pool.work && s.pool.recycle + s.pool.work[..0] == s.pool.recycle;
    assert s.pool.consumed + ps[..0] == s.pool.consumed;
  }

  lemma {:induction false} WorkGoesOn(cfg: Config, s: System, ps: seq<Packet>, years: seq<int>)
    requires cfg.Valid() && SysInv(cfg, s) && s.pool.processor.Working?
    requires |years| == |s.pool.work| == |ps| && AllUsable(ps)
    requires forall i :: 0 <= i < |ps| ==> s.pool.work[i] in s.pool.mem && s.pool.mem[s.pool.work[i]] == ps[i]
    requires Process(s.proc, ps, years).ds != []
    ensures var r := Process(s.proc, ps, years);
            var moves := PassMoves(years, |r.ds|);
            CanRun(cfg, s, moves) && Worked(s, RunTo(cfg, s, moves), ps, r)
    decreases |ps|, 0
  {
    hide Offer, Inv, MoveTo, CanMove, CanRun, RunTo, Worked, Process;
    var w := s.pool.work;
    ProcessBegins(s.proc, ps, years);
    FrontIs(cfg, s, ps);
    ConsumingMove(cfg, s, years[0]);
    MoveKeepsSysInv(cfg, s, ProcessorPass(years[0]));
    WorkUsable(cfg, s);
    var t := MoveTo(cfg, s, ProcessorPass(years[0]));
    assert forall i :: 0 <= i < |ps| - 1 ==> w[1..][i] == w[i + 1] && w[i + 1] != w[0];
    WorkIsRun(cfg, t, ps[1..], years[1..]);
    var r, rest := Process(s.proc, ps, years), Process(t.proc, ps[1..], years[1..]);
    var moves := PassMoves(years[1..], |rest.ds|);
    WorkedOneMore(s, t, RunTo(cfg, t, moves), ps, r, rest);
    MovePrepended(cfg, s, ProcessorPass(years[0]), moves);
  }

  lemma OneMove(cfg: Config, s: System, m: Move)
    requires cfg.Valid() && SysInv(cfg, s) && CanMove(cfg, s, m)
    ensures CanRun(cfg, s, [m]) && RunTo(cfg, s, [m]) == MoveTo(cfg, s, m)
  {
    hide SysInv, MoveTo, CanMove;
    MoveKeepsSysInv(cfg, s, m);
    assert [m][1..] == [];
  }

  lemma MovePrepended(cfg: Config, s: System, m: Move, rest: seq<Move>)
    requires cfg.Valid() && SysInv(cfg, s) && CanMove(cfg, s, m)
    requires SysInv(cfg, MoveTo(cfg, s, m)) && CanRun(cfg, MoveTo(cfg, s, m), rest)
    ensures CanRun(cfg, s, [m] + rest) && RunTo(cfg, s, [m] + rest) == RunTo(cfg, MoveTo(cfg, s, m), rest)
  {
    hide SysInv, MoveTo, CanMove;
    assert ([m] + rest)[1..] == rest;
  }

  /** One consumed packet, and then the rest of the queue. */
  lemma WorkedOneMore(s: System, t: System, u: System, ps: seq<Packet>, r: Processed, rest: Processed)
    requires |ps| == |s.pool.work| > 0 && 0 < |r.ds| <= |ps|
    requires var w := s.pool.work;
             && (forall i, j :: 0 <= i < j < |w| ==> w[i] != w[j])
             && w[0] in s.pool.mem
             && t.pool == s.pool.(consumed := s.pool.consumed + [ps[0]],
                                  mem := s.pool.mem[w[0] := ps[0].(d := r.ds[0])],
                                  work := w[1..], recycle := s.pool.recycle + [w[0]])
    requires r == Processed(rest.s, [r.ds[0]] + rest.ds)
    requires Worked(t, u, ps[1..], rest)
    ensures Worked(s, u, ps, r)
  {
    var w, n := s.pool.work, |rest.ds|;
    hide RewrittenIn;
    QueuesOneMore(w, s.pool.recycle, n);
    ConsumedOneMore(s.pool.consumed, ps, n);
    MemoryOneMore(w, ps, r.ds, s.pool.mem, t.pool.mem, u.pool.mem);
  }

  lemma ConsumedOneMore(consumed: seq<Packet>, ps: seq<Packet>, n: nat)
    requires n < |ps|
    ensures consumed + [ps[0]] + ps[1..][..n] == consumed + ps[..n + 1]
  {
  }

  lemma QueuesOneMore(w: seq<Buf>, recycle: seq<Buf>, n: nat)
    requires n < |w|
    ensures w[1..][n..] == w[n + 1..]
    ensures recycle + [w[0]] + w[1..][..n] == recycle + w[..n + 1]
  {
  }

  lemma MemoryOneMore(
      w: seq<Buf>, ps: seq<Packet>, ds: seq<seq<byte>>,
      before: map<Buf, Packet>, mid: map<Buf, Packet>, after: map<Buf, Packet>)
    requires |ps| == |w| > 0 && 0 < |ds| <= |ps| && forall i, j :: 0 <= i < j < |w| ==> w[i] != w[j]
    requires w[0] in before && mid == before[w[0] := ps[0].(d := ds[0])]
    requires RewrittenIn(w[1..], ps[1..], ds[1..], mid, after)
    ensures RewrittenIn(w, ps, ds, before, after)
  {
    assert after.Keys == before.Keys;
    forall i | 0 <= i < |w|
      ensures w[i] in after && after[w[i]] == Rewritten(ps, ds)[i]
    {
      if i > 0 {
        assert w[i] == w[1..][i - 1];
      } else {
        assert w[0] in mid.Keys && w[0] !in w[1..];
      }
    }
    forall b | b in before && b !in w
      ensures after[b] == before[b]
    {
      assert b in mid && b !in w[1..] && b != w[0];
    }
  }

  // ---- The whole round --------------------------------------------------------------------------

  lemma {:induction false} RunConcat(cfg: Config, s: System, a: seq<Move>, b: seq<Move>)
    requires cfg.Valid() && SysInv(cfg, s) && CanRun(cfg, s, a) && CanRun(cfg, RunTo(cfg, s, a), b)
    ensures CanRun(cfg, s, a + b) && RunTo(cfg, s, a + b) == RunTo(cfg, RunTo(cfg, s, a), b)
    decreases |a|
  {
    hide SysInv, MoveTo, CanMove;
    if a == [] {
      assert a + b == b;
    } else {
      MoveKeepsSysInv(cfg, s, a[0]);
      RunConcat(cfg, MoveTo(cfg, s, a[0]), a[1..], b);
      assert a + b == [a[0]] + (a[1..] + b);
      MovePrepended(cfg, s, a[0], a[1..] + b);
    }
  }

  function RoundMoves(years: seq<int>, n: nat): seq<Move>
    requires n <= |years|
  {
    [PoolMove(Pop)] + PassMoves(years, n) + [PoolMove(RecycleAll)]
  }

  /** What a round leaves, in the terms of the pool's methods and of `processPackets`. */
  ghost predicate Rounded(cfg: Config, s: System, t: System, r: Processed)
    requires Request(s.pool.work, cfg.p) <= |s.pool.full|
  {
    var taken, n := TakeFull(s.pool.full, s.pool.work, cfg.p), |r.ds|;
    && n <= |taken.que|
    && t.proc == r.s
    && t.pool.full == taken.pool && t.pool.work == taken.que[n..] && t.pool.recycle == []
    && t.pool.empty == s.pool.empty + (s.pool.recycle + taken.que[..n])
    && t.pool.processor == Popping
    && t.pool == s.pool.(full := t.pool.full, work := t.pool.work, recycle := [], empty := t.pool.empty,
                         consumed := t.pool.consumed, mem := t.pool.mem)
    && t.pool.mem.Keys == s.pool.mem.Keys
    && (forall i :: 0 <= i < |taken.que| ==> taken.que[i] in s.pool.mem)
    && (forall i :: 0 <= i < |taken.que| ==>
          t.pool.mem[taken.que[i]] == Rewritten(Load(s.pool.mem, taken.que), r.ds)[i])
    && (forall b :: b in s.pool.mem && b !in taken.que ==> t.pool.mem[b] == s.pool.mem[b])
  }

  /** A round of the loop is a run of the component: the fill, the passes, and the recycling. */
  lemma RoundIsRun(cfg: Config, s: System, years: seq<int>)
    requires cfg.Valid() && SysInv(cfg, s) && s.pool.processor.Popping?
    requires Request(s.pool.work, cfg.p) <= |s.pool.full|
    requires |years| == |TakeFull(s.pool.full, s.pool.work, cfg.p).que|
    ensures var que := TakeFull(s.pool.full, s.pool.work, cfg.p).que;
            && (forall i :: 0 <= i < |que| ==> que[i] in s.pool.mem)
            && (forall i, j :: 0 <= i < j < |que| ==> que[i] != que[j])
            && AllUsable(Load(s.pool.mem, que))
            && var r := Process(s.proc, Load(s.pool.mem, que), years);
               && CanRun(cfg, s, RoundMoves(years, |r.ds|))
               && Rounded(cfg, s, RunTo(cfg, s, RoundMoves(years, |r.ds|)), r)
  {
    hide Inv, Process, CanRun, RunTo, Rewritten;
    var pop := PoolMove(Pop);
    MoveKeepsSysInv(cfg, s, pop);
    var t := MoveTo(cfg, s, pop);
    WorkUsable(cfg, t);
    var que := t.pool.work;
    var ps := Load(s.pool.mem, que);
    WorkIsRun(cfg, t, ps, years);
    var r := Process(s.proc, ps, years);
    var u := RunTo(cfg, t, PassMoves(years, |r.ds|));
    var last := PoolMove(RecycleAll);
    OneMove(cfg, u, last);
    RunConcat(cfg, t, PassMoves(years, |r.ds|), [last]);
    MovePrepended(cfg, s, pop, PassMoves(years, |r.ds|) + [last]);
    assert RoundMoves(years, |r.ds|) == [pop] + (PassMoves(years, |r.ds|) + [last]);
  }
}
