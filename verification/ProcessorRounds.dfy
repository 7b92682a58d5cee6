/**
  The processor object's round as a run of the component: buffers are objects in the one and
  numbers in the other, and the same packets are in the same places before and after.
 */
module ProcessorRounds {

  import opened SddsPackets
  import opened SmartPacketBuffers
  import opened Processor
  import opened ProcessorObject
  import opened PoolProtocol
  import opened Streaming
  import opened Rounds

  /** The buffers that these numbers name. */
  ghost function Named(names: seq<SddsPacket>, bufs: seq<Buf>): (objects: seq<SddsPacket>)
    requires forall i :: 0 <= i < |bufs| ==> bufs[i] < |names|
    ensures |objects| == |bufs| && forall i :: 0 <= i < |bufs| ==> objects[i] == names[bufs[i]]
  {
    seq(|bufs|, i requires 0 <= i < |bufs| => names[bufs[i]])
  }

  ghost predicate AllNamed(names: seq<SddsPacket>, bufs: seq<Buf>) {
    forall i :: 0 <= i < |bufs| ==> bufs[i] < |names|
  }

  /** Do the queues and the memory hold what the protocol's state says? */
  ghost predicate Shows(names: seq<SddsPacket>, s: State, pool: SmartPacketBuffer<SddsPacket>,
                        work: Deque<SddsPacket>, recycle: Deque<SddsPacket>)
    reads pool, work, recycle, names, PayloadArrays(names)
  {
    && Separate(names)
    && AllNamed(names, s.empty) && AllNamed(names, s.full) && AllNamed(names, s.work) && AllNamed(names, s.recycle)
    && pool.empties == Named(names, s.empty) && pool.fulls == Named(names, s.full)
    && work.items == Named(names, s.work) && recycle.items == Named(names, s.recycle)
    && forall b :: b in s.mem ==> b < |names| && s.mem[b] == names[b].Contents()
  }

  /** Naming commutes with what the pool's operations do to queues. */
  lemma NamedParts(names: seq<SddsPacket>, a: seq<Buf>, b: seq<Buf>, n: nat)
    requires AllNamed(names, a) && AllNamed(names, b) && n <= |a|
    ensures AllNamed(names, a + b) && Named(names, a + b) == Named(names, a) + Named(names, b)
    ensures AllNamed(names, a[..n]) && Named(names, a[..n]) == Named(names, a)[..n]
    ensures AllNamed(names, a[n..]) && Named(names, a[n..]) == Named(names, a)[n..]
  {
  }

  lemma NamedTake(names: seq<SddsPacket>, full: seq<Buf>, que: seq<Buf>, len: nat)
    requires AllNamed(names, full) && AllNamed(names, que) && Request(que, len) <= |full|
    ensures var e, f := TakeFull(full, que, len), TakeFull(Named(names, full), Named(names, que), len);
            && AllNamed(names, e.pool) && AllNamed(names, e.que)
            && f.pool == Named(names, e.pool) && f.que == Named(names, e.que)
  {
    var n := Request(que, len);
    NamedParts(names, full, [], n);
    NamedParts(names, que, full[..n], 0);
  }

  /** A queue of different buffers, as objects: their payloads are apart and their contents are the memory's. */
  lemma NamedQueue(names: seq<SddsPacket>, mem: map<Buf, Packet>, que: seq<Buf>)
    requires Separate(names) && forall b :: b in mem ==> b < |names| && mem[b] == names[b].Contents()
    requires forall i :: 0 <= i < |que| ==> que[i] in mem
    requires forall i, j :: 0 <= i < j < |que| ==> que[i] != que[j]
    ensures AllNamed(names, que) && Separate(Named(names, que))
    ensures ContentsOf(Named(names, que)) == Load(mem, que)
    ensures forall b :: b in mem && b !in que ==> names[b].d !in PayloadArrays(Named(names, que))
  {
    hide SddsPacket.Contents;
    var objects := Named(names, que);
    forall i, j | 0 <= i < j < |objects|
      ensures objects[i].d != objects[j].d
    {
      ApartInNames(names, que[i], que[j]);
    }
    forall b | b in mem && b !in que
      ensures names[b].d !in PayloadArrays(objects)
    {
      forall i | 0 <= i < |objects|
        ensures objects[i].d != names[b].d
      {
        ApartInNames(names, que[i], b);
      }
    }
    hide Separate;
    assert ContentsOf(objects) == Load(mem, que);
  }

  /** Payload memory is not a buffer itself. */
  lemma PayloadsAreNotBuffers(bufs: seq<SddsPacket>, b: SddsPacket)
    ensures b !in PayloadArrays(bufs)
  {
  }

  lemma ApartInNames(names: seq<SddsPacket>, a: Buf, b: Buf)
    requires Separate(names) && a < |names| && b < |names| && a != b
    ensures names[a].d != names[b].d
  {
  }

  /** The numbers of the buffers a round works on. */
  ghost function BatchOf(cfg: Config, s: State): seq<Buf> {
    if Enabled(cfg, s, Pop) then TakeFull(s.full, s.work, cfg.p).que else []
  }

  /** The object and the protocol fill the work queue with the same buffers, or both wait. */
  lemma FillShown(p: SddsToBulkIOProcessor, cfg: Config, s: State, names: seq<SddsPacket>,
                  pool: SmartPacketBuffer<SddsPacket>, work: Deque<SddsPacket>, recycle: Deque<SddsPacket>)
    requires cfg.p == p.pktsPerRead && s.processor.Popping? && !pool.shuttingDown
    requires Shows(names, s, pool, work, recycle)
    ensures Enabled(cfg, s, Pop) <==> pool.FullAvailable(Request(work.items, p.pktsPerRead))
    ensures AllNamed(names, BatchOf(cfg, s)) && p.Batch(pool, work) == Named(names, BatchOf(cfg, s))
    ensures !Enabled(cfg, s, Pop) ==> BatchOf(cfg, s) == []
    ensures Enabled(cfg, s, Pop) ==>
              && |BatchOf(cfg, s)| == (if |work.items| < cfg.p then cfg.p else |work.items|)
              && AllNamed(names, TakeFull(s.full, s.work, cfg.p).pool)
              && p.Fill(pool, work) ==
                 Exchange(Named(names, TakeFull(s.full, s.work, cfg.p).pool), Named(names, BatchOf(cfg, s)))
  {
    hide Separate, PayloadArrays;
    if Enabled(cfg, s, Pop) {
      NamedTake(names, s.full, s.work, cfg.p);
    }
  }

  /** The queues after a round. */
  lemma QueuesShown(cfg: Config, names: seq<SddsPacket>, s: System, t: System, r: Processed)
    requires Enabled(cfg, s.pool, Pop) && Rounded(cfg, s, t, r)
    requires AllNamed(names, s.pool.empty) && AllNamed(names, s.pool.recycle)
    requires AllNamed(names, BatchOf(cfg, s.pool)) && AllNamed(names, TakeFull(s.pool.full, s.pool.work, cfg.p).pool)
    ensures var que, n := BatchOf(cfg, s.pool), |r.ds|;
            && n <= |que| && t.pool.full == TakeFull(s.pool.full, s.pool.work, cfg.p).pool
            && AllNamed(names, t.pool.empty) && AllNamed(names, t.pool.work) && AllNamed(names, t.pool.recycle)
            && Named(names, t.pool.empty) ==
               Named(names, s.pool.empty) + (Named(names, s.pool.recycle) + Named(names, que)[..n])
            && Named(names, t.pool.work) == Named(names, que)[n..] && Named(names, t.pool.recycle) == []
  {
    hide TakeFull, Rewritten, Load;
    var que, n := BatchOf(cfg, s.pool), |r.ds|;
    NamedParts(names, que, [], n);
    NamedParts(names, s.pool.recycle, que[..n], 0);
    NamedParts(names, s.pool.empty, s.pool.recycle + que[..n], 0);
  }

  /** The memory after a round: the batch rewritten, the rest as it was. */
  lemma MemoryShown(cfg: Config, names: seq<SddsPacket>, s: System, t: System, r: Processed)
    requires Enabled(cfg, s.pool, Pop) && Rounded(cfg, s, t, r)
    requires forall b :: b in s.pool.mem ==> b < |names|
    requires var que := BatchOf(cfg, s.pool);
             && AllNamed(names, que)
             && ContentsOf(Named(names, que)) == Rewritten(Load(s.pool.mem, que), r.ds)
             && forall b :: b in s.pool.mem && b !in que ==> s.pool.mem[b] == names[b].Contents()
    ensures forall b :: b in t.pool.mem ==> b < |names| && t.pool.mem[b] == names[b].Contents()
  {
    hide SddsPacket.Contents, TakeFull, Rewritten, Load;
    var que := BatchOf(cfg, s.pool);
    forall b | b in t.pool.mem
      ensures b < |names| && t.pool.mem[b] == names[b].Contents()
    {
      assert b in s.pool.mem.Keys;
      if b in que {
        var i :| 0 <= i < |que| && que[i] == b;
        assert ContentsOf(Named(names, que))[i] == names[b].Contents();
      }
    }
  }

  /** The round of the component that the processor's passes over its batch make. */
  lemma RoundRuns(cfg: Config, s: System, years: seq<int>) returns (t: System, r: Processed)
    requires cfg.Valid() && SysInv(cfg, s) && Enabled(cfg, s.pool, Pop) && |years| == |BatchOf(cfg, s.pool)|
    ensures var que := BatchOf(cfg, s.pool);
            && (forall i :: 0 <= i < |que| ==> que[i] in s.pool.mem)
            && (forall i, j :: 0 <= i < j < |que| ==> que[i] != que[j])
            && AllUsable(Load(s.pool.mem, que))
            && r == Process(s.proc, Load(s.pool.mem, que), years)
    ensures exists n: nat ::
              && n <= |years| && CanRun(cfg, s, RoundMoves(years, n)) && t == RunTo(cfg, s, RoundMoves(years, n))
    ensures Rounded(cfg, s, t, r) && t.proc == r.s
  {
    hide Inv, Process, CanRun, RunTo, Rewritten, RoundMoves, TakeFull, AllUsable;
    RoundIsRun(cfg, s, years);
    r := Process(s.proc, Load(s.pool.mem, BatchOf(cfg, s.pool)), years);
    t := RunTo(cfg, s, RoundMoves(years, |r.ds|));
  }

  /** `run`'s loop body is a round of the component. */
  method Round(p: SddsToBulkIOProcessor, ghost cfg: Config, ghost s: System, ghost names: seq<SddsPacket>,
               pool: SmartPacketBuffer<SddsPacket>, work: Deque<SddsPacket>, recycle: Deque<SddsPacket>,
               years: seq<int>)
    returns (blocks: bool, ghost t: System)
    requires cfg.Valid() && cfg.p == p.pktsPerRead && SysInv(cfg, s) && s.pool.processor.Popping?
    requires Shows(names, s.pool, pool, work, recycle) && p.State() == s.proc
    requires work != recycle && !pool.shuttingDown
    requires |years| == if |work.items| < p.pktsPerRead then p.pktsPerRead else |work.items|
    modifies p, pool, work, recycle, PayloadArrays(p.Batch(pool, work))
    ensures blocks <==> !Enabled(cfg, s.pool, Pop)
    ensures blocks ==> t == s
    ensures !blocks ==>
              exists n: nat ::
                && n <= |years| && CanRun(cfg, s, RoundMoves(years, n))
                && t == RunTo(cfg, s, RoundMoves(years, n))
    ensures Shows(names, t.pool, pool, work, recycle) && p.State() == t.proc
  {
    hide Inv, Process, CanRun, RunTo, Rewritten, Usable, SddsPacket.Contents, SddsToBulkIOProcessor.State, RoundMoves;
    hide Separate, PayloadArrays, AllUsable, SddsPacket.GetHeader, Load;
    hide TakeFull, Request, BatchOf, Enabled, Named, SddsToBulkIOProcessor.Batch, SddsToBulkIOProcessor.Fill;
    t := s;
    ghost var q;
    ghost var que := BatchOf(cfg, s.pool);
    FillShown(p, cfg, s.pool, names, pool, work, recycle);
    if Enabled(cfg, s.pool, Pop) {
      t, q := RoundRuns(cfg, s, years);
    }
    NamedQueue(names, s.pool.mem, que);
    ghost var r;
    blocks, r := p.RunPass(pool, work, recycle, years);
    forall b | b in s.pool.mem && b !in que
      ensures s.pool.mem[b] == names[b].Contents()
    {
      PayloadsAreNotBuffers(Named(names, que), names[b]);
      assert names[b].Contents() == old(names[b].Contents());
    }
    if !blocks {
      QueuesShown(cfg, names, s, t, r);
      MemoryShown(cfg, names, s, t, r);
    }
  }
}
