/**
  The zero-copy protocol between the socket reader and the processor, as a transition system.
  Each locked section of the pool and each stretch of thread-local work is one step, and the two
  threads' steps interleave freely. The kernel writes packets through the reader's raw pointers.
 */
module PoolProtocol {

  import ByteOrder
  import opened SddsPackets
  import opened SmartPacketBuffers

  type Buf = nat

  /** Packets per socket read, packets per push, and buffers in the pool. */
  datatype Config = Config(r: nat, p: nat, c: nat) {
    predicate Valid() {
      r >= 1 && p >= 1
    }
  }

  /** Where the reader is in its loop; n is the number of packets of the current read. */
  datatype ReaderAt = Priming | Pointing | Ready | Received(n: nat) | Refilling(n: nat) | Repointing(n: nat)

  /** Where the processor is in its loop. */
  datatype ProcessorAt = Popping | Working | Recycling

  datatype State = State(
    empty: seq<Buf>, full: seq<Buf>,
    bufQue: seq<Buf>, iovecs: seq<Buf>, reader: ReaderAt,
    work: seq<Buf>, recycle: seq<Buf>, processor: ProcessorAt,
    mem: map<Buf, Packet>, received: seq<Packet>, consumed: seq<Packet>)

  /** Reader steps, the kernel's write among them, and processor steps. */
  datatype Step =
    | Prime | Point | Receive(pkts: seq<Packet>) | Push | Refill | Repoint
    | Pop | Consume(d: seq<ByteOrder.byte>) | Leave | RecycleAll

  function AllBufs(c: nat): (s: seq<Buf>)
    ensures |s| == c && forall i :: 0 <= i < c ==> s[i] == i
  {
    seq(c, i requires 0 <= i < c => i)
  }

  function Start(cfg: Config, blank: Packet): State {
    State(AllBufs(cfg.c), [], [], [], Priming, [], [], Popping,
          map b | b in AllBufs(cfg.c) :: blank, [], [])
  }

  /** The kernel's write: packet i goes wherever pointer i points. */
  function WriteThrough(mem: map<Buf, Packet>, ptrs: seq<Buf>, pkts: seq<Packet>): map<Buf, Packet>
    requires |pkts| <= |ptrs|
  {
    if pkts == [] then mem
    else
      var n := |pkts| - 1;
      WriteThrough(mem, ptrs, pkts[..n])[ptrs[n] := pkts[n]]
  }

  /** Can the step be taken? The waits are the conditions of the pool's methods. */
  predicate Enabled(cfg: Config, s: State, step: Step) {
    match step
    case Prime => s.reader.Priming? && Request(s.bufQue, cfg.r) <= |s.empty|
    case Point => s.reader.Pointing? && cfg.r <= |s.bufQue|
    case Receive(pkts) => s.reader.Ready? && 1 <= |pkts| <= cfg.r <= |s.iovecs|
    case Push => s.reader.Received? && s.reader.n <= |s.bufQue|
    case Refill => s.reader.Refilling? && Request(s.bufQue, cfg.r) <= |s.empty|
    case Repoint => s.reader.Repointing? && s.reader.n <= |s.bufQue| && s.reader.n <= |s.iovecs|
    case Pop => s.processor.Popping? && Request(s.work, cfg.p) <= |s.full|
    case Consume(d) => s.processor.Working? && s.work != [] && s.work[0] in s.mem
    case Leave => s.processor.Working?
    case RecycleAll => s.processor.Recycling?
  }

  function Do(cfg: Config, s: State, step: Step): State
    requires Enabled(cfg, s, step)
  {
    match step
    case Prime =>
      var e := TakeEmpty(s.empty, s.bufQue, cfg.r);
      s.(empty := e.pool, bufQue := e.que, reader := Pointing)
    case Point => s.(iovecs := s.bufQue[..cfg.r], reader := Ready)
    case Receive(pkts) =>
      s.(mem := WriteThrough(s.mem, s.iovecs, pkts), received := s.received + pkts, reader := Received(|pkts|))
    case Push =>
      var e := PushFull(s.full, s.bufQue, s.reader.n);
      s.(full := e.pool, bufQue := e.que, reader := Refilling(s.reader.n))
    case Refill =>
      var e := TakeEmpty(s.empty, s.bufQue, cfg.r);
      s.(empty := e.pool, bufQue := e.que, reader := Repointing(s.reader.n))
    case Repoint => s.(iovecs := s.bufQue[..s.reader.n] + s.iovecs[s.reader.n..], reader := Ready)
    case Pop =>
      var e := TakeFull(s.full, s.work, cfg.p);
      s.(full := e.pool, work := e.que, processor := Working)
    case Consume(d) =>
      var b := s.work[0];
      s.(consumed := s.consumed + [s.mem[b]], mem := s.mem[b := s.mem[b].(d := d)],
         work := s.work[1..], recycle := s.recycle + [b])
    case Leave => s.(processor := Recycling)
    case RecycleAll =>
      var e := Recycle(s.empty, s.recycle);
      s.(empty := e.pool, recycle := e.que, processor := Popping)
  }

  /** All buffers, wherever they are. */
  function Held(s: State): multiset<Buf> {
    multiset(s.empty) + multiset(s.bufQue) + multiset(s.full) + multiset(s.work) + multiset(s.recycle)
  }

  /** What lies in a queue of buffers. */
  function Load(mem: map<Buf, Packet>, bufs: seq<Buf>): (r: seq<Packet>)
    requires forall i :: 0 <= i < |bufs| ==> bufs[i] in mem
    ensures |r| == |bufs|
  {
    seq(|bufs|, i requires 0 <= i < |bufs| => mem[bufs[i]])
  }

  /** The raw pointers against the reader's queue, at each point of its loop. */
  predicate Aligned(cfg: Config, s: State) {
    match s.reader
    case Priming => s.bufQue == []
    case Pointing => |s.bufQue| == cfg.r
    case Ready => |s.bufQue| == cfg.r && s.iovecs == s.bufQue
    case Received(n) => n <= |s.bufQue| == cfg.r && s.iovecs == s.bufQue
    case Refilling(n) => n <= |s.iovecs| == cfg.r && s.iovecs[n..] == s.bufQue
    case Repointing(n) => n <= |s.bufQue| == |s.iovecs| == cfg.r && s.iovecs[n..] == s.bufQue[n..]
  }

  /** Every buffer is in exactly one place, and there are always the same buffers. */
  predicate Conserved(cfg: Config, s: State) {
    Held(s) == multiset(AllBufs(cfg.c)) && s.mem.Keys == set b | b in AllBufs(cfg.c)
  }

  /** Buffers the reader has filled but not pushed yet. */
  function Unpushed(s: State): seq<Buf> {
    if s.reader.Received? && s.reader.n <= |s.bufQue| then s.bufQue[..s.reader.n] else []
  }

  /** Received packets on their way to the processor, oldest first. */
  function InTransit(s: State): seq<Buf> {
    s.work + s.full + Unpushed(s)
  }

  predicate Fifo(s: State) {
    && (forall i :: 0 <= i < |InTransit(s)| ==> InTransit(s)[i] in s.mem)
    && s.consumed + Load(s.mem, InTransit(s)) == s.received
  }

  /** The processor's queues at each point of its loop. */
  predicate Batched(cfg: Config, s: State) {
    && |s.work| <= cfg.p
    && (s.processor.Popping? ==> s.recycle == [])
    && (s.processor.Working? ==> |s.work| + |s.recycle| == cfg.p)
  }

  predicate Inv(cfg: Config, s: State) {
    Conserved(cfg, s) && Aligned(cfg, s) && Fifo(s) && Batched(cfg, s)
  }

  // ---- Distinctness -----------------------------------------------------------------------------

  lemma {:induction false} AllBufsOnce(c: nat, b: Buf)
    ensures multiset(AllBufs(c))[b] == if b < c then 1 else 0
  {
    if c > 0 {
      AllBufsOnce(c - 1, b);
      assert AllBufs(c) == AllBufs(c - 1) + [c - 1];
    }
  }

  /** Two places in the buffers' cycle never hold the same buffer. */
  lemma HeldOnce(cfg: Config, s: State, b: Buf)
    requires Conserved(cfg, s)
    ensures multiset(s.empty)[b] + multiset(s.bufQue)[b] + multiset(s.full)[b]
            + multiset(s.work)[b] + multiset(s.recycle)[b] == if b < cfg.c then 1 else 0
    ensures b < cfg.c <==> b in s.mem
  {
    AllBufsOnce(cfg.c, b);
    assert b in AllBufs(cfg.c) <==> b < cfg.c by {
      if b < cfg.c {
        assert AllBufs(cfg.c)[b] == b;
      }
    }
    assert b in s.mem <==> b in s.mem.Keys;
    assert Held(s)[b] == multiset(AllBufs(cfg.c))[b];
  }

  lemma CountAt(s: seq<Buf>, i: nat)
    requires i < |s|
    ensures multiset(s)[s[i]] >= 1
  {
    assert s[i] in multiset(s);
  }

  lemma CountTwice(s: seq<Buf>, i: nat, j: nat)
    requires i < j < |s| && s[i] == s[j]
    ensures multiset(s)[s[i]] >= 2
  {
    assert s == s[..j] + s[j..];
    CountAt(s[..j], i);
    CountAt(s[j..], 0);
  }

  /** The queues are free of duplicates and pairwise disjoint, so a buffer has one owner. */
  lemma Exclusive(cfg: Config, s: State)
    requires Conserved(cfg, s)
    ensures var all := s.empty + s.bufQue + s.full + s.work + s.recycle;
            |all| == cfg.c && forall i, j :: 0 <= i < j < |all| ==> all[i] != all[j]
  {
    var all := s.empty + s.bufQue + s.full + s.work + s.recycle;
    assert multiset(all) == Held(s);
    assert |multiset(all)| == |all|;
    forall i: nat, j: nat | i < j < |all|
      ensures all[i] != all[j]
    {
      if all[i] == all[j] {
        CountTwice(all, i, j);
        AllBufsOnce(cfg.c, all[i]);
      }
    }
  }

  // ---- Preservation -----------------------------------------------------------------------------

  lemma EmptiesExchanged(s: State, e: Exchange<Buf>)
    requires Holding(e) == Holding(Exchange(s.empty, s.bufQue))
    ensures Held(s.(empty := e.pool, bufQue := e.que)) == Held(s)
  {
    var rest := multiset(s.full) + multiset(s.work) + multiset(s.recycle);
    assert Held(s) == Holding(Exchange(s.empty, s.bufQue)) + rest;
    assert Held(s.(empty := e.pool, bufQue := e.que)) == Holding(e) + rest;
  }

  lemma FilledExchanged(s: State, e: Exchange<Buf>)
    requires Holding(e) == Holding(Exchange(s.full, s.bufQue))
    ensures Held(s.(full := e.pool, bufQue := e.que)) == Held(s)
  {
    var rest := multiset(s.empty) + multiset(s.work) + multiset(s.recycle);
    assert Held(s) == Holding(Exchange(s.full, s.bufQue)) + rest;
    assert Held(s.(full := e.pool, bufQue := e.que)) == Holding(e) + rest;
  }

  lemma WorkExchanged(s: State, e: Exchange<Buf>)
    requires Holding(e) == Holding(Exchange(s.full, s.work))
    ensures Held(s.(full := e.pool, work := e.que)) == Held(s)
  {
    var rest := multiset(s.empty) + multiset(s.bufQue) + multiset(s.recycle);
    assert Held(s) == Holding(Exchange(s.full, s.work)) + rest;
    assert Held(s.(full := e.pool, work := e.que)) == Holding(e) + rest;
  }

  lemma RecycledExchanged(s: State, e: Exchange<Buf>)
    requires Holding(e) == Holding(Exchange(s.empty, s.recycle))
    ensures Held(s.(empty := e.pool, recycle := e.que)) == Held(s)
  {
    var rest := multiset(s.bufQue) + multiset(s.full) + multiset(s.work);
    assert Held(s) == Holding(Exchange(s.empty, s.recycle)) + rest;
    assert Held(s.(empty := e.pool, recycle := e.que)) == Holding(e) + rest;
  }

  lemma DoConserves(cfg: Config, s: State, step: Step)
    requires Inv(cfg, s) && Enabled(cfg, s, step)
    ensures Held(Do(cfg, s, step)) == Held(s)
  {
    hide Inv, TakeEmpty, TakeFull, PushFull, Recycle, Holding;
    match step
    case Prime =>
      ExchangesConserve(s.empty, s.bufQue, cfg.r);
      EmptiesExchanged(s, TakeEmpty(s.empty, s.bufQue, cfg.r));
    case Push =>
      ExchangesConserve(s.full, s.bufQue, s.reader.n);
      FilledExchanged(s, PushFull(s.full, s.bufQue, s.reader.n));
    case Refill =>
      ExchangesConserve(s.empty, s.bufQue, cfg.r);
      EmptiesExchanged(s, TakeEmpty(s.empty, s.bufQue, cfg.r));
    case Pop =>
      ExchangesConserve(s.full, s.work, cfg.p);
      WorkExchanged(s, TakeFull(s.full, s.work, cfg.p));
    case RecycleAll =>
      ExchangesConserve(s.empty, s.recycle, 0);
      RecycledExchanged(s, Recycle(s.empty, s.recycle));
    case Consume(d) => SplitHolding(s.work, 1);
    case _ =>
  }

  /** The kernel's write reaches the pointed-to buffers and no others. */
  lemma {:induction false} WriteReaches(mem: map<Buf, Packet>, ptrs: seq<Buf>, pkts: seq<Packet>)
    requires |pkts| <= |ptrs| && forall i, j :: 0 <= i < j < |pkts| ==> ptrs[i] != ptrs[j]
    ensures var after := WriteThrough(mem, ptrs, pkts);
            && (forall i :: 0 <= i < |pkts| ==> ptrs[i] in after && after[ptrs[i]] == pkts[i])
            && (forall b :: b in mem ==> b in after)
            && (forall b :: b in after && b !in ptrs[..|pkts|] ==> b in mem && after[b] == mem[b])
  {
    if pkts != [] {
      var n := |pkts| - 1;
      WriteReaches(mem, ptrs, pkts[..n]);
      assert ptrs[..n + 1] == ptrs[..n] + [ptrs[n]];
    }
  }

  lemma DoKeepsAlignment(cfg: Config, s: State, step: Step)
    requires cfg.Valid() && Inv(cfg, s) && Enabled(cfg, s, step)
    ensures Aligned(cfg, Do(cfg, s, step)) && Batched(cfg, Do(cfg, s, step))
  {
  }

  lemma DistinctQueue(cfg: Config, s: State)
    requires Conserved(cfg, s)
    ensures forall i, j :: 0 <= i < j < |s.bufQue| ==> s.bufQue[i] != s.bufQue[j]
    ensures forall i :: 0 <= i < |s.bufQue| ==>
              s.bufQue[i] !in s.work && s.bufQue[i] !in s.full && s.bufQue[i] in s.mem
    ensures forall i, j :: 0 <= i < j < |s.work| ==> s.work[i] != s.work[j]
    ensures forall i :: 0 <= i < |s.work| ==> s.work[i] !in s.full && s.work[i] in s.mem
  {
    forall i: nat, j: nat | i < j < |s.bufQue| ensures s.bufQue[i] != s.bufQue[j] {
      if s.bufQue[i] == s.bufQue[j] {
        CountTwice(s.bufQue, i, j);
        HeldOnce(cfg, s, s.bufQue[i]);
      }
    }
    forall i: nat, j: nat | i < j < |s.work| ensures s.work[i] != s.work[j] {
      if s.work[i] == s.work[j] {
        CountTwice(s.work, i, j);
        HeldOnce(cfg, s, s.work[i]);
      }
    }
    forall i: nat | i < |s.bufQue|
      ensures s.bufQue[i] !in s.work && s.bufQue[i] !in s.full && s.bufQue[i] in s.mem
    {
      HeldOnce(cfg, s, s.bufQue[i]);
      CountAt(s.bufQue, i);
    }
    forall i: nat | i < |s.work|
      ensures s.work[i] !in s.full && s.work[i] in s.mem
    {
      HeldOnce(cfg, s, s.work[i]);
      CountAt(s.work, i);
    }
  }

  /** Buffers whose contents must not change until the processor has had them. */
  lemma TransitUntouched(cfg: Config, s: State, step: Step)
    requires Inv(cfg, s) && Enabled(cfg, s, step)
    ensures var t := Do(cfg, s, step);
            forall b :: b in s.work + s.full + Unpushed(s) && !(step.Consume? && b == s.work[0]) ==>
              b in s.mem && b in t.mem && t.mem[b] == s.mem[b]
  {
    DistinctQueue(cfg, s);
    var t := Do(cfg, s, step);
    if step.Receive? {
      WriteReaches(s.mem, s.iovecs, step.pkts);
    }
  }

  lemma LoadConcat(mem: map<Buf, Packet>, a: seq<Buf>, b: seq<Buf>)
    requires forall i :: 0 <= i < |a| ==> a[i] in mem
    requires forall i :: 0 <= i < |b| ==> b[i] in mem
    ensures forall i :: 0 <= i < |a + b| ==> (a + b)[i] in mem
    ensures Load(mem, a + b) == Load(mem, a) + Load(mem, b)
  {
  }

  lemma LoadSame(mem: map<Buf, Packet>, after: map<Buf, Packet>, bufs: seq<Buf>)
    requires forall i :: 0 <= i < |bufs| ==> bufs[i] in mem && bufs[i] in after && after[bufs[i]] == mem[bufs[i]]
    ensures Load(after, bufs) == Load(mem, bufs)
  {
  }

  /** How a step moves the packets on their way: only receiving adds any and only consuming removes one. */
  lemma TransitMoves(cfg: Config, s: State, step: Step)
    requires Inv(cfg, s) && Enabled(cfg, s, step)
    ensures var q := InTransit(s); var r := InTransit(Do(cfg, s, step));
            match step
            case Receive(pkts) => |pkts| <= |s.iovecs| && r == q + s.iovecs[..|pkts|]
            case Consume(d) => q == [s.work[0]] + r
            case _ => r == q
  {
    hide Conserved, Fifo;
    match step
    case Receive(pkts) => assert InTransit(s) == s.work + s.full;
    case Consume(d) =>
    case Push => assert s.bufQue[..s.reader.n] + s.bufQue[s.reader.n..] == s.bufQue;
    case Pop => PopMovesInOrder(s, cfg.p);
    case _ =>
  }

  lemma PopMovesInOrder(s: State, p: nat)
    requires Request(s.work, p) <= |s.full|
    ensures var e := TakeFull(s.full, s.work, p); e.que + e.pool == s.work + s.full
  {
    var n := Request(s.work, p);
    assert s.full == s.full[..n] + s.full[n..];
  }

  lemma LoadWritten(mem: map<Buf, Packet>, ptrs: seq<Buf>, pkts: seq<Packet>)
    requires |pkts| <= |ptrs| && forall i, j :: 0 <= i < j < |pkts| ==> ptrs[i] != ptrs[j]
    ensures forall i :: 0 <= i < |pkts| ==> ptrs[..|pkts|][i] in WriteThrough(mem, ptrs, pkts)
    ensures Load(WriteThrough(mem, ptrs, pkts), ptrs[..|pkts|]) == pkts
  {
    WriteReaches(mem, ptrs, pkts);
    hide WriteThrough;
    forall i | 0 <= i < |pkts|
      ensures ptrs[..|pkts|][i] in WriteThrough(mem, ptrs, pkts)
              && WriteThrough(mem, ptrs, pkts)[ptrs[..|pkts|][i]] == pkts[i]
    {
      assert ptrs[..|pkts|][i] == ptrs[i];
    }
  }

  /** Packets that join the end of the queue, their buffers written and the others kept. */
  lemma FifoGrows(mem: map<Buf, Packet>, after: map<Buf, Packet>, consumed: seq<Packet>, received: seq<Packet>,
                  q: seq<Buf>, added: seq<Buf>, pkts: seq<Packet>)
    requires forall i :: 0 <= i < |q| ==> q[i] in mem && q[i] in after && after[q[i]] == mem[q[i]]
    requires forall i :: 0 <= i < |added| ==> added[i] in after
    requires consumed + Load(mem, q) == received && Load(after, added) == pkts
    ensures forall i :: 0 <= i < |q + added| ==> (q + added)[i] in after
    ensures consumed + Load(after, q + added) == received + pkts
  {
    LoadSame(mem, after, q);
    LoadConcat(after, q, added);
  }

  lemma ReceiveKeepsFifo(cfg: Config, s: State, pkts: seq<Packet>)
    requires Inv(cfg, s) && Enabled(cfg, s, Receive(pkts))
    ensures Fifo(Do(cfg, s, Receive(pkts)))
  {
    var t := Do(cfg, s, Receive(pkts));
    var q, added := InTransit(s), s.iovecs[..|pkts|];
    TransitMoves(cfg, s, Receive(pkts));
    TransitUntouched(cfg, s, Receive(pkts));
    assert forall i :: 0 <= i < |q| ==> q[i] in s.mem && q[i] in t.mem && t.mem[q[i]] == s.mem[q[i]];
    assert forall i, j :: 0 <= i < j < |pkts| ==> s.iovecs[i] != s.iovecs[j] by {
      DistinctQueue(cfg, s);
    }
    LoadWritten(s.mem, s.iovecs, pkts);
    hide WriteThrough, Conserved, Aligned, Batched, InTransit;
    FifoGrows(s.mem, t.mem, s.consumed, s.received, q, added, pkts);
  }

  /** The front packet leaves the queue, its buffer rewritten and the others kept. */
  lemma FifoShrinks(mem: map<Buf, Packet>, after: map<Buf, Packet>, consumed: seq<Packet>, received: seq<Packet>,
                    b: Buf, r: seq<Buf>)
    requires forall i :: 0 <= i < |[b] + r| ==> ([b] + r)[i] in mem
    requires forall i :: 0 <= i < |r| ==> r[i] in after && (r[i] in mem ==> after[r[i]] == mem[r[i]])
    requires consumed + Load(mem, [b] + r) == received
    ensures b in mem && consumed + [mem[b]] + Load(after, r) == received
  {
    assert ([b] + r)[0] == b;
    forall i | 0 <= i < |r| ensures r[i] in mem {
      assert ([b] + r)[i + 1] == r[i];
    }
    LoadSame(mem, after, r);
    LoadConcat(mem, [b], r);
    assert Load(mem, [b]) == [mem[b]];
  }

  lemma ConsumeKeepsFifo(cfg: Config, s: State, d: seq<ByteOrder.byte>)
    requires Inv(cfg, s) && Enabled(cfg, s, Consume(d))
    ensures Fifo(Do(cfg, s, Consume(d)))
  {
    var t := Do(cfg, s, Consume(d));
    var q, r, b := InTransit(s), InTransit(t), s.work[0];
    TransitMoves(cfg, s, Consume(d));
    DistinctTransit(cfg, s);
    hide Conserved, Aligned, Batched, InTransit;
    forall i | 0 <= i < |r| ensures r[i] in s.mem && r[i] != b {
      assert q[0] == b && q[i + 1] == r[i];
    }
    FifoShrinks(s.mem, t.mem, s.consumed, s.received, b, r);
  }

  lemma TransitIsHeld(s: State, b: Buf)
    ensures multiset(InTransit(s))[b] <= multiset(s.work)[b] + multiset(s.full)[b] + multiset(s.bufQue)[b]
  {
    if s.reader.Received? && s.reader.n <= |s.bufQue| {
      SplitHolding(s.bufQue, s.reader.n);
    }
  }

  /** The front buffer is nowhere else on the way to the processor. */
  lemma DistinctTransit(cfg: Config, s: State)
    requires Conserved(cfg, s)
    ensures forall i, j :: 0 <= i < j < |InTransit(s)| ==> InTransit(s)[i] != InTransit(s)[j]
  {
    var q := InTransit(s);
    forall i: nat, j: nat | i < j < |q|
      ensures q[i] != q[j]
    {
      if q[i] == q[j] {
        CountTwice(q, i, j);
        TransitIsHeld(s, q[i]);
        HeldOnce(cfg, s, q[i]);
      }
    }
  }

  lemma DoKeepsFifo(cfg: Config, s: State, step: Step)
    requires Inv(cfg, s) && Enabled(cfg, s, step)
    ensures Fifo(Do(cfg, s, step))
  {
    match step
    case Receive(pkts) => ReceiveKeepsFifo(cfg, s, pkts);
    case Consume(d) => ConsumeKeepsFifo(cfg, s, d);
    case _ =>
      TransitMoves(cfg, s, step);
      hide InTransit, Conserved, Aligned, Batched;
  }

  /** Every step of every interleaving keeps the invariant. */
  lemma DoKeepsInv(cfg: Config, s: State, step: Step)
    requires cfg.Valid() && Inv(cfg, s) && Enabled(cfg, s, step)
    ensures Inv(cfg, Do(cfg, s, step))
  {
    DoConserves(cfg, s, step);
    DoKeepsAlignment(cfg, s, step);
    DoKeepsFifo(cfg, s, step);
    DoKeepsBuffers(cfg, s, step);
    hide Do, Aligned, Fifo, Batched, Held;
  }

  lemma DoKeepsBuffers(cfg: Config, s: State, step: Step)
    requires cfg.Valid() && Inv(cfg, s) && Enabled(cfg, s, step)
    ensures Do(cfg, s, step).mem.Keys == s.mem.Keys
  {
    if step.Receive? {
      DistinctQueue(cfg, s);
      WriteReaches(s.mem, s.iovecs, step.pkts);
    }
  }

  lemma StartInv(cfg: Config, blank: Packet)
    ensures Inv(cfg, Start(cfg, blank))
  {
  }

  /** Can the steps be taken one after another from s? */
  predicate Valid(cfg: Config, s: State, steps: seq<Step>)
    decreases |steps|
  {
    steps != [] ==> Enabled(cfg, s, steps[0]) && Valid(cfg, Do(cfg, s, steps[0]), steps[1..])
  }

  function After(cfg: Config, s: State, steps: seq<Step>): State
    requires Valid(cfg, s, steps)
    decreases |steps|
  {
    if steps == [] then s else After(cfg, Do(cfg, s, steps[0]), steps[1..])
  }

  lemma {:induction false} RunKeepsInv(cfg: Config, s: State, steps: seq<Step>)
    requires cfg.Valid() && Inv(cfg, s) && Valid(cfg, s, steps)
    ensures Inv(cfg, After(cfg, s, steps))
    decreases |steps|
  {
    hide Inv, Do, Enabled;
    if steps != [] {
      DoKeepsInv(cfg, s, steps[0]);
      RunKeepsInv(cfg, Do(cfg, s, steps[0]), steps[1..]);
    }
  }

  /**
    Zero copy is safe. In every reachable state: when the socket is read each raw pointer is that
    of the buffer in the same place of the reader's queue; the buffers are all accounted for with
    one owner each; none that the kernel may write to is on its way to the processor or in its
    hands; and what the processor has had and will have, in order, is what was received.
   */
  lemma ZeroCopyOwnership(cfg: Config, blank: Packet, steps: seq<Step>)
    requires cfg.Valid() && Valid(cfg, Start(cfg, blank), steps)
    ensures var s := After(cfg, Start(cfg, blank), steps);
            && (s.reader.Ready? ==> |s.bufQue| == cfg.r && s.iovecs == s.bufQue)
            && (s.reader.Ready? ==> forall i :: 0 <= i < |s.iovecs| ==>
                  && s.iovecs[i] !in s.work && s.iovecs[i] !in s.full
                  && s.iovecs[i] !in s.recycle && s.iovecs[i] !in s.empty)
            && (var all := s.empty + s.bufQue + s.full + s.work + s.recycle;
                |all| == cfg.c && forall i, j :: 0 <= i < j < |all| ==> all[i] != all[j])
            && (forall i :: 0 <= i < |InTransit(s)| ==> InTransit(s)[i] in s.mem)
            && s.consumed + Load(s.mem, InTransit(s)) == s.received
  {
    StartInv(cfg, blank);
    RunKeepsInv(cfg, Start(cfg, blank), steps);
    var s := After(cfg, Start(cfg, blank), steps);
    hide After, Valid;
    Exclusive(cfg, s);
    forall i | 0 <= i < |s.bufQue|
      ensures s.bufQue[i] !in s.work && s.bufQue[i] !in s.full && s.bufQue[i] !in s.recycle && s.bufQue[i] !in s.empty
    {
      HeldOnce(cfg, s, s.bufQue[i]);
      CountAt(s.bufQue, i);
    }
  }

  /**
    Between its reception and its consumption a packet's bytes change in no step of either
    thread: only the processor's own step on the front packet rewrites a payload.
   */
  lemma BytesStableInTransit(cfg: Config, blank: Packet, steps: seq<Step>, step: Step, b: Buf)
    requires cfg.Valid() && Valid(cfg, Start(cfg, blank), steps)
    requires var s := After(cfg, Start(cfg, blank), steps);
             Enabled(cfg, s, step) && b in InTransit(s) && !(step.Consume? && b == s.work[0])
    ensures var s := After(cfg, Start(cfg, blank), steps);
            var t := Do(cfg, s, step);
            b in s.mem && b in t.mem && t.mem[b] == s.mem[b] && b in InTransit(t)
  {
    StartInv(cfg, blank);
    RunKeepsInv(cfg, Start(cfg, blank), steps);
    var s := After(cfg, Start(cfg, blank), steps);
    hide After, Valid;
    TransitUntouched(cfg, s, step);
    StaysInTransit(cfg, s, step, b);
  }

  lemma StaysInTransit(cfg: Config, s: State, step: Step, b: Buf)
    requires Inv(cfg, s) && Enabled(cfg, s, step) && b in InTransit(s) && !(step.Consume? && b == s.work[0])
    ensures b in InTransit(Do(cfg, s, step))
  {
    TransitMoves(cfg, s, step);
    hide InTransit, Inv;
  }
}
