/**
  Which packet a packet's time is measured against. A packet without a valid time tag is written
  but does not move the time last seen, so the next tagged packet is compared with an older one.
  So is a packet behind a loss that goes unnoticed.
 */
module Anchors {

  import opened SddsTimes
  import opened SddsPackets
  import opened SequenceCounter
  import opened SlipDetector
  import opened Processor
  import opened Positions
  import opened Sequences

  /** The last tagged packet of the sequence at position k, none if its time is zero. */
  function Tail(opt: Options, ps: seq<Packet>, k: nat): (r: Option<nat>)
    requires k <= |ps|
    ensures r.Some? ==> r.value < k && !Skips(opt, ps[r.value].h) && ps[r.value].h.ttv && ps[r.value].h.time != ZERO
    decreases k, 0
  {
    if k == 0 then None
    else if Skips(opt, ps[k - 1].h) then Tail(opt, ps, k - 1)
    else if ps[k - 1].h.ttv then if ps[k - 1].h.time == ZERO then None else Some(k - 1)
    else Anchor(opt, ps, k - 1)
  }

  /** The packet whose time packet k is measured against. */
  function Anchor(opt: Options, ps: seq<Packet>, k: nat): (r: Option<nat>)
    requires k < |ps|
    ensures r.Some? ==> r.value < k && ps[r.value].h.ttv && ps[r.value].h.time != ZERO
    decreases k, 1
  {
    if Continues(opt, ps, k) then Tail(opt, ps, k) else None
  }

  /** Does the sender's time go back from packet i to packet k? The year may have rolled over. */
  predicate Back(ps: seq<Packet>, i: nat, k: nat)
    requires i < |ps| && k < |ps|
  {
    ps[k].h.time.Seconds() < ps[i].h.time.Seconds()
  }

  /** Is packet k measured, and against which packet? Not if time goes back, but the next ones are against it. */
  function Measured(opt: Options, ps: seq<Packet>, k: nat): (r: Option<nat>)
    requires k < |ps|
    ensures r.Some? ==> r.value < k
  {
    var i := Anchor(opt, ps, k);
    if ps[k].h.ttv && !Skips(opt, ps[k].h) && i.Some? && !Back(ps, i.value, k) then i else None
  }

  /** How many packets after packet i the sender emitted packet k. */
  function Distance(idx: seq<nat>, i: nat, k: nat): nat
    requires i < |idx| && k < |idx|
  {
    if idx[i] <= idx[k] then idx[k] - idx[i] else 0
  }

  /** Measured packets are this much after their anchors for each packet the sender emitted from one to the other. */
  ghost predicate TimedBy(opt: Options, ps: seq<Packet>, idx: seq<nat>, step: real)
    requires |ps| == |idx|
  {
    forall k: nat :: k < |ps| && Measured(opt, ps, k).Some? ==>
      var i := Measured(opt, ps, k).value;
      ps[k].h.time.Seconds() - ps[i].h.time.Seconds() == Times(Distance(idx, i, k), step)
  }

  /** Packets of one rate, width and mode, with the numbers of a sender. */
  ghost predicate Uniform(ps: seq<Packet>, idx: seq<nat>, rate: real, bps: nat, cx: bool) {
    && rate > 0.0 && 8 <= bps <= 32
    && AllUsable(ps) && Numbered(ps, idx)
    && forall i :: 0 <= i < |ps| ==> ps[i].h.cx == cx && Rate(ps[i].h) == rate && BitsPerSample(ps[i].h) == bps
  }

  /**
    A packet in sequence whose time is before the last one's: the clock is read again, and the
    packet is what the next ones are measured against. It is no slip, and nothing else that is
    known of the stream changes.
   */
  lemma BackwardsIsNoSlip(s: Proc, p: Packet, clockYear: int)
    requires UsableBps(s.trk.bps) && Usable(p) && !s.trk.first && s.trk.expected == p.h.seqNo
    requires p.h.ttv && p.h.time.Less(s.det.last) && Offer(s, p, clockYear).consumed
    ensures var r := Offer(s, p, clockYear).s;
            r.startOfYear == clockYear && r.det == s.det.(last := p.h.time)
  {
    OfferMoves(s, p, clockYear);
    LessIsNumeric(p.h.time, s.det.last);
    hide Step, UpdateSri, FlushStreams, PushTheSri, WritePacket, CheckOrder;
  }

  lemma FollowingContinues(opt: Options, t: Tracker, ps: seq<Packet>, idx: seq<nat>, k: nat)
    requires Numbered(ps, idx) && k < |ps|
    requires Following(opt, t, ps, idx, k) && t.expected == ps[k].h.seqNo
    ensures Continues(opt, ps, k)
  {
    SuccessorOfWire(idx[LastKept(opt, ps, k).value]);
    hide Wire, Successor, LastKept;
  }

  lemma TailNext(opt: Options, ps: seq<Packet>, k: nat)
    requires k < |ps|
    ensures Tail(opt, ps, k + 1) ==
            if Skips(opt, ps[k].h) then Tail(opt, ps, k)
            else if ps[k].h.ttv then if ps[k].h.time == ZERO then None else Some(k)
            else Anchor(opt, ps, k)
  {
  }

  /** If no loss goes unnoticed, a packet that continues a sequence is the next one the sender emitted. */
  lemma ContinuesIsNext(opt: Options, ps: seq<Packet>, idx: seq<nat>, k: nat)
    requires Numbered(ps, idx) && GapsShow(opt, ps, idx) && k < |ps| && !Skips(opt, ps[k].h)
    requires Continues(opt, ps, k)
    ensures idx[k] == idx[LastKept(opt, ps, k).value] + 1
  {
    hide Wire, Successor, LastKept;
    var j := LastKept(opt, ps, k).value;
    assert idx[j] < idx[k];
    SuccessorOfWire(idx[j]);
    var missing := Missing(opt, ps, idx, k);
    assert missing == 0 || missing % CYCLE != 0;
    SameNumberIff(idx[j] + 1, idx[k]);
  }

  /** Two numbers agree exactly if their distance is a whole number of cycles. */
  lemma SameNumberIff(h: nat, g: nat)
    requires h <= g
    ensures Wire(h) == Wire(g) <==> (g - h) % CYCLE == 0
  {
    WireCollision(h, g);
    hide Wire;
    SameRemainderIff(h, g);
  }

  lemma SameRemainderIff(h: nat, g: nat)
    requires h <= g
    ensures h % CYCLE == g % CYCLE <==> (g - h) % CYCLE == 0
  {
  }
}
