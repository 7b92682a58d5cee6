/**
  Where the processor stands in a stream whose packets carry the numbers of a sender that counts
  as SDDS prescribes, and a channel that may lose packets but keeps their order.
 */
module Positions {

  import opened SddsPackets
  import opened SequenceCounter
  import opened SlipDetector
  import opened Processor

  /** The packets received are those the sender emitted at these indices. */
  ghost predicate Numbered(ps: seq<Packet>, idx: seq<nat>) {
    && |idx| == |ps|
    && (forall i :: 0 <= i < |ps| ==> ps[i].h.seqNo == Wire(idx[i]))
    && forall i, j :: 0 <= i < j < |idx| ==> idx[i] < idx[j]
  }

  /** The position of the last of the first k packets that was not skipped. */
  function LastKept(opt: Options, ps: seq<Packet>, k: nat): (r: Option<nat>)
    requires k <= |ps|
    ensures r.Some? ==> r.value < k
  {
    if k == 0 then None
    else if Skips(opt, ps[k - 1].h) then LastKept(opt, ps, k - 1)
    else Some(k - 1)
  }

  /** Packets missing, lost or skipped, between the last kept before position k and the one at k. */
  function Missing(opt: Options, ps: seq<Packet>, idx: seq<nat>, k: nat): int
    requires k < |ps| == |idx|
  {
    var last := LastKept(opt, ps, k);
    if last.None? then 0 else idx[k] as int - (idx[last.value] + 1)
  }

  /** A run of missing packets can only go unnoticed if it is a whole number of cycles long. */
  ghost predicate GapsShow(opt: Options, ps: seq<Packet>, idx: seq<nat>)
    requires |ps| == |idx|
  {
    forall k: nat :: k < |ps| && !Skips(opt, ps[k].h) ==>
      Missing(opt, ps, idx, k) == 0 || Missing(opt, ps, idx, k) % CYCLE != 0
  }

  /** No kept packet yet and none tracked. */
  predicate Idle(opt: Options, t: Tracker, ps: seq<Packet>, k: nat)
    requires k <= |ps|
  {
    t.first && LastKept(opt, ps, k).None?
  }

  /** The tracker expects the packet after the last kept one. */
  predicate Following(opt: Options, t: Tracker, ps: seq<Packet>, idx: seq<nat>, k: nat)
    requires k <= |ps| == |idx|
  {
    var last := LastKept(opt, ps, k);
    !t.first && last.Some? && t.expected == Wire(idx[last.value] + 1)
  }

  /** A gap was found before the front packet, which is about to be taken as the first. */
  predicate Resyncing(opt: Options, t: Tracker, ps: seq<Packet>, k: nat)
    requires k <= |ps|
  {
    t.first && LastKept(opt, ps, k).Some? && k < |ps| && !Skips(opt, ps[k].h)
  }

  /** The tracker expects the front packet. */
  predicate AtFront(opt: Options, t: Tracker, ps: seq<Packet>, k: nat)
    requires k <= |ps|
  {
    !t.first && k < |ps| && !Skips(opt, ps[k].h) && t.expected == ps[k].h.seqNo
  }

  /** What a pass does when the tracker expects the front packet or takes it as the first. */
  lemma PassAtFront(s: Proc, ps: seq<Packet>, idx: seq<nat>, k: nat, year: int)
    requires UsableBps(s.trk.bps) && AllUsable(ps) && Numbered(ps, idx) && k < |ps|
    requires !Skips(s.opt, ps[k].h) && (s.trk.first || s.trk.expected == ps[k].h.seqNo)
    ensures var r := Offer(s, ps[k], year);
            && r.s.trk.dropped == s.trk.dropped
            && (r.consumed ==> Following(s.opt, r.s.trk, ps, idx, k + 1))
            && (!r.consumed ==> AtFront(s.opt, r.s.trk, ps, k))
  {
    hide Offer, ExpectHeader, Check;
    OfferMoves(s, ps[k], year);
    SuccessorOfWire(idx[k]);
  }

  /** A pass that finds a gap consumes nothing, asks for a restart and reports the drops. */
  lemma PassOverGap(s: Proc, ps: seq<Packet>, k: nat, year: int)
    requires UsableBps(s.trk.bps) && AllUsable(ps) && k < |ps|
    requires !Skips(s.opt, ps[k].h) && !s.trk.first && s.trk.expected != ps[k].h.seqNo
    ensures var r := Offer(s, ps[k], year);
            && !r.consumed && r.s.trk.first && r.s.det == s.det
            && r.s.trk.dropped ==
               (s.trk.dropped + DropsReported(s.trk.expected, ps[k].h.seqNo)) % 0x1_0000_0000_0000_0000
  {
    hide Offer, ExpectHeader, Check;
    OfferMoves(s, ps[k], year);
  }

  /** Following the last kept packet, the front one is expected exactly if nothing is missing before it. */
  lemma ExpectedIffNoneMissing(opt: Options, t: Tracker, ps: seq<Packet>, idx: seq<nat>, k: nat)
    requires Numbered(ps, idx) && k < |ps| && Following(opt, t, ps, idx, k)
    requires Missing(opt, ps, idx, k) == 0 || Missing(opt, ps, idx, k) % CYCLE != 0
    ensures Missing(opt, ps, idx, k) >= 0
    ensures t.expected == ps[k].h.seqNo <==> Missing(opt, ps, idx, k) == 0
  {
    var j := LastKept(opt, ps, k).value;
    var h, g := idx[j] + 1, idx[k];
    WireCollision(h, g);
    if h % CYCLE == g % CYCLE {
      SameRemainder(h, g);
    }
  }

  lemma SameRemainder(h: nat, g: nat)
    requires h <= g && h % CYCLE == g % CYCLE
    ensures (g - h) % CYCLE == 0
  {
  }
}
