/**
  Sequences of consecutive frame numbers. The packet that begins one sets the sample width for all
  of it, whatever the headers of the others say.
 */
module Sequences {

  import opened SddsPackets
  import opened SequenceCounter
  import opened SlipDetector
  import opened Processor
  import opened Positions

  /** Does packet k carry the number after that of the last packet not skipped? */
  predicate Continues(opt: Options, ps: seq<Packet>, k: nat)
    requires k < |ps|
  {
    var last := LastKept(opt, ps, k);
    last.Some? && ps[k].h.seqNo == Successor(ps[last.value].h.seqNo)
  }

  /** The packet that began the sequence packet k is in. */
  function Beginning(opt: Options, ps: seq<Packet>, k: nat): (j: nat)
    requires k < |ps|
    ensures j <= k
    decreases k
  {
    if Continues(opt, ps, k) then Beginning(opt, ps, LastKept(opt, ps, k).value) else k
  }

  /** The width packet k is processed at: that of the packet that began its sequence. */
  function Width(opt: Options, ps: seq<Packet>, k: nat): nat
    requires k < |ps|
  {
    BitsPerSample(ps[Beginning(opt, ps, k)].h)
  }

  /** Is packet k at the front and not going to be skipped? */
  predicate Waiting(opt: Options, ps: seq<Packet>, k: nat) {
    k < |ps| && !Skips(opt, ps[k].h)
  }

  /** The tracker with the first k packets consumed: at a beginning, after the last one, or at packet k. */
  predicate InStep(t: Tracker, opt: Options, ps: seq<Packet>, k: nat)
    requires k <= |ps|
  {
    var last := LastKept(opt, ps, k);
    if t.first then last.None? || (Waiting(opt, ps, k) && !Continues(opt, ps, k))
    else
      || (last.Some? && t.expected == Successor(ps[last.value].h.seqNo) && t.bps == Width(opt, ps, last.value))
      || (Waiting(opt, ps, k) && t.expected == ps[k].h.seqNo && t.bps == Width(opt, ps, k))
  }

  /** A pass keeps step, and what it consumes it processes at the width of its sequence. */
  lemma PassKeepsStep(s: Proc, ps: seq<Packet>, k: nat, year: int)
    requires UsableBps(s.trk.bps) && AllUsable(ps) && k < |ps| && InStep(s.trk, s.opt, ps, k)
    ensures var r := Offer(s, ps[k], year);
            && InStep(r.s.trk, s.opt, ps, if r.consumed then k + 1 else k)
            && (r.consumed && !Skips(s.opt, ps[k].h) ==>
                  (if s.trk.first then BitsPerSample(ps[k].h) else s.trk.bps) == Width(s.opt, ps, k))
  {
    hide Offer, ExpectHeader, Check, Successor, BitsPerSample;
    OfferMoves(s, ps[k], year);
    assert LastKept(s.opt, ps, k + 1) == if Skips(s.opt, ps[k].h) then LastKept(s.opt, ps, k) else Some(k);
    hide LastKept;
  }

  /** Does no packet that continues a sequence change the width? */
  ghost predicate WidthsHold(opt: Options, ps: seq<Packet>, k: nat)
    requires k <= |ps|
  {
    forall j: nat :: j < k && !Skips(opt, ps[j].h) && Continues(opt, ps, j) ==>
      ps[j].h.bps == ps[LastKept(opt, ps, j).value].h.bps
  }

  /** Then every packet has the width of the one that began its sequence, and only then. */
  lemma {:induction false} WidthsHoldIff(opt: Options, ps: seq<Packet>, k: nat)
    requires k <= |ps|
    ensures WidthsHold(opt, ps, k) <==>
            forall j: nat :: j < k && !Skips(opt, ps[j].h) ==> ps[Beginning(opt, ps, j)].h.bps == ps[j].h.bps
    decreases k
  {
    hide Beginning, Continues;
    if k > 0 {
      var j := k - 1;
      WidthsHoldIff(opt, ps, j);
      BeginningNext(opt, ps, j);
      LastKeptIs(opt, ps, j);
      hide LastKept;
      assert WidthsHold(opt, ps, k) <==>
        WidthsHold(opt, ps, j)
        && (!Skips(opt, ps[j].h) && Continues(opt, ps, j) ==> ps[j].h.bps == ps[LastKept(opt, ps, j).value].h.bps);
    }
  }

  lemma BeginningNext(opt: Options, ps: seq<Packet>, k: nat)
    requires k < |ps|
    ensures Beginning(opt, ps, k) ==
            if Continues(opt, ps, k) then Beginning(opt, ps, LastKept(opt, ps, k).value) else k
    ensures Continues(opt, ps, k) ==> LastKept(opt, ps, k).Some?
  {
  }

  lemma {:induction false} LastKeptIs(opt: Options, ps: seq<Packet>, k: nat)
    requires k <= |ps|
    ensures var last := LastKept(opt, ps, k);
            && (k > 0 && !Skips(opt, ps[k - 1].h) ==> last == Some(k - 1))
            && (k > 0 && Skips(opt, ps[k - 1].h) ==> last == LastKept(opt, ps, k - 1))
            && (last.Some? ==> !Skips(opt, ps[last.value].h))
  {
    if k > 0 && Skips(opt, ps[k - 1].h) {
      LastKeptIs(opt, ps, k - 1);
    }
  }
}
