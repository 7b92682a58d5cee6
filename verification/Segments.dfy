/**
  What comes out of the streams. A segment is a stretch of output with no flush or close in it:
  downstream one BulkIO packet never spans more than one segment.
 */
module Segments {

  import opened ByteOrder
  import opened SddsPackets
  import opened SequenceCounter
  import opened SlipDetector
  import opened TimeStamps
  import opened Processor

  predicate Breaks(e: Event) {
    e.Flush? || e.Close?
  }

  /** The last payload written in the open segment, if any. */
  function LastInSegment(log: seq<Event>): (r: Option<Written>) {
    if log == [] then None
    else
      var e := log[|log| - 1];
      if e.Write? then Some(e.w) else if Breaks(e) then None else LastInSegment(log[..|log| - 1])
  }

  /** May `b` follow `a` in a segment? */
  predicate Follows(opt: Options, a: Written, b: Written) {
    && b.h.seqNo == Successor(a.h.seqNo)
    && b.bps == a.bps
    && (opt.pushOnTtv ==> a.h.ttv == b.h.ttv)
    && (opt.waitForTtv ==> a.h.ttv && b.h.ttv)
  }

  /** Is event j a write that directly follows write i in one segment? */
  predicate Adjacent(log: seq<Event>, i: nat, j: nat)
    requires i < j < |log|
  {
    log[i].Write? && log[j].Write? && forall k :: i < k < j ==> !log[k].Write? && !Breaks(log[k])
  }

  ghost predicate SegmentsIntact(opt: Options, log: seq<Event>) {
    forall i: nat, j: nat :: i < j < |log| && Adjacent(log, i, j) ==> Follows(opt, log[i].w, log[j].w)
  }

  /** What ties the tracker to the open segment. */
  predicate Tracks(opt: Options, t: Tracker, o: Output) {
    var last := LastInSegment(o.log);
    last.Some? ==>
      && o.streams && !t.first
      && t.expected == Successor(last.value.h.seqNo)
      && t.bps == last.value.bps && StandardBps(t.bps)
      && (opt.pushOnTtv ==> last.value.h.ttv == t.ttvFlag)
      && (opt.waitForTtv ==> last.value.h.ttv)
  }

  ghost predicate SegmentInv(opt: Options, t: Tracker, o: Output) {
    SegmentsIntact(opt, o.log) && Tracks(opt, t, o)
  }

  lemma {:induction false} LastInSegmentIs(log: seq<Event>, i: nat)
    requires i < |log| && log[i].Write?
    requires forall k :: i < k < |log| ==> !log[k].Write? && !Breaks(log[k])
    ensures LastInSegment(log) == Some(log[i].w)
    decreases |log|
  {
    if i < |log| - 1 {
      LastInSegmentIs(log[..|log| - 1], i);
    }
  }

  /** One more event: only a write has to be checked, against the last of the open segment. */
  lemma Append(opt: Options, log: seq<Event>, e: Event)
    requires SegmentsIntact(opt, log)
    requires e.Write? && LastInSegment(log).Some? ==> Follows(opt, LastInSegment(log).value, e.w)
    ensures SegmentsIntact(opt, log + [e])
    ensures LastInSegment(log + [e]) ==
            if e.Write? then Some(e.w) else if Breaks(e) then None else LastInSegment(log)
  {
    var after := log + [e];
    assert after[..|after| - 1] == log;
    forall i: nat, j: nat | i < j < |after| && Adjacent(after, i, j)
      ensures Follows(opt, after[i].w, after[j].w)
    {
      if j < |log| {
        assert Adjacent(log, i, j);
      } else {
        LastInSegmentIs(log, i);
      }
    }
  }

  /** A flush ends the segment, so the tracker is free to start again. */
  lemma FlushBreaks(opt: Options, t: Tracker, o: Output, u: Tracker)
    requires SegmentInv(opt, t, o)
    ensures SegmentInv(opt, u, FlushStreams(o))
  {
    if o.streams {
      Append(opt, o.log, Flush);
    }
  }

  lemma CloseBreaks(opt: Options, t: Tracker, o: Output, u: Tracker)
    requires SegmentInv(opt, t, o)
    ensures SegmentInv(opt, u, CloseStreams(o))
  {
    if o.streams {
      Append(opt, o.log, Close);
    }
  }

  lemma CreateKeeps(opt: Options, t: Tracker, o: Output, sri: Sri)
    requires SegmentInv(opt, t, o)
    ensures SegmentInv(opt, t, CreateStreams(o, sri))
  {
    CloseBreaks(opt, t, o, t);
    Append(opt, CloseStreams(o).log, Open(sri));
  }

  lemma UpdateSriKeeps(opt: Options, t: Tracker, sri: Sri, c: Control, o: Output, h: Header, nonConforming: bool)
    requires SegmentInv(opt, t, o)
    ensures SegmentInv(opt, t, UpdateSri(sri, c, o, h, nonConforming).out)
  {
    var m := TakeUpstream(sri, c, o);
    CreateKeeps(opt, t, o, m.sri);
    hide CreateStreams;
    assert SegmentInv(opt, t, m.out);
    hide TakeUpstream, SegmentInv;
    CreateKeeps(opt, t, m.out, UpdateSri(sri, c, o, h, nonConforming).sri);
  }

  lemma PushKeeps(opt: Options, t: Tracker, o: Output, bps: nat, sri: Sri)
    requires SegmentInv(opt, t, o)
    ensures SegmentInv(opt, t, PushTheSri(o, bps, sri))
  {
    if StandardBps(bps) {
      Append(opt, o.log, PushSri(bps, sri));
    }
  }

  /** Is this packet next in order, with its time tag as the options ask? */
  predicate NextInOrder(opt: Options, t: Tracker, h: Header) {
    && !t.first && t.expected == h.seqNo
    && (opt.pushOnTtv ==> t.ttvFlag == h.ttv)
    && (opt.waitForTtv ==> h.ttv)
  }

  /** The write of an admitted packet continues the open segment. */
  lemma WriteKeeps(opt: Options, t: Tracker, o: Output, order: Endian, stamp: Stamp, met: bool, p: Packet)
    requires SegmentInv(opt, t, o) && |p.d| == PAYLOAD && o.streams && NextInOrder(opt, t, p.h)
    ensures SegmentInv(opt, t.(expected := Successor(t.expected)), WritePacket(o, t.bps, order, stamp, met, p))
  {
    if StandardBps(t.bps) {
      Append(opt, o.log, Write(Written(p.h, stamp, t.bps, order, met, Delivered(order, t.bps, p.d))));
    }
  }

  ghost predicate Intact(s: Proc) {
    SegmentInv(s.opt, s.trk, s.out)
  }

  lemma OfferOrderedKeeps(s: Proc, p: Packet, clockYear: int)
    requires Intact(s) && UsableBps(s.trk.bps) && Usable(p) && NextInOrder(s.opt, s.trk, p.h)
    ensures Intact(OfferOrdered(s, p, clockYear).s)
  {
    var m := UpdateSri(s.sri, s.ctl, s.out, p.h, s.det.nonConforming);
    UpdateSriKeeps(s.opt, s.trk, s.sri, s.ctl, s.out, p.h, s.det.nonConforming);
    assert m.out.streams;
    hide UpdateSri, ExpectHeader, Check, SegmentInv, PushTheSri, WritePacket;
    if m.changed {
      PushKeeps(s.opt, s.trk, m.out, s.trk.bps, m.sri);
    } else {
      var stamp := StampOf(p.h.time, p.h.ttv, s.det.last, s.startOfYear, clockYear).0;
      WriteKeeps(s.opt, s.trk, m.out, m.ctl.endian, stamp, s.det.nonConforming, p);
    }
  }

  /** Every pass keeps the segments intact, whatever packet is offered. */
  lemma OfferKeepsSegments(s: Proc, p: Packet, clockYear: int)
    requires Intact(s) && UsableBps(s.trk.bps) && Usable(p)
    ensures Intact(Offer(s, p, clockYear).s)
  {
    var o := CheckOrder(s.trk, s.det, p.h);
    hide OfferOrdered, ExpectHeader, FlushStreams;
    if Skips(s.opt, p.h) {
      FlushBreaks(s.opt, s.trk, s.out, s.trk);
    } else if !o.valid {
      FlushBreaks(s.opt, s.trk, s.out, o.trk);
    } else if s.opt.pushOnTtv && o.trk.ttvFlag != p.h.ttv {
      FlushBreaks(s.opt, s.trk, s.out, o.trk.(ttvFlag := p.h.ttv));
    } else {
      OfferOrderedKeeps(s.(trk := o.trk, det := o.det), p, clockYear);
    }
  }

  lemma {:induction false} RunKeepsSegments(at: Position, ps: seq<Packet>, acts: seq<Act>)
    requires Ready(at, ps) && Intact(at.s)
    ensures Intact(Run(at, ps, acts).s)
    decreases |acts|
  {
    if acts != [] {
      if acts[0].Pass? && at.k < |ps| {
        OfferKeepsSegments(at.s, ps[at.k], acts[0].clockYear);
      }
      hide Offer, SegmentInv;
      RunKeepsSegments(Next(at, ps, acts[0]), ps, acts[1..]);
    }
  }

  /** The state between runs of the thread keeps them intact too. */
  lemma StopKeepsSegments(s: Proc)
    requires Intact(s)
    ensures Intact(Stop(s))
  {
    CloseBreaks(s.opt, s.trk, s.out, s.trk.(first := true));
  }

  /**
    Segment integrity over whole runs: in everything written since the constructor, two writes
    with no flush or close between them carry consecutive frame numbers and one sample width;
    with push-on-TTV they have the same time-tag flag, with wait-on-TTV both have it set.
   */
  lemma SegmentIntegrity(setup: Setup, ps: seq<Packet>, acts: seq<Act>)
    requires AllUsable(ps)
    ensures var log := Run(Position(Fresh(setup), 0), ps, acts).s.out.log;
            forall i: nat, j: nat :: i < j < |log| && Adjacent(log, i, j) ==>
              && log[j].w.h.seqNo == Successor(log[i].w.h.seqNo)
              && log[j].w.bps == log[i].w.bps
              && (setup.opt.pushOnTtv ==> log[i].w.h.ttv == log[j].w.h.ttv)
              && (setup.opt.waitForTtv ==> log[i].w.h.ttv && log[j].w.h.ttv)
  {
    RunKeepsSegments(Position(Fresh(setup), 0), ps, acts);
    hide Run;
  }
}
