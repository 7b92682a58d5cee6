/**
  One stream for each sample width, and SRI changes pushed on one of them only: exactly when is
  every payload written under an SRI of its own stream that agrees with its header?
 */
module OwnStreams {

  import opened ByteOrder
  import opened SddsPackets
  import opened SequenceCounter
  import opened SlipDetector
  import opened TimeStamps
  import opened Processor
  import opened Positions
  import opened Sequences
  import opened Announcements
  import opened Folding
  import Livelock

  // ---- On packets -------------------------------------------------------------------------------

  /** The latest of the first k packets written at this width, or the first of all if none was. */
  function Speaker(opt: Options, ps: seq<Packet>, k: nat, bps: nat): (r: Option<nat>)
    requires k <= |ps|
    ensures r.Some? ==> r.value < k && !Skips(opt, ps[r.value].h)
    ensures r.Some? == LastKept(opt, ps, k).Some?
  {
    if k == 0 then None
    else
      var before := Speaker(opt, ps, k - 1, bps);
      if !Skips(opt, ps[k - 1].h) && (before.None? || Width(opt, ps, k - 1) == bps) then Some(k - 1) else before
  }

  /** What a header has to say about the SRI. */
  datatype Content = Content(xdelta: Xdelta, mode: int)

  /** Is the device known to be non-conforming when packet k comes? */
  function Flag(opt: Options, ps: seq<Packet>, k: nat): bool
    requires k <= |ps| && AllUsable(ps)
  {
    LineAt(opt, ps, k).det.nonConforming
  }

  /** What packet k has to say: the mode, and the sample period of its header or half of it. */
  function Says(opt: Options, ps: seq<Packet>, k: nat): Content
    requires k < |ps| && AllUsable(ps)
  {
    Content(HeaderXdelta(ps[k].h, Flag(opt, ps, k)), HeaderMode(ps[k].h))
  }

  function ContentOf(sri: Sri): Content {
    Content(sri.xdelta, sri.mode)
  }

  /**
    Does packet k change the width and say the same as the packet before it, but something else
    than the last packet of its own width?
   */
  predicate Stale(opt: Options, ps: seq<Packet>, k: nat)
    requires k < |ps| && AllUsable(ps)
  {
    var last := LastKept(opt, ps, k);
    var bps := Width(opt, ps, k);
    && !Skips(opt, ps[k].h) && last.Some?
    && Width(opt, ps, last.value) != bps
    && Says(opt, ps, k) == Says(opt, ps, last.value)
    && Says(opt, ps, k) != Says(opt, ps, Speaker(opt, ps, k, bps).value)
  }

  ghost predicate NoneStale(opt: Options, ps: seq<Packet>, k: nat)
    requires k <= |ps| && AllUsable(ps)
  {
    forall j: nat :: j < k ==> !Stale(opt, ps, j)
  }

  /** Rates that are not zero, and sample periods, halved or not, that are equal or can be told apart. */
  ghost predicate Separated(opt: Options, ps: seq<Packet>)
    requires AllUsable(ps)
  {
    && (forall i :: 0 <= i < |ps| ==> Rate(ps[i].h) > 0.0)
    && forall i, j :: 0 <= i < |ps| && 0 <= j < |ps| ==> ToldApart(Says(opt, ps, i), Says(opt, ps, j))
  }

  predicate ToldApart(a: Content, b: Content) {
    SameXdelta(a.xdelta, b.xdelta) ==> a.xdelta == b.xdelta
  }

  // ---- On the fold ------------------------------------------------------------------------------

  /** The SRI last announced on the stream of a width, once the first k packets are consumed. */
  function SriOn(opt: Options, ps: seq<Packet>, k: nat, bps: nat): Sri
    requires k <= |ps| && AllUsable(ps)
  {
    if k == 0 then INITIAL_SRI
    else
      var l, h := LineAt(opt, ps, k - 1), ps[k - 1].h;
      if !Skips(opt, h) && NewSri(l, h) && (!l.seen || WidthOf(l, h) == bps) then MergedSri(l, h)
      else SriOn(opt, ps, k - 1, bps)
  }

  /** Is packet j written under an SRI of its own stream that agrees with its header? */
  predicate Agrees(opt: Options, ps: seq<Packet>, j: nat)
    requires j < |ps| && AllUsable(ps)
  {
    Skips(opt, ps[j].h) || HeaderAgrees(
      ps[j].h, SriOn(opt, ps, j + 1, WidthOf(LineAt(opt, ps, j), ps[j].h)), Flag(opt, ps, j))
  }

  ghost predicate AllAgree(opt: Options, ps: seq<Packet>, k: nat)
    requires k <= |ps| && AllUsable(ps)
  {
    forall j: nat :: j < k ==> Agrees(opt, ps, j)
  }

  /** The fold's sequence and width are those of the packets. */
  lemma {:induction false} LineIsWidth(opt: Options, ps: seq<Packet>, k: nat)
    requires k <= |ps| && AllUsable(ps)
    ensures var l := LineAt(opt, ps, k); var last := LastKept(opt, ps, k);
            && l.seen == last.Some?
            && (last.Some? ==> l.next == Successor(ps[last.value].h.seqNo) && l.bps == Width(opt, ps, last.value))
            && (k < |ps| ==> WidthOf(l, ps[k].h) == Width(opt, ps, k))
  {
    if k > 0 {
      LineIsWidth(opt, ps, k - 1);
      hide Check, Entering, MergedSri, Successor, BitsPerSample;
    }
  }

  /** Is this the SRI that the packet at `last` left, or the initial one if there is none? */
  predicate LeftBy(opt: Options, ps: seq<Packet>, sri: Sri, last: Option<nat>)
    requires AllUsable(ps) && (last.Some? ==> last.value < |ps|)
  {
    if last.None? then sri == INITIAL_SRI else ContentOf(sri) == Says(opt, ps, last.value)
  }

  lemma MergedSays(opt: Options, ps: seq<Packet>, l: Line, last: Option<nat>, k: nat)
    requires k < |ps| && AllUsable(ps) && Separated(opt, ps) && (last.Some? ==> last.value < |ps|)
    requires LeftBy(opt, ps, l.sri, last) && l == LineAt(opt, ps, k)
    ensures NewSri(l, ps[k].h) <==> last.None? || Says(opt, ps, k) != Says(opt, ps, last.value)
    ensures ContentOf(MergedSri(l, ps[k].h)) == Says(opt, ps, k)
  {
    var x := Says(opt, ps, k).xdelta;
    if last.Some? {
      Livelock.SameIsSame(x);
      assert x.Finite?;
      assert ToldApart(Says(opt, ps, k), Says(opt, ps, last.value));
    } else {
      PositivePeriod(ps[k].h, Flag(opt, ps, k));
    }
    hide SameXdelta, HeaderXdelta, Rate, LineAt;
  }

  /** No positive sample period is taken for the initial -1. */
  lemma PositivePeriod(h: Header, nonConforming: bool)
    requires Rate(h) > 0.0
    ensures HeaderXdelta(h, nonConforming).Finite? && !SameXdelta(HeaderXdelta(h, nonConforming), Finite(-1.0))
  {
    var x := 1.0 / Rate(h);
    assert x > 0.0;
    hide Rate;
  }

  /** The fold's SRI is what the last packet said. */
  lemma {:induction false} LineSays(opt: Options, ps: seq<Packet>, k: nat)
    requires k <= |ps| && AllUsable(ps) && Separated(opt, ps)
    ensures LeftBy(opt, ps, LineAt(opt, ps, k).sri, LastKept(opt, ps, k))
    ensures LineAt(opt, ps, k).seen == LastKept(opt, ps, k).Some?
    decreases k
  {
    hide MergedSri, Separated, Says, NewSri, AllUsable, Consume, HeaderAgrees;
    if k > 0 {
      LineSays(opt, ps, k - 1);
      MergedSays(opt, ps, LineAt(opt, ps, k - 1), LastKept(opt, ps, k - 1), k - 1);
      NextSri(opt, ps, k);
      hide LineAt;
    }
  }

  lemma NextSri(opt: Options, ps: seq<Packet>, k: nat)
    requires 0 < k <= |ps| && AllUsable(ps)
    ensures var l, m := LineAt(opt, ps, k - 1), LineAt(opt, ps, k);
            if Skips(opt, ps[k - 1].h) then m == l else m.seen && m.sri == MergedSri(l, ps[k - 1].h)
  {
    hide Check, Entering, MergedSri, WidthOf;
  }

  /** While no packet is stale, each stream's SRI is what its last speaker said. */
  lemma {:induction false} SpeakerSays(opt: Options, ps: seq<Packet>, k: nat, bps: nat)
    requires k <= |ps| && AllUsable(ps) && Separated(opt, ps)
    requires NoneStale(opt, ps, k) && LastKept(opt, ps, k).Some?
    ensures ContentOf(SriOn(opt, ps, k, bps)) == Says(opt, ps, Speaker(opt, ps, k, bps).value)
    decreases k
  {
    var j := k - 1;
    var l, last := LineAt(opt, ps, j), LastKept(opt, ps, j);
    LineSays(opt, ps, j);
    LineIsWidth(opt, ps, j);
    if last.Some? {
      SpeakerSays(opt, ps, j, bps);
    }
    if !Skips(opt, ps[j].h) {
      MergedSays(opt, ps, l, last, j);
      assert !Stale(opt, ps, j);
      if last.Some? {
        LastSpeaks(opt, ps, j);
      }
    }
    hide NewSri, WidthOf, MergedSri, LineAt, Width, Says, Separated;
  }

  /** The last packet is the last speaker of its own width. */
  lemma {:induction false} LastSpeaks(opt: Options, ps: seq<Packet>, k: nat)
    requires k <= |ps| && LastKept(opt, ps, k).Some?
    ensures var last := LastKept(opt, ps, k).value;
            Speaker(opt, ps, k, Width(opt, ps, last)) == Some(last)
    decreases k
  {
    if Skips(opt, ps[k - 1].h) {
      LastSpeaks(opt, ps, k - 1);
    }
    hide Width;
  }

  /** Up to the first stale packet, a packet agrees exactly if it is not stale. */
  lemma AgreesUnlessStale(opt: Options, ps: seq<Packet>, k: nat)
    requires k < |ps| && AllUsable(ps) && Separated(opt, ps) && NoneStale(opt, ps, k)
    ensures Agrees(opt, ps, k) <==> !Stale(opt, ps, k)
  {
    if !Skips(opt, ps[k].h) {
      var l, last := LineAt(opt, ps, k), LastKept(opt, ps, k);
      LineSays(opt, ps, k);
      LineIsWidth(opt, ps, k);
      MergedSays(opt, ps, l, last, k);
      if last.Some? {
        SpeakerSays(opt, ps, k, Width(opt, ps, k));
        LastSpeaks(opt, ps, k);
        var who := Speaker(opt, ps, k, Width(opt, ps, k)).value;
        AgreesIff(opt, ps, k, who, SriOn(opt, ps, k, Width(opt, ps, k)));
      }
      AgreesIff(opt, ps, k, k, MergedSri(l, ps[k].h));
      hide HeaderAgrees, NewSri, MergedSri, LineAt, Width, Says, Separated;
    }
  }

  lemma AgreesIff(opt: Options, ps: seq<Packet>, k: nat, who: nat, sri: Sri)
    requires k < |ps| && who < |ps| && AllUsable(ps) && Separated(opt, ps) && ContentOf(sri) == Says(opt, ps, who)
    ensures HeaderAgrees(ps[k].h, sri, Flag(opt, ps, k)) <==> Says(opt, ps, k) == Says(opt, ps, who)
  {
    var x := Says(opt, ps, k).xdelta;
    Livelock.SameIsSame(x);
    assert x.Finite?;
    assert ToldApart(Says(opt, ps, k), Says(opt, ps, who));
    hide SameXdelta, HeaderXdelta, Rate, Flag;
  }

  lemma {:induction false} AllAgreeIff(opt: Options, ps: seq<Packet>, k: nat)
    requires k <= |ps| && AllUsable(ps) && Separated(opt, ps)
    ensures AllAgree(opt, ps, k) <==> NoneStale(opt, ps, k)
    decreases k
  {
    hide Agrees, Stale, Separated, AllUsable;
    if k > 0 {
      AllAgreeIff(opt, ps, k - 1);
      AllButLast(opt, ps, k);
      if NoneStale(opt, ps, k - 1) {
        AgreesUnlessStale(opt, ps, k - 1);
      }
      hide AllAgree, NoneStale;
    }
  }

  lemma AllButLast(opt: Options, ps: seq<Packet>, k: nat)
    requires 0 < k <= |ps| && AllUsable(ps)
    ensures AllAgree(opt, ps, k) <==> AllAgree(opt, ps, k - 1) && Agrees(opt, ps, k - 1)
    ensures NoneStale(opt, ps, k) <==> NoneStale(opt, ps, k - 1) && !Stale(opt, ps, k - 1)
  {
    hide Agrees, Stale;
  }

  // ---- On the streams ---------------------------------------------------------------------------

  /** Does every stream carry the SRI that m packets leave on it? */
  ghost predicate OnStreams(o: Output, opt: Options, ps: seq<Packet>, m: nat)
    requires m <= |ps| && AllUsable(ps)
  {
    o.streams ==> forall bps :: StandardBps(bps) ==> LatestOn(o.log, bps) == Some(SriOn(opt, ps, m, bps))
  }

  ghost predicate OwnInv(s: Proc, ps: seq<Packet>, k: nat, stage: Stage)
    requires k <= |ps| && AllStandard(ps)
  {
    && Stands(s, ps, k, stage)
    && s.out.streams == (LineAt(s.opt, ps, k).seen || stage.Updated?)
    && OnStreams(s.out, s.opt, ps, if stage.Updated? then k + 1 else k)
    && (GovernedOnOwn(s.out.log) <==> AllAgree(s.opt, ps, k))
  }

  /** A write of a packet with this header, at this width and with this knowledge of the device. */
  predicate WrittenFor(w: Written, h: Header, bps: nat, nonConforming: bool) {
    w.h == h && w.bps == bps && w.nonConforming == nonConforming
  }

  /** What a pass does on the streams when no upstream SRI is about. */
  lemma QuietOutput(s: Proc, p: Packet, year: int)
    requires UsableBps(s.trk.bps) && Usable(p) && Quiet(s.ctl)
    ensures var r := Offer(s, p, year);
            var o := CheckOrder(s.trk, s.det, p.h);
            if Skips(s.opt, p.h) || !o.valid || (s.opt.pushOnTtv && o.trk.ttvFlag != p.h.ttv) then
              r.s.out == FlushStreams(s.out) && (r.consumed <==> Skips(s.opt, p.h))
            else if HeaderAgrees(p.h, s.sri, s.det.nonConforming) then
              && r.consumed
              && (s.out.streams && StandardBps(o.trk.bps) ==>
                    exists w :: WrittenFor(w, p.h, o.trk.bps, s.det.nonConforming) && r.s.out == Emit(s.out, Write(w)))
            else
              var sri := MergeHeader(p.h, s.sri, s.det.nonConforming);
              && !r.consumed
              && r.s.out == PushTheSri(if s.out.streams then s.out else CreateStreams(s.out, sri), o.trk.bps, sri)
  {
    hide Check, StepsFor, PushTheSri, FlushStreams, CreateStreams, Delivered, HeaderXdelta, SameXdelta, StampOf, Rate,
         Successor;
    var r, o := Offer(s, p, year), CheckOrder(s.trk, s.det, p.h);
    if r.consumed && !Skips(s.opt, p.h) && s.out.streams && StandardBps(o.trk.bps) {
      var stamp := StampOf(p.h.time, p.h.ttv, o.det.last, s.startOfYear, year).0;
      var d := Delivered(s.ctl.endian, o.trk.bps, p.d);
      var w := Written(p.h, stamp, o.trk.bps, s.ctl.endian, s.det.nonConforming, d);
      assert r.s.out == Emit(s.out, Write(w));
    }
  }

  /** An event's effect on what a stream carries and on whether all writes agree. */
  lemma AppendOwn(log: seq<Event>, e: Event, bps: nat)
    ensures LatestOn(log + [e], bps) ==
            if e.Open? then Some(e.sri) else if e.PushSri? && e.bps == bps then Some(e.pushed) else LatestOn(log, bps)
    ensures GovernedOnOwn(log + [e]) <==>
            GovernedOnOwn(log) && (e.Write? ==> Confirms(LatestOn(log, e.w.bps), e.w.h, e.w.nonConforming))
  {
    assert (log + [e])[..|log|] == log;
    AppendGoverned(log, e);
    hide Confirms, GovernedOnOwn;
  }

  lemma AppendGoverned(log: seq<Event>, e: Event)
    ensures GovernedOnOwn(log + [e]) <==>
            GovernedOnOwn(log) && (e.Write? ==> Confirms(LatestOn(log, e.w.bps), e.w.h, e.w.nonConforming))
  {
    hide Confirms, LatestOn;
    var after := log + [e];
    assert after[..|log|] == log && after[|log|] == e;
    forall i | 0 <= i < |log|
      ensures after[..i] == log[..i] && after[i] == log[i]
    {
    }
    if GovernedOnOwn(after) {
      forall i | 0 <= i < |log| && log[i].Write?
        ensures Confirms(LatestOn(log[..i], log[i].w.bps), log[i].w.h, log[i].w.nonConforming)
      {
        assert after[i].Write?;
      }
    }
  }

  lemma FlushOwn(s: Proc, ps: seq<Packet>, m: nat)
    requires m <= |ps| && AllUsable(ps) && OnStreams(s.out, s.opt, ps, m)
    ensures OnStreams(FlushStreams(s.out), s.opt, ps, m) && FlushStreams(s.out).streams == s.out.streams
    ensures GovernedOnOwn(FlushStreams(s.out).log) <==> GovernedOnOwn(s.out.log)
  {
    AppendOwn(s.out.log, Flush, 8);
    forall bps {
      AppendOwn(s.out.log, Flush, bps);
    }
    hide GovernedOnOwn, LatestOn, SriOn;
  }

  /** A new SRI on the stream of a width, or on all of them if they are opened with it. */
  lemma PushOwn(o: Output, opt: Options, ps: seq<Packet>, k: nat, m: nat)
    requires k < |ps| && k <= m <= k + 1 && AllUsable(ps) && OnStreams(o, opt, ps, m)
    requires var l := LineAt(opt, ps, k);
             && !Skips(opt, ps[k].h) && NewSri(l, ps[k].h) && StandardBps(WidthOf(l, ps[k].h))
             && (if o.streams then l.seen || m == k + 1 else !l.seen)
    ensures var l := LineAt(opt, ps, k);
            var sri := MergedSri(l, ps[k].h);
            var after := PushTheSri(if o.streams then o else CreateStreams(o, sri), WidthOf(l, ps[k].h), sri);
            && after.streams && OnStreams(after, opt, ps, k + 1)
            && (GovernedOnOwn(after.log) <==> GovernedOnOwn(o.log))
  {
    var l := LineAt(opt, ps, k);
    var sri, w := MergedSri(l, ps[k].h), WidthOf(l, ps[k].h);
    var ready := if o.streams then o else CreateStreams(o, sri);
    assert ready.log == if o.streams then o.log else o.log + [Open(sri)];
    AppendOwn(o.log, Open(sri), 8);
    AppendOwn(ready.log, PushSri(w, sri), 8);
    hide GovernedOnOwn, LatestOn, NewSri, MergedSri, WidthOf, LineAt, HeaderAgrees;
    forall bps | StandardBps(bps)
      ensures LatestOn(ready.log + [PushSri(w, sri)], bps) == Some(SriOn(opt, ps, k + 1, bps))
    {
      AppendOwn(o.log, Open(sri), bps);
      AppendOwn(ready.log, PushSri(w, sri), bps);
      NewSriOn(opt, ps, k, bps);
    }
    hide SriOn;
  }

  lemma NewSriOn(opt: Options, ps: seq<Packet>, k: nat, bps: nat)
    requires k < |ps| && AllUsable(ps) && !Skips(opt, ps[k].h) && NewSri(LineAt(opt, ps, k), ps[k].h)
    ensures var l := LineAt(opt, ps, k);
            SriOn(opt, ps, k + 1, bps) ==
              if !l.seen || WidthOf(l, ps[k].h) == bps then MergedSri(l, ps[k].h) else SriOn(opt, ps, k, bps)
  {
    hide NewSri, LineAt, WidthOf, MergedSri;
  }

  /** A write changes no announcement, and it agrees if its stream's SRI does. */
  lemma WriteOwn(s: Proc, ps: seq<Packet>, k: nat, w: Written)
    requires k < |ps| && AllUsable(ps) && OnStreams(s.out, s.opt, ps, k + 1) && s.out.streams
    requires !Skips(s.opt, ps[k].h) && StandardBps(w.bps)
    requires WrittenFor(w, ps[k].h, WidthOf(LineAt(s.opt, ps, k), ps[k].h), Flag(s.opt, ps, k))
    ensures OnStreams(Emit(s.out, Write(w)), s.opt, ps, k + 1)
    ensures GovernedOnOwn(Emit(s.out, Write(w)).log) <==>
            GovernedOnOwn(s.out.log) && Agrees(s.opt, ps, k)
  {
    forall bps {
      AppendOwn(s.out.log, Write(w), bps);
    }
    hide GovernedOnOwn, LatestOn, SriOn, WidthOf, LineAt, HeaderAgrees;
  }

  /** A packet that is skipped or says nothing new leaves the announcements as they are. */
  lemma SameSriOn(opt: Options, ps: seq<Packet>, k: nat)
    requires k < |ps| && AllUsable(ps) && (Skips(opt, ps[k].h) || !NewSri(LineAt(opt, ps, k), ps[k].h))
    ensures forall bps :: SriOn(opt, ps, k + 1, bps) == SriOn(opt, ps, k, bps)
  {
    hide NewSri, LineAt, WidthOf, MergedSri;
  }

  lemma AllAgreeNext(opt: Options, ps: seq<Packet>, k: nat)
    requires k < |ps| && AllUsable(ps)
    ensures AllAgree(opt, ps, k + 1) <==> AllAgree(opt, ps, k) && Agrees(opt, ps, k)
    ensures Skips(opt, ps[k].h) ==> Agrees(opt, ps, k)
  {
    hide SriOn, LineAt, WidthOf, HeaderAgrees;
  }

  lemma PassOwn(s: Proc, ps: seq<Packet>, k: nat, year: int, stage: Stage) returns (next: Stage)
    requires UsableBps(s.trk.bps) && k < |ps| && AllStandard(ps) && OwnInv(s, ps, k, stage)
    requires s.trk.first || StandardBps(s.trk.bps)
    ensures var r := Offer(s, ps[k], year);
            && OwnInv(r.s, ps, if r.consumed then k + 1 else k, next)
            && (r.s.trk.first || StandardBps(r.s.trk.bps))
  {
    hide Offer, StandardBps, AllAgree, HeaderAgrees, MergeHeader, ExpectHeader, GovernedOnOwn, OnStreams, Check,
         Stands, LineAt, WidthOf, NewSri, Successor, PushTheSri, FlushStreams, CreateStreams, MergedSri, BitsPerSample;
    var p, r := ps[k], Offer(s, ps[k], year);
    var o := CheckOrder(s.trk, s.det, p.h);
    var m := if stage.Updated? then k + 1 else k;
    FieldGivesWidth(p.h);
    PassInLine(s, ps, k, year, stage);
    QuietIs(s, ps, k, stage);
    QuietPass(s, p, year);
    QuietOutput(s, p, year);
    if r.consumed {
      next := Settled;
      if Skips(s.opt, p.h) {
        SkippedOwn(s, ps, k, stage);
      } else {
        WrittenOwn(s, ps, k, r.s.out, stage);
      }
    } else if !o.valid {
      next := Lost;
      FlushOwn(s, ps, m);
    } else if s.opt.pushOnTtv && o.trk.ttvFlag != p.h.ttv {
      next := stage;
      FlushOwn(s, ps, m);
    } else {
      next := Updated;
      PushOwn(s.out, s.opt, ps, k, m);
    }
  }

  /** What standing at packet k says about the state. */
  lemma QuietIs(s: Proc, ps: seq<Packet>, k: nat, stage: Stage)
    requires k < |ps| && AllUsable(ps) && Stands(s, ps, k, stage)
    ensures Quiet(s.ctl) && s.det.nonConforming == Flag(s.opt, ps, k)
    ensures Skips(s.opt, ps[k].h) ==> stage.Settled?
    ensures stage.Updated? ==> NewSri(LineAt(s.opt, ps, k), ps[k].h)
    ensures !Skips(s.opt, ps[k].h) ==>
              HeaderAgrees(ps[k].h, s.sri, s.det.nonConforming) && !stage.Updated? ==>
              !NewSri(LineAt(s.opt, ps, k), ps[k].h)
    ensures !stage.Updated? && !Skips(s.opt, ps[k].h) ==>
              MergeHeader(ps[k].h, s.sri, s.det.nonConforming) == MergedSri(LineAt(s.opt, ps, k), ps[k].h)
    ensures stage.Updated? ==>
              MergeHeader(ps[k].h, s.sri, s.det.nonConforming) == MergedSri(LineAt(s.opt, ps, k), ps[k].h)
  {
    var l, h := LineAt(s.opt, ps, k), ps[k].h;
    if stage.Updated? {
      Idempotent(l.det, WidthOf(l, h), h, l.sri, l.det.nonConforming);
    }
    hide LineAt, HeaderAgrees, MergeHeader, ExpectHeader;
  }

  lemma SkippedOwn(s: Proc, ps: seq<Packet>, k: nat, stage: Stage)
    requires k < |ps| && AllStandard(ps) && OwnInv(s, ps, k, stage) && stage.Settled? && Skips(s.opt, ps[k].h)
    ensures var out := FlushStreams(s.out);
            && OnStreams(out, s.opt, ps, k + 1) && (GovernedOnOwn(out.log) <==> AllAgree(s.opt, ps, k + 1))
            && out.streams == LineAt(s.opt, ps, k + 1).seen
  {
    AllAgreeNext(s.opt, ps, k);
    FlushOwn(s, ps, k);
    SameSriOn(s.opt, ps, k);
    OnSame(FlushStreams(s.out), s.opt, ps, k);
    hide AllAgree, Agrees, GovernedOnOwn, OnStreams, Stands;
  }

  lemma WrittenOwn(s: Proc, ps: seq<Packet>, k: nat, out: Output, stage: Stage)
    requires k < |ps| && AllStandard(ps) && OwnInv(s, ps, k, stage) && !Skips(s.opt, ps[k].h)
    requires stage.Updated? || !NewSri(LineAt(s.opt, ps, k), ps[k].h)
    requires var l, h := LineAt(s.opt, ps, k), ps[k].h;
             && StandardBps(WidthOf(l, h))
             && (s.out.streams ==>
                   exists w :: WrittenFor(w, h, WidthOf(l, h), Flag(s.opt, ps, k)) && out == Emit(s.out, Write(w)))
    ensures OnStreams(out, s.opt, ps, k + 1) && (GovernedOnOwn(out.log) <==> AllAgree(s.opt, ps, k + 1))
    ensures out.streams == LineAt(s.opt, ps, k + 1).seen
  {
    hide Stands, OnStreams, GovernedOnOwn, AllAgree, Agrees, NewSri, WidthOf, LineAt, StandardBps, HeaderAgrees, SriOn;
    var l, h := LineAt(s.opt, ps, k), ps[k].h;
    AllAgreeNext(s.opt, ps, k);
    NextSri(s.opt, ps, k + 1);
    FirstIsNew(h);
    if !stage.Updated? {
      SameSriOn(s.opt, ps, k);
      OnSame(s.out, s.opt, ps, k);
    }
    var w :| WrittenFor(w, h, WidthOf(l, h), Flag(s.opt, ps, k)) && out == Emit(s.out, Write(w));
    WriteOwn(s, ps, k, w);
  }

  /** The first header always says something new: the initial SRI has no mode. */
  lemma FirstIsNew(h: Header)
    ensures NewSri(BLANK, h)
  {
    hide HeaderXdelta, SameXdelta;
  }

  lemma OnSame(o: Output, opt: Options, ps: seq<Packet>, k: nat)
    requires k < |ps| && AllUsable(ps) && forall bps :: SriOn(opt, ps, k + 1, bps) == SriOn(opt, ps, k, bps)
    ensures OnStreams(o, opt, ps, k + 1) <==> OnStreams(o, opt, ps, k)
  {
    hide SriOn, LatestOn;
  }

  lemma NextOwn(at: Position, ps: seq<Packet>, year: int, stage: Stage) returns (next: Stage)
    requires Ready(at, ps) && AllStandard(ps) && OwnInv(at.s, ps, at.k, stage)
    requires at.s.trk.first || StandardBps(at.s.trk.bps)
    ensures var r := Next(at, ps, Pass(year));
            OwnInv(r.s, ps, r.k, next) && (r.s.trk.first || StandardBps(r.s.trk.bps))
  {
    hide Offer, OwnInv, AllStandard, UsableBps, StandardBps;
    next := stage;
    if at.k < |ps| {
      next := PassOwn(at.s, ps, at.k, year, stage);
    }
  }

  lemma {:induction false} RunOwn(at: Position, ps: seq<Packet>, years: seq<int>, stage: Stage) returns (last: Stage)
    requires Ready(at, ps) && AllStandard(ps) && OwnInv(at.s, ps, at.k, stage)
    requires at.s.trk.first || StandardBps(at.s.trk.bps)
    ensures var r := Run(at, ps, Passes(years)); OwnInv(r.s, ps, r.k, last)
    decreases |years|
  {
    hide Next, OwnInv, AllStandard, Ready, StandardBps;
    last := stage;
    if years != [] {
      assert Passes(years)[1..] == Passes(years[1..]);
      var next := NextOwn(at, ps, years[0], stage);
      last := RunOwn(Next(at, ps, Pass(years[0])), ps, years[1..], next);
    }
  }

  /**
    What the streams carry is what the fold says, for every stream of packets of standard widths:
    all payloads agree with their own stream's SRI exactly if all packets do.
   */
  lemma OwnStreamsFollow(setup: Setup, ps: seq<Packet>, years: seq<int>)
    requires AllStandard(ps)
    ensures var r := Run(Position(Fresh(setup), 0), ps, Passes(years));
            GovernedOnOwn(r.s.out.log) <==> AllAgree(setup.opt, ps, r.k)
  {
    var at := Position(Fresh(setup), 0);
    assert Stands(at.s, ps, 0, Settled);
    var last := RunOwn(at, ps, years, Settled);
    hide Run, Fresh, AllAgree, GovernedOnOwn, Stands, OnStreams;
    assert Fresh(setup).opt == setup.opt by { FreshOpt(setup); }
  }

  lemma FreshOpt(setup: Setup)
    ensures Fresh(setup).opt == setup.opt
  {
  }

  /**
    The exact condition, on the packets alone: every payload is written under an SRI of its own
    stream that agrees with its header if and only if no packet changes the width and says the same
    as the packet before it while the last packet of its own width, or the very first packet if
    there was none, said something else. What a packet says is its mode and its header's sample
    period, or half of it once the device is known to be non-conforming.
   */
  lemma OwnStreamsCurrentIff(setup: Setup, ps: seq<Packet>, years: seq<int>)
    requires AllStandard(ps) && Separated(setup.opt, ps)
    ensures var r := Run(Position(Fresh(setup), 0), ps, Passes(years));
            GovernedOnOwn(r.s.out.log) <==> NoneStale(setup.opt, ps, r.k)
  {
    OwnStreamsFollow(setup, ps, years);
    var r := Run(Position(Fresh(setup), 0), ps, Passes(years));
    AllAgreeIff(setup.opt, ps, r.k);
    hide Run, Fresh, AllAgree, NoneStale, GovernedOnOwn;
  }

  // ---- Streams that are never stale, and one that is ---------------------------------------------

  lemma {:induction false} WidthOfAll(opt: Options, ps: seq<Packet>, k: nat, bps: nat)
    requires k < |ps| && OfWidth(ps, bps)
    ensures Width(opt, ps, k) == bps
    decreases k
  {
    var last := LastKept(opt, ps, k);
    if last.Some? {
      WidthOfAll(opt, ps, last.value, bps);
    }
  }

  lemma OneWidthIsNeverStale(opt: Options, ps: seq<Packet>, bps: nat)
    requires OfWidth(ps, bps)
    ensures NoneStale(opt, ps, |ps|)
  {
    forall k: nat | k < |ps| {
      WidthOfAll(opt, ps, k, bps);
    }
    hide Says, Width, OfWidth, Speaker;
  }

  lemma OneContentIsNeverStale(opt: Options, ps: seq<Packet>)
    requires AllUsable(ps)
    requires forall i, j :: 0 <= i < |ps| && 0 <= j < |ps| ==> Says(opt, ps, i) == Says(opt, ps, j)
    ensures NoneStale(opt, ps, |ps|)
  {
    hide Says, Width;
  }

  /** No complex packet has a time tag, so no device is found non-conforming. */
  ghost predicate NoTaggedComplex(ps: seq<Packet>) {
    forall i :: 0 <= i < |ps| ==> !(ps[i].h.cx && ps[i].h.ttv)
  }

  lemma {:induction false} NeverAdapts(opt: Options, ps: seq<Packet>, k: nat)
    requires k <= |ps| && AllUsable(ps) && NoTaggedComplex(ps)
    ensures !Flag(opt, ps, k)
  {
    if k > 0 {
      NeverAdapts(opt, ps, k - 1);
      var l, h := LineAt(opt, ps, k - 1), ps[k - 1].h;
      if !Skips(opt, h) {
        StaysConforming(l, h);
      }
      hide Consume;
    }
  }

  lemma StaysConforming(l: Line, h: Header)
    requires UsableBps(WidthOf(l, h)) && !l.det.nonConforming && !(h.cx && h.ttv)
    ensures !Consume(l, h).det.nonConforming
  {
    hide StepsFor, Rate, MergedSri, HeaderAgrees;
  }

  /** One rate and one mode in the headers are enough if no device can be found non-conforming. */
  lemma OneHeaderIsNeverStale(opt: Options, ps: seq<Packet>)
    requires AllUsable(ps) && NoTaggedComplex(ps)
    requires forall i, j :: 0 <= i < |ps| && 0 <= j < |ps| ==>
               Rate(ps[i].h) == Rate(ps[j].h) && ps[i].h.cx == ps[j].h.cx
    ensures NoneStale(opt, ps, |ps|)
  {
    forall i: nat, j: nat | i < |ps| && j < |ps|
      ensures Says(opt, ps, i) == Says(opt, ps, j)
    {
      NeverAdapts(opt, ps, i);
      NeverAdapts(opt, ps, j);
      hide Flag, Rate;
    }
    OneContentIsNeverStale(opt, ps);
  }

  lemma SlowAndFast(seqNo: u16, bps: nat)
    ensures HeaderXdelta(Plain(seqNo, bps, SLOW), false) == Finite(0.134217728)
    ensures HeaderXdelta(Plain(seqNo, bps, FAST), false) == Finite(0.067108864)
  {
    assert Rate(Plain(seqNo, bps, SLOW)) == 125_000_000.0 / 16_777_216.0;
    assert Rate(Plain(seqNo, bps, FAST)) == 125_000_000.0 / 8_388_608.0;
  }

  /** Two 16-bit packets of which the second doubles the rate, and then, after a loss, an 8-bit one. */
  function Narrowing(d: seq<byte>): seq<Packet> {
    [Packet(Plain(0, 16, SLOW), d), Packet(Plain(1, 16, FAST), d), Packet(Plain(5, 8, FAST), d)]
  }

  /**
    A stream that has a stale packet: the width changes while the rate does not, and the first
    write on the other stream goes out under the sample period announced when the streams were
    opened. Every run that consumes it shows this, and there is one.
   */
  lemma WidthChangeGoesStale(setup: Setup, d: seq<byte>)
    requires |d| == PAYLOAD && !setup.opt.waitForTtv
    ensures var ps := Narrowing(d);
            && AllStandard(ps) && Separated(setup.opt, ps) && Stale(setup.opt, ps, 2)
            && (forall years :: var r := Run(Position(Fresh(setup), 0), ps, Passes(years));
                  r.k == |ps| ==> !GovernedOnOwn(r.s.out.log))
            && (exists years :: Run(Position(Fresh(setup), 0), ps, Passes(years)).k == |ps|)
  {
    var ps := Narrowing(d);
    NarrowingSays(setup.opt, d);
    NarrowingIsStale(setup.opt, d);
    StaleRuns(setup, ps, 2);
  }

  /** Every run that consumes a stream with a stale packet shows it, and there is one. */
  lemma StaleRuns(setup: Setup, ps: seq<Packet>, k: nat)
    requires AllStandard(ps) && Separated(setup.opt, ps) && k < |ps| && Stale(setup.opt, ps, k)
    ensures forall years :: var r := Run(Position(Fresh(setup), 0), ps, Passes(years));
              r.k == |ps| ==> !GovernedOnOwn(r.s.out.log)
    ensures exists years :: Run(Position(Fresh(setup), 0), ps, Passes(years)).k == |ps|
  {
    hide Run, GovernedOnOwn, Stale, Rate, Says, AllStandard, Passes;
    StandardIsUsable(ps);
    forall years | Run(Position(Fresh(setup), 0), ps, Passes(years)).k == |ps|
      ensures !GovernedOnOwn(Run(Position(Fresh(setup), 0), ps, Passes(years)).s.out.log)
    {
      OwnStreamsCurrentIff(setup, ps, years);
    }
    var years := Livelock.CanBeConsumed(setup, ps);
  }

  lemma NarrowingSays(opt: Options, d: seq<byte>)
    requires |d| == PAYLOAD
    ensures var ps := Narrowing(d);
            && AllStandard(ps) && Separated(opt, ps)
            && Says(opt, ps, 0) == Content(Finite(0.134217728), 0)
            && Says(opt, ps, 1) == Says(opt, ps, 2) == Content(Finite(0.067108864), 0)
  {
    hide HeaderXdelta, Rate, Flag;
    var ps := Narrowing(d);
    assert AllStandard(ps) && NoTaggedComplex(ps);
    SlowAndFast(0, 16);
    SlowAndFast(1, 16);
    SlowAndFast(5, 8);
    hide BitsPerSample, StandardBps, AllUsable;
    NeverAdapts(opt, ps, 0);
    NeverAdapts(opt, ps, 1);
    NeverAdapts(opt, ps, 2);
  }

  lemma NarrowingIsStale(opt: Options, d: seq<byte>)
    requires |d| == PAYLOAD && !opt.waitForTtv && AllUsable(Narrowing(d))
    requires var ps := Narrowing(d);
             Says(opt, ps, 0) != Says(opt, ps, 1) && Says(opt, ps, 1) == Says(opt, ps, 2)
    ensures Stale(opt, Narrowing(d), 2)
  {
    hide Says, Flag;
    var ps := Narrowing(d);
    assert LastKept(opt, ps, 1) == Some(0) && LastKept(opt, ps, 2) == Some(1);
    assert Successor(0) == 1 && Successor(1) == 2;
    assert Width(opt, ps, 0) == 16 && Width(opt, ps, 1) == 16 && Width(opt, ps, 2) == 8;
    assert Speaker(opt, ps, 1, 8) == Some(0) && Speaker(opt, ps, 2, 8) == Some(0);
  }
}
