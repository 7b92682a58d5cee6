/**
  The SRI that goes with the data. What happens on the streams is well ordered, and no payload is
  written while the SRI last announced says something else than the packet's header.
 */
module Announcements {

  import opened ByteOrder
  import opened SddsPackets
  import opened SlipDetector
  import opened TimeStamps
  import opened Processor

  /** Are the streams open after this log? */
  predicate Opened(log: seq<Event>) {
    log != [] &&
    match log[|log| - 1]
    case Open(_) => true
    case Close => false
    case _ => Opened(log[..|log| - 1])
  }

  /** The SRI last announced, by opening the streams or by a push on one of them. */
  function Latest(log: seq<Event>): Option<Sri> {
    if log == [] then None
    else
      match log[|log| - 1]
      case Open(sri) => Some(sri)
      case PushSri(_, sri) => Some(sri)
      case _ => Latest(log[..|log| - 1])
  }

  /** The SRI last announced on the stream for one sample width. */
  function LatestOn(log: seq<Event>, bps: nat): Option<Sri> {
    if log == [] then None
    else
      var e := log[|log| - 1];
      if e.Open? then Some(e.sri)
      else if e.PushSri? && e.bps == bps then Some(e.pushed)
      else LatestOn(log[..|log| - 1], bps)
  }

  /** May the event happen on streams that are open, or not? */
  predicate Allowed(open: bool, e: Event) {
    if e.Open? then !open else open
  }

  /** Nothing is opened twice, and nothing is written, announced, flushed or closed unless open. */
  ghost predicate Proper(log: seq<Event>) {
    forall i :: 0 <= i < |log| ==> Allowed(Opened(log[..i]), log[i])
  }

  /** Has an SRI been announced that agrees with the header? */
  predicate Confirms(announced: Option<Sri>, h: Header, nonConforming: bool) {
    announced.Some? && HeaderAgrees(h, announced.value, nonConforming)
  }

  /**
    Every payload was written while the SRI last announced agreed with its header: at the sample
    period the header gives or, if the device was known to be non-conforming, at half of it.
   */
  ghost predicate Governed(log: seq<Event>) {
    forall i :: 0 <= i < |log| && log[i].Write? ==>
      Confirms(Latest(log[..i]), log[i].w.h, log[i].w.nonConforming)
  }

  /** Once a payload was written for a non-conforming device all later ones are, and the device is one. */
  ghost predicate FlagsRise(log: seq<Event>, nonConforming: bool) {
    && (forall i :: 0 <= i < |log| && log[i].Write? && log[i].w.nonConforming ==> nonConforming)
    && forall i, j :: 0 <= i < j < |log| && log[i].Write? && log[j].Write? && log[i].w.nonConforming ==>
         log[j].w.nonConforming
  }

  /** An SRI but for the stream identifier, which unsetting the upstream SRI resets silently. */
  function Content(sri: Sri): Sri {
    sri.(streamId := "")
  }

  /** The streams' state is the log's, and the SRI last announced is the current one. */
  ghost predicate Announced(o: Output, sri: Sri) {
    && Proper(o.log)
    && o.streams == Opened(o.log)
    && (o.streams ==> Latest(o.log).Some? && Content(Latest(o.log).value) == Content(sri))
  }

  lemma AppendEvent(log: seq<Event>, e: Event)
    requires Proper(log) && Allowed(Opened(log), e)
    ensures Proper(log + [e])
    ensures Opened(log + [e]) <==> !e.Close?
    ensures Latest(log + [e]) == if e.Open? then Some(e.sri) else if e.PushSri? then Some(e.pushed) else Latest(log)
    ensures Governed(log) && (e.Write? ==> Confirms(Latest(log), e.w.h, e.w.nonConforming)) ==> Governed(log + [e])
    ensures forall nc :: FlagsRise(log, nc) && (e.Write? ==> e.w.nonConforming == nc) ==> FlagsRise(log + [e], nc)
  {
    assert (log + [e])[..|log|] == log;
    AppendProper(log, e);
    if Governed(log) && (e.Write? ==> Confirms(Latest(log), e.w.h, e.w.nonConforming)) {
      AppendConfirmed(log, e);
    }
    forall nc | FlagsRise(log, nc) && (e.Write? ==> e.w.nonConforming == nc)
      ensures FlagsRise(log + [e], nc)
    {
    }
    hide Confirms, Governed, Proper, FlagsRise;
  }

  lemma AppendProper(log: seq<Event>, e: Event)
    requires Proper(log) && Allowed(Opened(log), e)
    ensures Proper(log + [e])
  {
    hide Opened, Allowed;
    var after := log + [e];
    forall i | 0 <= i < |after|
      ensures Allowed(Opened(after[..i]), after[i])
    {
      assert after[..i] == if i < |log| then log[..i] else log;
    }
  }

  lemma AppendConfirmed(log: seq<Event>, e: Event)
    requires Governed(log) && (e.Write? ==> Confirms(Latest(log), e.w.h, e.w.nonConforming))
    ensures Governed(log + [e])
  {
    hide Latest, Confirms;
    var after := log + [e];
    forall i | 0 <= i < |after| && after[i].Write?
      ensures Confirms(Latest(after[..i]), after[i].w.h, after[i].w.nonConforming)
    {
      assert after[..i] == if i < |log| then log[..i] else log;
    }
  }

  /** What an operation on the streams that writes nothing keeps of what was written. */
  ghost predicate Keeps(o: Output, after: Output) {
    && (Governed(o.log) ==> Governed(after.log))
    && forall nc :: FlagsRise(o.log, nc) ==> FlagsRise(after.log, nc)
  }

  lemma FlushAnnounced(o: Output, sri: Sri)
    requires Announced(o, sri)
    ensures Announced(FlushStreams(o), sri) && Keeps(o, FlushStreams(o))
  {
    if o.streams {
      AppendEvent(o.log, Flush);
    }
    hide Governed, FlagsRise;
  }

  lemma CreateAnnounced(o: Output, prior: Sri, sri: Sri)
    requires Announced(o, prior)
    ensures Announced(CreateStreams(o, sri), sri) && Keeps(o, CreateStreams(o, sri))
  {
    if o.streams {
      AppendEvent(o.log, Close);
    }
    AppendEvent(CloseStreams(o).log, Open(sri));
    hide Governed, FlagsRise;
  }

  lemma PushAnnounced(o: Output, prior: Sri, bps: nat, sri: Sri)
    requires Announced(o, prior) && o.streams && StandardBps(bps)
    ensures Announced(PushTheSri(o, bps, sri), sri) && Keeps(o, PushTheSri(o, bps, sri))
  {
    AppendEvent(o.log, PushSri(bps, sri));
    hide Governed, FlagsRise;
  }

  /** After the merges the streams are open, and unless a push is due the SRI is the announced one. */
  lemma UpdateAnnounced(s: Proc, h: Header)
    requires Announced(s.out, s.sri)
    ensures var m := UpdateSri(s.sri, s.ctl, s.out, h, s.det.nonConforming);
            && m.out.streams && Keeps(s.out, m.out)
            && (exists before :: Announced(m.out, before) && (!m.changed ==> before == m.sri))
            && (!m.changed && !m.ctl.use ==> HeaderAgrees(h, m.sri, s.det.nonConforming))
  {
    var t := TakeUpstream(s.sri, s.ctl, s.out);
    var m := UpdateSri(s.sri, s.ctl, s.out, h, s.det.nonConforming);
    CreateAnnounced(s.out, s.sri, t.sri);
    hide HeaderXdelta, SameXdelta, HeaderMode, Announced, Governed, FlagsRise;
    var before := if t.out == s.out then s.sri else t.sri;
    assert Announced(t.out, before);
    if !t.out.streams {
      CreateAnnounced(t.out, before, m.sri);
      assert Announced(m.out, m.sri);
    } else {
      assert Announced(m.out, before);
    }
  }

  /** No upstream SRI claims priority over the header, now or when a waiting one is taken. */
  predicate HeaderRules(c: Control) {
    !c.use && !c.given.priority
  }

  ghost predicate SriInv(s: Proc) {
    && Announced(s.out, s.sri) && FlagsRise(s.out.log, s.det.nonConforming)
    && (s.trk.first || StandardBps(s.trk.bps))
  }

  ghost predicate GovernedBy(s: Proc) {
    HeaderRules(s.ctl) && Governed(s.out.log)
  }

  lemma WriteAnnounced(o: Output, sri: Sri, bps: nat, order: Endian, stamp: Stamp, met: bool, p: Packet)
    requires Announced(o, sri) && o.streams && |p.d| == PAYLOAD
    ensures var after := WritePacket(o, bps, order, stamp, met, p);
            && Announced(after, sri)
            && (Governed(o.log) && HeaderAgrees(p.h, sri, met) ==> Governed(after.log))
            && (FlagsRise(o.log, met) ==> FlagsRise(after.log, met))
  {
    hide HeaderXdelta, SameXdelta, Delivered;
    if StandardBps(bps) {
      AppendEvent(o.log, Write(Written(p.h, stamp, bps, order, met, Delivered(order, bps, p.d))));
    }
    hide Governed, FlagsRise;
  }

  lemma FlagMayRise(log: seq<Event>, from: bool, to: bool)
    requires FlagsRise(log, from) && (from ==> to)
    ensures FlagsRise(log, to)
  {
  }

  lemma UpdateKeepsRules(s: Proc, h: Header)
    ensures HeaderRules(s.ctl) ==> HeaderRules(UpdateSri(s.sri, s.ctl, s.out, h, s.det.nonConforming).ctl)
  {
    hide CreateStreams, MergeHeader, HeaderAgrees, SameSri;
  }

  lemma OfferOrderedAnnounces(s: Proc, p: Packet, clockYear: int)
    requires SriInv(s) && StandardBps(s.trk.bps) && Usable(p)
    ensures var r := OfferOrdered(s, p, clockYear).s;
            SriInv(r) && (GovernedBy(s) ==> GovernedBy(r))
  {
    hide UpdateSri, ExpectHeader, Check, StampOf, Announced, Governed, FlagsRise, HeaderAgrees, PushTheSri, WritePacket;
    var r := OfferOrdered(s, p, clockYear).s;
    var m := UpdateSri(s.sri, s.ctl, s.out, p.h, s.det.nonConforming);
    UpdateAnnounced(s, p.h);
    UpdateKeepsRules(s, p.h);
    KeepsDevice(s.det, s.trk.bps, p.h);
    if m.changed {
      var before :| Announced(m.out, before);
      PushAnnounced(m.out, before, s.trk.bps, m.sri);
    } else {
      var stamp := StampOf(p.h.time, p.h.ttv, s.det.last, s.startOfYear, clockYear).0;
      WriteAnnounced(m.out, m.sri, s.trk.bps, m.ctl.endian, stamp, s.det.nonConforming, p);
    }
    FlagMayRise(r.out.log, s.det.nonConforming, r.det.nonConforming);
  }

  lemma OfferAnnounces(s: Proc, p: Packet, clockYear: int)
    requires SriInv(s) && UsableBps(s.trk.bps) && Usable(p) && StandardBps(BitsPerSample(p.h))
    ensures var r := Offer(s, p, clockYear).s;
            SriInv(r) && (GovernedBy(s) ==> GovernedBy(r))
  {
    hide OfferOrdered, ExpectHeader, FlushStreams, Announced, Governed, FlagsRise;
    FlushAnnounced(s.out, s.sri);
    KeepsDevice(s.det, BitsPerSample(p.h), p.h);
    if !Skips(s.opt, p.h) {
      var o := CheckOrder(s.trk, s.det, p.h);
      if o.valid {
        OfferOrderedAnnounces(s.(trk := o.trk, det := o.det), p, clockYear);
      }
    }
  }

  /** No upstream SRI that arrives claims priority over the header. */
  ghost predicate NoPriority(acts: seq<Act>) {
    forall i :: 0 <= i < |acts| && acts[i].Upcall? && acts[i].e.SetUpstream? ==> !acts[i].e.u.priority
  }

  lemma {:induction false} RunAnnounces(at: Position, ps: seq<Packet>, acts: seq<Act>)
    requires Ready(at, ps) && AllStandard(ps) && SriInv(at.s)
    ensures SriInv(Run(at, ps, acts).s)
    ensures NoPriority(acts) && GovernedBy(at.s) ==> GovernedBy(Run(at, ps, acts).s)
    decreases |acts|
  {
    if acts != [] {
      if acts[0].Pass? && at.k < |ps| {
        OfferAnnounces(at.s, ps[at.k], acts[0].clockYear);
      }
      hide Offer, Proper, Governed, FlagsRise;
      RunAnnounces(Next(at, ps, acts[0]), ps, acts[1..]);
    }
  }

  /**
    Over whole runs the streams are used properly: never twice opened, never used while closed.
    The SRI last announced is the current one, and unless upstream takes priority every payload
    was written under an announced mode and sample period that agree with its own header, halved
    if the device was known to be non-conforming when the packet came. Once it is, it stays so.
   */
  lemma SriGovernsData(setup: Setup, ps: seq<Packet>, acts: seq<Act>)
    requires AllStandard(ps)
    ensures var s := Run(Position(Fresh(setup), 0), ps, acts).s;
            && Proper(s.out.log) && s.out.streams == Opened(s.out.log)
            && (s.out.streams ==> Latest(s.out.log).Some? && Content(Latest(s.out.log).value) == Content(s.sri))
            && FlagsRise(s.out.log, s.det.nonConforming)
            && (NoPriority(acts) ==> Governed(s.out.log))
  {
    RunAnnounces(Position(Fresh(setup), 0), ps, acts);
    hide Run;
  }

  // ---- One stream for each width ----------------------------------------------------------------

  /** Every push and every write is on the stream for this width. */
  ghost predicate AllOn(log: seq<Event>, bps: nat) {
    forall i :: 0 <= i < |log| ==>
      && (log[i].PushSri? ==> log[i].bps == bps)
      && (log[i].Write? ==> log[i].w.bps == bps)
  }

  lemma {:induction false} OwnStreamIsCurrent(log: seq<Event>, bps: nat)
    requires AllOn(log, bps)
    ensures LatestOn(log, bps) == Latest(log)
  {
    if log != [] {
      OwnStreamIsCurrent(log[..|log| - 1], bps);
    }
  }

  lemma UpdateStaysOn(sri: Sri, c: Control, o: Output, h: Header, bps: nat)
    requires AllOn(o.log, bps)
    ensures AllOn(UpdateSri(sri, c, o, h, false).out.log, bps)
    ensures AllOn(UpdateSri(sri, c, o, h, true).out.log, bps)
  {
    hide HeaderAgrees, MergeHeader, HeaderXdelta;
  }

  lemma OfferOrderedStaysOn(s: Proc, p: Packet, clockYear: int, bps: nat)
    requires UsableBps(s.trk.bps) && Usable(p)
    requires AllOn(s.out.log, bps) && s.trk.bps == bps
    ensures var r := OfferOrdered(s, p, clockYear).s;
            AllOn(r.out.log, bps) && r.trk.first == s.trk.first && r.trk.bps == bps
  {
    UpdateStaysOn(s.sri, s.ctl, s.out, p.h, bps);
    hide UpdateSri, Delivered, StampOf, Check, ExpectHeader;
  }

  lemma OfferStaysOn(s: Proc, p: Packet, clockYear: int, bps: nat)
    requires UsableBps(s.trk.bps) && Usable(p) && BitsPerSample(p.h) == bps
    requires AllOn(s.out.log, bps) && (s.trk.first || s.trk.bps == bps)
    ensures var r := Offer(s, p, clockYear).s;
            AllOn(r.out.log, bps) && (r.trk.first || r.trk.bps == bps)
  {
    hide OfferOrdered, ExpectHeader;
    var o := CheckOrder(s.trk, s.det, p.h);
    if o.valid {
      OfferOrderedStaysOn(s.(trk := o.trk, det := o.det), p, clockYear, bps);
    }
  }

  lemma {:induction false} RunStaysOn(at: Position, ps: seq<Packet>, acts: seq<Act>, bps: nat)
    requires Ready(at, ps) && OfWidth(ps, bps) && AllOn(at.s.out.log, bps) && (at.s.trk.first || at.s.trk.bps == bps)
    ensures AllOn(Run(at, ps, acts).s.out.log, bps)
    decreases |acts|
  {
    if acts != [] {
      if acts[0].Pass? && at.k < |ps| {
        OfferStaysOn(at.s, ps[at.k], acts[0].clockYear, bps);
      }
      hide Offer, OfWidth, AllOn;
      RunStaysOn(Next(at, ps, acts[0]), ps, acts[1..], bps);
    }
  }

  /** Every payload was written while the SRI last announced on its own stream agreed with its header. */
  ghost predicate GovernedOnOwn(log: seq<Event>) {
    forall i :: 0 <= i < |log| && log[i].Write? ==>
      Confirms(LatestOn(log[..i], log[i].w.bps), log[i].w.h, log[i].w.nonConforming)
  }

  /** With one sample width the SRI on the stream written to is always up to date. */
  lemma OneWidthIsGoverned(setup: Setup, ps: seq<Packet>, acts: seq<Act>, bps: nat)
    requires OfWidth(ps, bps) && StandardBps(bps) && NoPriority(acts)
    ensures GovernedOnOwn(Run(Position(Fresh(setup), 0), ps, acts).s.out.log)
  {
    var at := Position(Fresh(setup), 0);
    SriGovernsData(setup, ps, acts);
    RunStaysOn(at, ps, acts, bps);
    var log := Run(at, ps, acts).s.out.log;
    hide Run, HeaderAgrees, Latest, LatestOn;
    forall i | 0 <= i < |log| && log[i].Write?
      ensures LatestOn(log[..i], log[i].w.bps) == Latest(log[..i])
    {
      OwnStreamIsCurrent(log[..i], bps);
    }
  }
}
