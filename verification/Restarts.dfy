/**
  One run of the thread after another. The log goes on where the run before left it, with the
  streams closed, and what the new run adds to it has the properties of a first run.
 */
module Restarts {

  import opened ByteOrder
  import opened SddsPackets
  import opened SlipDetector
  import opened Processor
  import opened Sequences
  import Announcements
  import Payloads
  import Segments

  /** The same state with more events before those in its log. */
  function Behind(log: seq<Event>, s: Proc): Proc {
    s.(out := s.out.(log := log + s.out.log))
  }

  /** What is appended to the log does not depend on what is in it. */
  lemma OutputBehind(log: seq<Event>, o: Output, e: Event, sri: Sri)
    ensures var b := o.(log := log + o.log);
            && Emit(b, e) == Emit(o, e).(log := log + Emit(o, e).log)
            && FlushStreams(b) == FlushStreams(o).(log := log + FlushStreams(o).log)
            && CloseStreams(b) == CloseStreams(o).(log := log + CloseStreams(o).log)
            && CreateStreams(b, sri) == CreateStreams(o, sri).(log := log + CreateStreams(o, sri).log)
  {
    var c := CloseStreams(o);
    assert log + (o.log + [e]) == log + o.log + [e];
    assert log + (o.log + [Flush]) == log + o.log + [Flush];
    assert log + (o.log + [Close]) == log + o.log + [Close];
    assert log + (c.log + [Open(sri)]) == log + c.log + [Open(sri)];
  }

  lemma UpdateBehind(log: seq<Event>, s: Proc, h: Header)
    ensures var m := UpdateSri(s.sri, s.ctl, s.out, h, s.det.nonConforming);
            var b := Behind(log, s);
            UpdateSri(b.sri, b.ctl, b.out, h, b.det.nonConforming) == m.(out := m.out.(log := log + m.out.log))
  {
    hide HeaderAgrees, MergeHeader, CreateStreams;
    var t := TakeUpstream(s.sri, s.ctl, s.out);
    OutputBehind(log, s.out, Flush, t.sri);
    OutputBehind(log, t.out, Flush, if t.ctl.use then t.sri else MergeHeader(h, t.sri, s.det.nonConforming));
  }

  lemma OrderedBehind(log: seq<Event>, s: Proc, p: Packet, year: int)
    requires UsableBps(s.trk.bps) && Usable(p)
    ensures var r := OfferOrdered(s, p, year);
            OfferOrdered(Behind(log, s), p, year) == Offered(Behind(log, r.s), r.consumed, r.d)
  {
    hide UpdateSri, Check, ExpectHeader, Delivered;
    UpdateBehind(log, s, p.h);
    var m := UpdateSri(s.sri, s.ctl, s.out, p.h, s.det.nonConforming);
    forall e ensures Emit(m.out.(log := log + m.out.log), e) == Emit(m.out, e).(log := log + Emit(m.out, e).log) {
      OutputBehind(log, m.out, e, m.sri);
    }
    hide Emit;
  }

  lemma OfferBehind(log: seq<Event>, s: Proc, p: Packet, year: int)
    requires UsableBps(s.trk.bps) && Usable(p)
    ensures var r := Offer(s, p, year);
            Offer(Behind(log, s), p, year) == Offered(Behind(log, r.s), r.consumed, r.d)
  {
    hide OfferOrdered, ExpectHeader, FlushStreams;
    OutputBehind(log, s.out, Flush, s.sri);
    var o := CheckOrder(s.trk, s.det, p.h);
    if !Skips(s.opt, p.h) && o.valid {
      OrderedBehind(log, s.(trk := o.trk, det := o.det), p, year);
    }
  }

  lemma {:induction false} RunBehind(log: seq<Event>, at: Position, ps: seq<Packet>, acts: seq<Act>)
    requires Ready(at, ps)
    ensures var r := Run(at, ps, acts);
            Run(Position(Behind(log, at.s), at.k), ps, acts) == Position(Behind(log, r.s), r.k)
    decreases |acts|
  {
    hide Offer;
    if acts != [] {
      if acts[0].Pass? && at.k < |ps| {
        OfferBehind(log, at.s, ps[at.k], acts[0].clockYear);
      }
      hide Behind;
      assert Next(Position(Behind(log, at.s), at.k), ps, acts[0]) ==
        Position(Behind(log, Next(at, ps, acts[0]).s), Next(at, ps, acts[0]).k) by { NextBehind(log, at, ps, acts[0]); }
      RunBehind(log, Next(at, ps, acts[0]), ps, acts[1..]);
    }
  }

  lemma NextBehind(log: seq<Event>, at: Position, ps: seq<Packet>, a: Act)
    requires Ready(at, ps)
    ensures var r := Next(at, ps, a); Next(Position(Behind(log, at.s), at.k), ps, a) == Position(Behind(log, r.s), r.k)
  {
    hide Offer;
    if a.Pass? && at.k < |ps| {
      OfferBehind(log, at.s, ps[at.k], a.clockYear);
    }
  }

  /** The thread has ended, and what can be set while it does not run has been set for the next run. */
  function Again(s: Proc, opt: Options, order: Endian): Proc {
    Stop(s).(opt := opt, ctl := s.ctl.(endian := order))
  }

  /** The events of a run from state `a` on. */
  function Added(a: Proc, s: Proc): (log: seq<Event>)
    requires a.out.log <= s.out.log
  {
    s.out.log[|a.out.log|..]
  }

  /**
    A run after another one. Between them the streams are closed, and nothing else is written. The
    new run begins a sequence and takes the device for a conforming one. It opens the streams before
    anything else happens on them, and what it writes are its own packets, each once, in order and
    at their sequence's width, in intact segments, under an SRI their headers confirm.
   */
  lemma RunAgain(
      setup: Setup, earlier: seq<Packet>, before: seq<Act>, opt: Options, order: Endian,
      ps: seq<Packet>, acts: seq<Act>, years: set<int>)
    requires AllStandard(earlier) && AllStandard(ps) && Payloads.ClockSays(acts, years)
    requires Run(Position(Fresh(setup), 0), earlier, before).s.startOfYear in years
    ensures var s := Run(Position(Fresh(setup), 0), earlier, before).s;
            var a := Again(s, opt, order);
            var r := Run(Position(a, 0), ps, acts);
            && a.out.log == (if s.out.streams then s.out.log + [Close] else s.out.log)
            && a.trk.first && !a.det.nonConforming && a.trk.dropped == s.trk.dropped && a.det.slips == s.det.slips
            && a.out.log <= r.s.out.log
            && var log := Added(a, r.s);
               && Payloads.AllRecorded(Payloads.Writes(log), opt, ps, r.k, years)
               && Announcements.Proper(log) && (log != [] ==> log[0].Open?)
               && Announcements.FlagsRise(log, r.s.det.nonConforming)
               && Segments.SegmentsIntact(opt, log)
               && (Announcements.HeaderRules(s.ctl) && Announcements.NoPriority(acts) ==> Announcements.Governed(log))
  {
    StandardIsUsable(earlier);
    StandardIsUsable(ps);
    Announcements.RunAnnounces(Position(Fresh(setup), 0), earlier, before);
    var s := Run(Position(Fresh(setup), 0), earlier, before).s;
    hide Run, AllStandard, Payloads.Kept;
    Afresh(s, opt, order, ps, acts, years);
  }

  lemma Afresh(s: Proc, opt: Options, order: Endian, ps: seq<Packet>, acts: seq<Act>, years: set<int>)
    requires Announcements.SriInv(s) && UsableBps(s.trk.bps)
    requires AllStandard(ps) && Payloads.ClockSays(acts, years) && s.startOfYear in years
    ensures var a := Again(s, opt, order);
            && Ready(Position(a, 0), ps)
            && var r := Run(Position(a, 0), ps, acts);
               && a.out.log <= r.s.out.log
               && var log := Added(a, r.s);
                  && Payloads.AllRecorded(Payloads.Writes(log), opt, ps, r.k, years)
                  && Announcements.Proper(log) && (log != [] ==> log[0].Open?)
                  && Announcements.FlagsRise(log, r.s.det.nonConforming)
                  && Segments.SegmentsIntact(opt, log)
                  && (Announcements.HeaderRules(s.ctl) && Announcements.NoPriority(acts) ==>
                        Announcements.Governed(log))
  {
    hide Run, AllStandard, Payloads.AllRecorded, Payloads.Writes, Payloads.Kept, Announcements.Proper,
         Announcements.FlagsRise, Announcements.Governed, Segments.SegmentsIntact, Payloads.ClockSays;
    var a := Again(s, opt, order);
    var n := a.(out := a.out.(log := []));
    assert Behind(a.out.log, n) == a;
    StandardIsUsable(ps);
    FromBlank(n, ps, acts, years);
    RunBehind(a.out.log, Position(n, 0), ps, acts);
    var q := Run(Position(n, 0), ps, acts).s;
    assert (a.out.log + q.out.log)[|a.out.log|..] == q.out.log;
    OpensFirst(q.out.log);
  }

  /** A run from a state with nothing in the log. */
  lemma FromBlank(n: Proc, ps: seq<Packet>, acts: seq<Act>, years: set<int>)
    requires n.trk.first && n.out == Output(false, []) && !n.det.nonConforming && UsableBps(n.trk.bps)
    requires AllStandard(ps) && Payloads.ClockSays(acts, years) && n.startOfYear in years
    ensures Ready(Position(n, 0), ps)
    ensures var r := Run(Position(n, 0), ps, acts);
            var log := r.s.out.log;
            && Payloads.AllRecorded(Payloads.Writes(log), n.opt, ps, r.k, years)
            && Announcements.Proper(log) && Announcements.FlagsRise(log, r.s.det.nonConforming)
            && Segments.SegmentsIntact(n.opt, log)
            && (Announcements.HeaderRules(n.ctl) && Announcements.NoPriority(acts) ==> Announcements.Governed(log))
  {
    StandardIsUsable(ps);
    assert Payloads.Writes(n.out.log) == [];
    hide Run;
    Payloads.PayloadsWritten(Position(n, 0), ps, acts, years);
    Announcements.RunAnnounces(Position(n, 0), ps, acts);
    Segments.RunKeepsSegments(Position(n, 0), ps, acts);
    hide AllStandard, Payloads.AllRecorded, Payloads.Writes, Payloads.Kept, Announcements.Proper,
         Announcements.FlagsRise, Announcements.Governed, Segments.SegmentsIntact, Announcements.NoPriority;
  }

  lemma OpensFirst(log: seq<Event>)
    requires Announcements.Proper(log)
    ensures log != [] ==> log[0].Open?
  {
    if log != [] {
      assert Announcements.Allowed(Announcements.Opened(log[..0]), log[0]);
    }
  }
}
