/**
  A packet at the front of the work queue can be held back and offered again. How often, and when
  for ever.
 */
module Livelock {

  import opened ByteOrder
  import opened SddsPackets
  import opened SequenceCounter
  import opened SlipDetector
  import opened TimeStamps
  import opened Processor

  /** Acts while one packet stays at the front; the state after them. */
  function HoldFront(s: Proc, p: Packet, acts: seq<Act>): (r: Proc)
    requires UsableBps(s.trk.bps) && Usable(p)
    ensures UsableBps(r.trk.bps)
    decreases |acts|
  {
    if acts == [] then s else HoldFront(AfterAct(s, p, acts[0]), p, acts[1..])
  }

  function AfterAct(s: Proc, p: Packet, a: Act): (r: Proc)
    requires UsableBps(s.trk.bps) && Usable(p)
    ensures UsableBps(r.trk.bps)
  {
    match a
    case Upcall(e) => Apply(s, e)
    case Pass(year) => Offer(s, p, year).s
  }

  /** Does every pass among the acts hold the packet back? */
  ghost predicate AllHeld(s: Proc, p: Packet, acts: seq<Act>)
    requires UsableBps(s.trk.bps) && Usable(p)
    decreases |acts|
  {
    acts != [] ==>
      && (acts[0].Pass? ==> !Offer(s, p, acts[0].clockYear).consumed)
      && AllHeld(AfterAct(s, p, acts[0]), p, acts[1..])
  }

  function PassCount(acts: seq<Act>): nat {
    if acts == [] then 0 else (if acts[0].Pass? then 1 else 0) + PassCount(acts[1..])
  }

  /** Will the order or time-tag test hold the packet back? */
  predicate OrderObjects(s: Proc, h: Header) {
    !s.trk.first && (s.trk.expected != h.seqNo || (s.opt.pushOnTtv && s.trk.ttvFlag != h.ttv))
  }

  /** May the SRI update hold it back? */
  predicate SriObjects(s: Proc, h: Header) {
    (s.ctl.isSet && s.ctl.isNew) || !(s.ctl.use || HeaderAgrees(h, s.sri, s.det.nonConforming))
  }

  /** How many passes can still hold the packet back if nothing else happens. */
  function Objections(s: Proc, h: Header): nat {
    (if OrderObjects(s, h) then 1 else 0) + (if SriObjects(s, h) then 1 else 0)
  }

  lemma SameIsSame(x: Xdelta)
    ensures x.Finite? ==> SameXdelta(x, x)
  {
  }

  /** After an SRI update the SRI agrees with the header, or the upstream SRI decides. */
  lemma UpdateSriSettles(sri: Sri, c: Control, o: Output, h: Header, nonConforming: bool)
    requires Rate(h) > 0.0
    ensures var m := UpdateSri(sri, c, o, h, nonConforming);
            && !(m.ctl.isSet && m.ctl.isNew)
            && (m.ctl.use || HeaderAgrees(h, m.sri, nonConforming))
            && (m.changed ==> (c.isSet && c.isNew) || !(c.use || HeaderAgrees(h, sri, nonConforming)))
  {
    hide CreateStreams;
    SameIsSame(HeaderXdelta(h, nonConforming));
  }

  lemma HeldOrdered(s: Proc, p: Packet, year: int)
    requires UsableBps(s.trk.bps) && Usable(p) && Rate(p.h) > 0.0 && !OrderObjects(s, p.h) && !s.trk.first
    requires !OfferOrdered(s, p, year).consumed
    ensures SriObjects(s, p.h)
    ensures Objections(OfferOrdered(s, p, year).s, p.h) == 0
  {
    UpdateSriSettles(s.sri, s.ctl, s.out, p.h, s.det.nonConforming);
    hide UpdateSri, Deliver, PushTheSri, HeaderAgrees;
    assert OfferOrdered(s, p, year).s.det.nonConforming == s.det.nonConforming;
  }

  /** A pass that holds the packet back removes an objection. */
  lemma HeldPassSettles(s: Proc, p: Packet, year: int)
    requires UsableBps(s.trk.bps) && Usable(p) && Rate(p.h) > 0.0
    requires !Offer(s, p, year).consumed
    ensures Objections(Offer(s, p, year).s, p.h) < Objections(s, p.h)
  {
    hide OfferOrdered, FlushStreams, HeaderAgrees, UpdateXdelta;
    var o := CheckOrder(s.trk, s.det, p.h);
    assert o.det.nonConforming == s.det.nonConforming by {
      KeepsDevice(s.det, BitsPerSample(p.h), p.h);
    }
    var s1 := s.(trk := o.trk, det := o.det);
    if o.valid && !(s.opt.pushOnTtv && o.trk.ttvFlag != p.h.ttv) {
      HeldOrdered(s1, p, year);
    }
  }

  /** An upstream event adds at most one. */
  lemma UpcallObjects(s: Proc, h: Header, e: UpstreamEvent)
    ensures Objections(Apply(s, e), h) <= Objections(s, h) + 1
  {
    hide HeaderAgrees;
  }

  /**
    No livelock: a packet with a positive header rate is held back at most twice, plus once for
    each upstream SRI event that arrives while it is at the front.
   */
  lemma {:induction false} HeldAtMostTwicePlusEvents(s: Proc, p: Packet, acts: seq<Act>)
    requires UsableBps(s.trk.bps) && Usable(p) && Rate(p.h) > 0.0
    requires AllHeld(s, p, acts)
    ensures PassCount(acts) + Objections(HoldFront(s, p, acts), p.h)
            <= Objections(s, p.h) + (|acts| - PassCount(acts))
    ensures PassCount(acts) <= 2 + (|acts| - PassCount(acts))
    decreases |acts|
  {
    hide Offer, Objections, Apply;
    if acts != [] {
      match acts[0] {
        case Pass(year) => HeldPassSettles(s, p, year);
        case Upcall(e) => UpcallObjects(s, p.h, e);
      }
      HeldAtMostTwicePlusEvents(AfterAct(s, p, acts[0]), p, acts[1..]);
    }
    AtMostTwo(s, p.h);
  }

  lemma AtMostTwo(s: Proc, h: Header)
    ensures Objections(s, h) <= 2
  {
  }

  /** Is the packet held back for ever if no upstream event arrives? */
  ghost predicate Starves(s: Proc, p: Packet)
    requires UsableBps(s.trk.bps) && Usable(p)
  {
    forall years: seq<int> :: AllHeld(s, p, Passes(years))
  }

  /** A zero header rate that is going to be used. */
  predicate NeverSettles(s: Proc, h: Header) {
    Rate(h) == 0.0 && !Skips(s.opt, h) && !UpstreamDecides(s.sri, s.ctl)
  }

  lemma UpdateSriNeverSettles(sri: Sri, c: Control, o: Output, h: Header, nonConforming: bool)
    requires Rate(h) == 0.0 && !UpstreamDecides(sri, c)
    ensures var m := UpdateSri(sri, c, o, h, nonConforming);
            m.changed && !UpstreamDecides(m.sri, m.ctl)
  {
    hide CreateStreams;
  }

  lemma NeverSettlesPass(s: Proc, p: Packet, year: int)
    requires UsableBps(s.trk.bps) && Usable(p) && NeverSettles(s, p.h)
    ensures !Offer(s, p, year).consumed && NeverSettles(Offer(s, p, year).s, p.h)
  {
    UpdateSriNeverSettles(s.sri, s.ctl, s.out, p.h, CheckOrder(s.trk, s.det, p.h).det.nonConforming);
    hide UpdateSri, Rate, UpstreamDecides, FlushStreams, PushTheSri, UpdateXdelta, Deliver;
  }

  lemma {:induction false} NeverSettlesStarves(s: Proc, p: Packet, years: seq<int>)
    requires UsableBps(s.trk.bps) && Usable(p) && NeverSettles(s, p.h)
    ensures AllHeld(s, p, Passes(years))
    decreases |years|
  {
    hide Offer, NeverSettles;
    if years != [] {
      NeverSettlesPass(s, p, years[0]);
      assert Passes(years)[1..] == Passes(years[1..]);
      NeverSettlesStarves(Offer(s, p, years[0]).s, p, years[1..]);
    }
  }

  /** If the upstream SRI decides, or the packet is skipped, a pass makes progress as well. */
  lemma SettlesPass(s: Proc, p: Packet, year: int)
    requires UsableBps(s.trk.bps) && Usable(p) && !NeverSettles(s, p.h) && !Offer(s, p, year).consumed
    ensures !NeverSettles(Offer(s, p, year).s, p.h)
    ensures Objections(Offer(s, p, year).s, p.h) < Objections(s, p.h)
  {
    if Rate(p.h) > 0.0 {
      hide Offer, Objections;
      HeldPassSettles(s, p, year);
    } else {
      UpstreamPass(s, p, year);
    }
  }

  lemma UpstreamPass(s: Proc, p: Packet, year: int)
    requires UsableBps(s.trk.bps) && Usable(p) && !Offer(s, p, year).consumed
    requires UpstreamDecides(s.sri, s.ctl)
    ensures UpstreamDecides(Offer(s, p, year).s.sri, Offer(s, p, year).s.ctl)
    ensures Objections(Offer(s, p, year).s, p.h) < Objections(s, p.h)
  {
    hide FlushStreams, HeaderAgrees, UpdateXdelta, PushTheSri, Deliver, CreateStreams, Rate;
  }

  /**
    The exact condition: with no upstream event a packet is held back for ever if and only if its
    header rate is zero, wait-on-TTV does not skip it, and no upstream SRI with priority decides
    the sample period.
   */
  lemma StarvesIff(s: Proc, p: Packet)
    requires UsableBps(s.trk.bps) && Usable(p)
    ensures Starves(s, p) <==> NeverSettles(s, p.h)
  {
    if NeverSettles(s, p.h) {
      forall years: seq<int> ensures AllHeld(s, p, Passes(years)) {
        NeverSettlesStarves(s, p, years);
      }
    } else {
      ThreePassesSuffice(s, p, [0, 0, 0]);
      assert !AllHeld(s, p, Passes([0, 0, 0]));
    }
  }

  lemma {:induction false} ThreePassesSuffice(s: Proc, p: Packet, years: seq<int>)
    requires UsableBps(s.trk.bps) && Usable(p) && !NeverSettles(s, p.h)
    requires |years| > Objections(s, p.h)
    ensures !AllHeld(s, p, Passes(years))
    decreases |years|
  {
    hide Offer, NeverSettles, Objections;
    AtMostTwo(s, p.h);
    assert Passes(years)[1..] == Passes(years[1..]);
    if !Offer(s, p, years[0]).consumed {
      SettlesPass(s, p, years[0]);
      ThreePassesSuffice(Offer(s, p, years[0]).s, p, years[1..]);
    }
  }

  lemma {:induction false} RunAdvances(at: Position, ps: seq<Packet>, acts: seq<Act>)
    requires Ready(at, ps)
    ensures Run(at, ps, acts).k >= at.k
    decreases |acts|
  {
    hide Offer;
    if acts != [] {
      RunAdvances(Next(at, ps, acts[0]), ps, acts[1..]);
    }
  }

  /** With positive rates three passes consume a packet, less those its objections leave unused. */
  lemma {:induction false} PassesConsume(at: Position, ps: seq<Packet>, n: nat, years: seq<int>)
    requires Ready(at, ps) && 0 < n <= |ps| - at.k && forall i :: 0 <= i < |ps| ==> Rate(ps[i].h) > 0.0
    requires |years| > 3 * (n - 1) + Objections(at.s, ps[at.k].h)
    ensures Run(at, ps, Passes(years)).k >= at.k + n
    decreases |years|
  {
    assert Passes(years)[1..] == Passes(years[1..]);
    var next := Next(at, ps, Pass(years[0]));
    if next.k == at.k {
      HeldPassSettles(at.s, ps[at.k], years[0]);
      hide Offer, Objections;
      PassesConsume(next, ps, n, years[1..]);
    } else if n > 1 {
      AtMostTwo(next.s, ps[next.k].h);
      hide Offer, Objections;
      PassesConsume(next, ps, n - 1, years[1..]);
    } else {
      hide Offer, Objections;
      RunAdvances(next, ps, Passes(years)[1..]);
    }
  }

  /** So runs get to the end of any stream with positive rates, in at most three passes for each packet. */
  lemma ThreePassesEach(at: Position, ps: seq<Packet>, n: nat, years: seq<int>)
    requires Ready(at, ps) && n <= |ps| - at.k && forall i :: 0 <= i < |ps| ==> Rate(ps[i].h) > 0.0
    requires |years| == 3 * n
    ensures Run(at, ps, Passes(years)).k >= at.k + n
  {
    hide Offer, Run, Rate;
    if n > 0 {
      AtMostTwo(at.s, ps[at.k].h);
      hide Objections;
      PassesConsume(at, ps, n, years);
    } else {
      RunAdvances(at, ps, Passes(years));
    }
  }

  /** A stream with positive rates has a run that consumes it. */
  lemma CanBeConsumed(setup: Setup, ps: seq<Packet>) returns (years: seq<int>)
    requires AllUsable(ps) && forall i :: 0 <= i < |ps| ==> Rate(ps[i].h) > 0.0
    ensures Run(Position(Fresh(setup), 0), ps, Passes(years)).k == |ps|
  {
    hide Run, Rate, AllUsable, Passes;
    years := seq(3 * |ps|, _ => 0);
    ThreePassesEach(Position(Fresh(setup), 0), ps, |ps|, years);
  }

  /** n upstream SRIs, each different from the one before, and a pass after each. */
  function Nag(meta: int, n: nat): (acts: seq<Act>)
    ensures |acts| == 2 * n
    decreases n
  {
    if n == 0 then []
    else
      var sri := Sri(DEFAULT_STREAM_ID, Infinite, 0, meta + 1, 0);
      [Upcall(SetUpstream(Upstream(sri, meta + 1, false, None))), Pass(0)] + Nag(meta + 1, n - 1)
  }

  lemma NagPass(s: Proc, p: Packet)
    requires UsableBps(s.trk.bps) && Usable(p) && !s.trk.first && !Skips(s.opt, p.h) && !OrderObjects(s, p.h)
    requires PendingChange(s.sri, s.ctl)
    ensures var r := Offer(s, p, 0);
            && !r.consumed && !r.s.trk.first && r.s.opt == s.opt && !OrderObjects(r.s, p.h)
            && r.s.sri.meta == s.ctl.given.asStored
  {
    hide CreateStreams, UpdateXdelta, HeaderXdelta, Rate;
  }

  lemma {:induction false} NagHolds(s: Proc, p: Packet, n: nat)
    requires UsableBps(s.trk.bps) && Usable(p) && !s.trk.first && !Skips(s.opt, p.h) && !OrderObjects(s, p.h)
    ensures AllHeld(s, p, Nag(s.sri.meta, n))
    ensures PassCount(Nag(s.sri.meta, n)) == n
    decreases n
  {
    hide Offer;
    if n > 0 {
      var acts := Nag(s.sri.meta, n);
      var s1 := AfterAct(s, p, acts[0]);
      NagPass(s1, p);
      var s2 := Offer(s1, p, 0).s;
      NagHolds(s2, p, n - 1);
      assert acts[1..][1..] == Nag(s.sri.meta + 1, n - 1);
      assert acts[1..][0] == Pass(0);
    }
  }

  const PLAIN := Setup(Options(false, false), 0, Big)

  /** The packet with its samples declared complex if they were real, and real if they were complex. */
  function Flipped(p: Packet): Packet {
    p.(h := p.h.(cx := !p.h.cx))
  }

  /** After a flipped copy has been consumed, p is neither the packet expected nor described by the SRI. */
  lemma FlippedFirst(p: Packet) returns (s: Proc)
    requires Usable(p) && Rate(p.h) > 0.0
    ensures Usable(Flipped(p))
    ensures Run(Position(Fresh(PLAIN), 0), [Flipped(p), p], [Pass(0), Pass(0)]) == Position(s, 1)
    ensures UsableBps(s.trk.bps) && s.opt == PLAIN.opt && !s.ctl.isSet && !s.ctl.use
    ensures OrderObjects(s, p.h) && s.sri.mode == HeaderMode(Flipped(p).h)
  {
    var q := Flipped(p);
    assert Rate(q.h) > 0.0;
    var s0 := Fresh(PLAIN);
    var a := Offer(s0, q, 0);
    assert !a.consumed && !a.s.trk.first && a.s.trk.expected == q.h.seqNo && HeaderAgrees(q.h, a.s.sri, false) by {
      FlippedHeld(q);
    }
    s := Offer(a.s, q, 0).s;
    assert Offer(a.s, q, 0).consumed && s.sri == a.s.sri by {
      hide HeaderXdelta, SameXdelta, StepsFor, Rate, StampOf, Delivered, FlushStreams;
    }
    assert Successor(q.h.seqNo) != p.h.seqNo;
    hide Offer, Rate;
    assert [Pass(0), Pass(0)][1..] == [Pass(0)] && [Pass(0)][1..] == [];
  }

  lemma FlippedHeld(q: Packet)
    requires Usable(q) && Rate(q.h) > 0.0
    ensures var a := Offer(Fresh(PLAIN), q, 0);
            && !a.consumed && !a.s.trk.first && a.s.trk.expected == q.h.seqNo && a.s.trk.bps == BitsPerSample(q.h)
            && HeaderAgrees(q.h, a.s.sri, false) && a.s.sri.mode == HeaderMode(q.h)
            && a.s.out.streams && a.s.opt == PLAIN.opt && !a.s.ctl.isSet && !a.s.ctl.use && !a.s.det.nonConforming
  {
    SameIsSame(HeaderXdelta(q.h, false));
    hide StepsFor, Rate, SameXdelta;
  }

  lemma TwoSurprises(s: Proc, p: Packet)
    requires Usable(p) && UsableBps(s.trk.bps) && s.opt == PLAIN.opt && !s.ctl.isSet && !s.ctl.use
    requires OrderObjects(s, p.h) && s.sri.mode != HeaderMode(p.h)
    ensures var a := Offer(s, p, 0); var b := Offer(a.s, p, 0);
            && !a.consumed && !b.consumed && !b.s.trk.first && b.s.opt == PLAIN.opt
            && !OrderObjects(b.s, p.h)
  {
    hide CreateStreams, UpdateXdelta, Rate, HeaderXdelta, SameXdelta;
  }

  lemma OneMorePass(s: Proc, p: Packet, rest: seq<Act>)
    requires UsableBps(s.trk.bps) && Usable(p) && !Offer(s, p, 0).consumed
    requires AllHeld(Offer(s, p, 0).s, p, rest)
    ensures AllHeld(s, p, [Pass(0)] + rest)
    ensures PassCount([Pass(0)] + rest) == 1 + PassCount(rest)
  {
    hide Offer;
    assert ([Pass(0)] + rest)[1..] == rest;
  }

  /**
    The bound is attained in runs from the start: after another packet, a packet can be held back
    2 + n times while n events arrive.
   */
  lemma BoundIsAttained(p: Packet, n: nat)
    requires Usable(p) && Rate(p.h) > 0.0
    ensures exists ps: seq<Packet>, acts0: seq<Act>, acts: seq<Act> ::
              && Ready(Position(Fresh(PLAIN), 0), ps) && |ps| == 2 && ps[1] == p
              && var at := Run(Position(Fresh(PLAIN), 0), ps, acts0);
                 && at.k == 1 && AllHeld(at.s, p, acts)
                 && |acts| - PassCount(acts) == n && PassCount(acts) == 2 + n
  {
    var s := FlippedFirst(p);
    TwoSurprises(s, p);
    hide Offer, PassCount, Nag, OrderObjects, Run, Fresh;
    var ps, acts0 := [Flipped(p), p], [Pass(0), Pass(0)];
    var s1 := Offer(s, p, 0).s;
    var s2 := Offer(s1, p, 0).s;
    var rest := Nag(s2.sri.meta, n);
    NagHolds(s2, p, n);
    OneMorePass(s1, p, rest);
    OneMorePass(s, p, [Pass(0)] + rest);
    assert Run(Position(Fresh(PLAIN), 0), ps, acts0).k == 1;
  }
}
