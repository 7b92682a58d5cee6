/**
  The processor without upstream events, as a fold over packets: what it knows between two packets
  depends on the packets consumed alone, not on how often each was held back on the way.
 */
module Folding {

  import TimeStamps
  import opened SddsTimes
  import opened SddsPackets
  import opened SequenceCounter
  import opened SlipDetector
  import opened Processor
  import opened Sequences

  /** What the processor carries from one packet to the next. */
  datatype Line = Line(seen: bool, next: u16, bps: nat, sri: Sri, det: Detector)

  /** Does the header begin a sequence? */
  predicate Broken(l: Line, h: Header) {
    !l.seen || l.next != h.seqNo
  }

  /** The sample width the packet is processed with: that of the packet that began the sequence. */
  function WidthOf(l: Line, h: Header): nat {
    if Broken(l, h) then BitsPerSample(h) else l.bps
  }

  /** Does the header say something else than the SRI? */
  predicate NewSri(l: Line, h: Header) {
    !HeaderAgrees(h, l.sri, l.det.nonConforming)
  }

  /** The detector the packet is checked by. */
  function Entering(l: Line, h: Header): Detector
    requires UsableBps(WidthOf(l, h))
  {
    if Broken(l, h) || NewSri(l, h) then ExpectHeader(l.det, WidthOf(l, h), h) else l.det
  }

  function MergedSri(l: Line, h: Header): Sri {
    MergeHeader(h, l.sri, l.det.nonConforming)
  }

  function Consume(l: Line, h: Header): Line
    requires UsableBps(WidthOf(l, h))
  {
    Line(true, Successor(h.seqNo), WidthOf(l, h), MergedSri(l, h), Check(Entering(l, h), WidthOf(l, h), h))
  }

  const BLANK := Line(false, 0, 0, INITIAL_SRI, Detector(ZERO, 0.0, Steps(0.0, 0.0, 0.0), 0.0, 0, false))

  /** After the first k packets. */
  function LineAt(opt: Options, ps: seq<Packet>, k: nat): (l: Line)
    requires k <= |ps| && AllUsable(ps)
    ensures UsableBps(l.bps) && (!l.seen ==> l == BLANK)
  {
    if k == 0 then BLANK
    else
      var l := LineAt(opt, ps, k - 1);
      if Skips(opt, ps[k - 1].h) then l else Consume(l, ps[k - 1].h)
  }

  /** Where the processor can stand with the first k packets consumed. */
  datatype Stage = Settled | Lost | Updated

  predicate Quiet(c: Control) {
    !c.isSet && !c.use
  }

  /** The tracker has taken packet k for the next one in its sequence. */
  predicate Started(t: Tracker, l: Line, h: Header) {
    !t.first && t.expected == h.seqNo && t.bps == WidthOf(l, h)
  }

  ghost predicate Stands(s: Proc, ps: seq<Packet>, k: nat, stage: Stage)
    requires k <= |ps| && AllUsable(ps)
  {
    var l := LineAt(s.opt, ps, k);
    && Quiet(s.ctl)
    && match stage
       case Settled =>
         && s.det == l.det && s.sri == l.sri && s.trk.first == !l.seen
         && (l.seen ==> s.trk.expected == l.next && s.trk.bps == l.bps)
       case Lost =>
         && Waiting(s.opt, ps, k) && l.seen && Broken(l, ps[k].h)
         && s.det == l.det && s.sri == l.sri && s.trk.first
       case Updated =>
         && Waiting(s.opt, ps, k) && NewSri(l, ps[k].h) && Started(s.trk, l, ps[k].h)
         && s.det == Entering(l, ps[k].h) && s.sri == MergedSri(l, ps[k].h)
  }

  ghost predicate InLine(s: Proc, ps: seq<Packet>, k: nat)
    requires k <= |ps| && AllUsable(ps)
  {
    exists stage :: Stands(s, ps, k, stage)
  }

  /** One pass with no upstream SRI about. */
  lemma QuietPass(s: Proc, p: Packet, year: int)
    requires UsableBps(s.trk.bps) && Usable(p) && Quiet(s.ctl)
    ensures var r := Offer(s, p, year);
            var o := CheckOrder(s.trk, s.det, p.h);
            && r.s.ctl == s.ctl
            && if Skips(s.opt, p.h) then
                 r.consumed && r.s.trk == s.trk && r.s.det == s.det && r.s.sri == s.sri
               else if !o.valid then
                 !r.consumed && r.s.trk == o.trk && r.s.det == s.det && r.s.sri == s.sri
               else if s.opt.pushOnTtv && o.trk.ttvFlag != p.h.ttv then
                 !r.consumed && r.s.trk == o.trk.(ttvFlag := p.h.ttv) && r.s.det == o.det && r.s.sri == s.sri
               else if HeaderAgrees(p.h, s.sri, s.det.nonConforming) then
                 && r.consumed && r.s.trk == o.trk.(expected := Successor(o.trk.expected))
                 && r.s.det == Check(o.det, o.trk.bps, p.h) && r.s.sri == s.sri
               else
                 && !r.consumed && r.s.trk == o.trk && r.s.det == ExpectHeader(o.det, o.trk.bps, p.h)
                 && r.s.sri == MergeHeader(p.h, s.sri, s.det.nonConforming)
  {
    hide Check, StepsFor, WritePacket, PushTheSri, FlushStreams, CreateStreams, Delivered, HeaderXdelta, SameXdelta,
         TimeStamps.StampOf, Rate, Successor;
  }

  /** Setting the expected step or merging a header twice is doing it once. */
  lemma Idempotent(d: Detector, bps: nat, h: Header, sri: Sri, nonConforming: bool)
    requires UsableBps(bps)
    ensures var e := ExpectHeader(d, bps, h);
            ExpectHeader(e, bps, h) == e && e.nonConforming == d.nonConforming
    ensures var m := MergeHeader(h, sri, nonConforming);
            && MergeHeader(h, m, nonConforming) == m
            && (HeaderAgrees(h, sri, nonConforming) ==> m == sri)
  {
    hide HeaderXdelta, StepsFor, Rate, SameXdelta;
  }

  /**
    One pass over packet k: it is consumed, and only once the SRI says what its header does, or it
    stays at the front for a reason that the packets before it and it alone decide.
   */
  lemma PassInLine(s: Proc, ps: seq<Packet>, k: nat, year: int, stage: Stage)
    requires UsableBps(s.trk.bps) && AllUsable(ps) && k < |ps| && Stands(s, ps, k, stage)
    ensures var r := Offer(s, ps[k], year);
            var l, h := LineAt(s.opt, ps, k), ps[k].h;
            if r.consumed then
              && Stands(r.s, ps, k + 1, Settled)
              && (Skips(s.opt, h) || stage.Updated? || !NewSri(l, h))
            else
              var o := CheckOrder(s.trk, s.det, h);
              if !o.valid then stage.Settled? && Stands(r.s, ps, k, Lost)
              else if s.opt.pushOnTtv && o.trk.ttvFlag != h.ttv then !stage.Lost? && Stands(r.s, ps, k, stage)
              else NewSri(l, h) && Stands(r.s, ps, k, Updated)
    ensures var l, h := LineAt(s.opt, ps, k), ps[k].h;
            var o := CheckOrder(s.trk, s.det, h);
            !Skips(s.opt, h) && o.valid ==> o.trk.bps == WidthOf(l, h)
  {
    var p := ps[k];
    var l := LineAt(s.opt, ps, k);
    QuietPass(s, p, year);
    if !Skips(s.opt, p.h) {
      Idempotent(l.det, WidthOf(l, p.h), p.h, l.sri, l.det.nonConforming);
    }
    hide Offer, ExpectHeader, Check, MergeHeader, HeaderAgrees, Rate, Successor;
  }

  lemma {:induction false} RunInLine(at: Position, ps: seq<Packet>, years: seq<int>)
    requires Ready(at, ps) && InLine(at.s, ps, at.k)
    ensures var r := Run(at, ps, Passes(years)); InLine(r.s, ps, r.k)
    decreases |years|
  {
    if years != [] {
      hide Offer, AllUsable;
      assert Passes(years)[1..] == Passes(years[1..]);
      if at.k < |ps| {
        var stage :| Stands(at.s, ps, at.k, stage);
        PassInLine(at.s, ps, at.k, years[0], stage);
      }
      hide Stands;
      RunInLine(Next(at, ps, Pass(years[0])), ps, years[1..]);
    }
  }

  /**
    Between two packets the processor's knowledge is the fold, and while one is held back the
    detector and the SRI are at most one step further: what its header calls for.
   */
  lemma RunIsFold(setup: Setup, ps: seq<Packet>, years: seq<int>)
    requires AllUsable(ps)
    ensures var r := Run(Position(Fresh(setup), 0), ps, Passes(years));
            var l := LineAt(setup.opt, ps, r.k);
            || (r.s.det == l.det && r.s.sri == l.sri)
            || (r.k < |ps| && r.s.det == Entering(l, ps[r.k].h) && r.s.sri == MergedSri(l, ps[r.k].h))
  {
    var at := Position(Fresh(setup), 0);
    assert Stands(at.s, ps, 0, Settled);
    RunInLine(at, ps, years);
    var r := Run(at, ps, Passes(years));
    hide Run, Fresh, LineAt, Entering, MergedSri;
  }
}
