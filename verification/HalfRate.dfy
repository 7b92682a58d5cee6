/**
  Streams at the step their header gives, and complex streams at half of it from devices whose
  header announces half the true rate: the slip detector notices those, doubles its expected rate,
  and counts no slip in doing so. A packet without a time tag between two tagged ones can cost one,
  time that goes back costs none.
 */
module HalfRate {

  import opened SddsTimes
  import opened SddsPackets
  import opened SequenceCounter
  import opened SlipDetector
  import opened Processor
  import opened Positions
  import opened Sequences
  import opened Anchors

  /** The true step: the one the header rate gives, or half of it. */
  function TrueStep(rate: real, bps: nat, cx: bool, half: bool): real
    requires 8 <= bps <= 32 && rate > 0.0
  {
    var ideal := StepsFor(rate, bps, cx).ideal;
    if half then ideal / 2.0 else ideal
  }

  /** A stream of one rate, width and mode whose packets are the true step apart, but where time goes back. */
  ghost predicate Steady(opt: Options, ps: seq<Packet>, idx: seq<nat>, rate: real, bps: nat, cx: bool, half: bool) {
    && Uniform(ps, idx, rate, bps, cx) && (half ==> cx)
    && TimedBy(opt, ps, idx, TrueStep(rate, bps, cx, half))
  }

  /** Is packet k measured against the packet the sender emitted directly before it? */
  predicate Pair(opt: Options, ps: seq<Packet>, idx: seq<nat>, k: nat)
    requires k < |ps| == |idx|
  {
    var i := Measured(opt, ps, k);
    i.Some? && Distance(idx, i.value, k) == 1
  }

  /** Is there such a packet before position k, to tell half the step by? */
  ghost predicate Paired(opt: Options, ps: seq<Packet>, idx: seq<nat>, k: nat)
    requires k <= |ps| == |idx|
  {
    exists a: nat :: a < k && Pair(opt, ps, idx, a)
  }

  /**
    Does packet k stay within what the detector takes for steady? At the header's step it has to be
    measured against the packet before it. At half the step the second packet before it will do as
    well, since the step then looks like the header's, as long as no two tagged packets in a row
    have given the true one away.
   */
  ghost predicate Tight(opt: Options, ps: seq<Packet>, idx: seq<nat>, half: bool, k: nat)
    requires k < |ps| == |idx|
  {
    var i := Measured(opt, ps, k);
    i.Some? ==>
      || Distance(idx, i.value, k) == 1
      || (half && !Paired(opt, ps, idx, k) && Distance(idx, i.value, k) == 2)
  }

  ghost predicate AllTight(opt: Options, ps: seq<Packet>, idx: seq<nat>, half: bool)
    requires |ps| == |idx|
  {
    forall k: nat :: k < |ps| ==> Tight(opt, ps, idx, half, k)
  }

  /** The steps the detector expects once it has seen the stream. */
  predicate Expects(d: Detector, rate: real, bps: nat, cx: bool)
    requires 8 <= bps <= 32 && rate > 0.0
  {
    && d.rate == (if d.nonConforming then rate * 2.0 else rate)
    && d.steps == StepsFor(d.rate, bps, cx)
  }

  predicate NoSlips(d: Detector, half: bool) {
    d.slips == 0 && d.accum == 0.0 && (d.nonConforming ==> half)
  }

  /** The same samples at twice the rate take half the time. */
  lemma DoubledRate(rate: real, bps: nat, cx: bool)
    requires 8 <= bps <= 32 && rate > 0.0
    ensures StepsFor(rate * 2.0, bps, cx).ideal == StepsFor(rate, bps, cx).ideal / 2.0
  {
    var n := SamplesPerPacket(bps, cx) as real;
    var x := n / rate;
    assert x * rate == n;
    assert (x / 2.0) * (rate * 2.0) == n;
    QuotientUnique(n, rate * 2.0, x / 2.0);
  }

  lemma QuotientUnique(n: real, d: real, q: real)
    requires d > 0.0 && q * d == n
    ensures n / d == q
  {
  }

  /** The window around the ideal step excludes half of it, and half as much again. */
  lemma WindowAround(rate: real, bps: nat, cx: bool)
    requires 8 <= bps <= 32 && rate > 0.0
    ensures var s := StepsFor(rate, bps, cx);
            s.Steps? && 0.0 < s.ideal / 2.0 < s.min < s.ideal < s.max < s.ideal + s.ideal / 2.0
  {
    var n := SamplesPerPacket(bps, cx);
    assert n >= 128;
    DivideByRate(n - 1, rate);
    DivideByRate(n, rate);
    Divided(64.0, n as real, rate);
    Divided(128.0, n as real, rate);
    var t := 1.0 / rate;
    assert 128.0 / rate == 128.0 * t;
  }

  /** m true steps, when m is not just one. */
  lemma ManySteps(rate: real, bps: nat, cx: bool, half: bool, m: nat)
    requires 8 <= bps <= 32 && rate > 0.0
    ensures var step, delta := TrueStep(rate, bps, cx, half), Times(m, TrueStep(rate, bps, cx, half));
            && (m == 1 ==> delta == step) && (m == 2 ==> delta == 2.0 * step)
            && (m >= 2 ==> delta >= 2.0 * step) && (m >= 3 ==> delta >= 3.0 * step)
  {
    var step := TrueStep(rate, bps, cx, half);
    WindowAround(rate, bps, cx);
    hide TrueStep, StepsFor;
    assert step > 0.0 by { PositiveStep(rate, bps, cx, half); }
    assert Times(1, step) == Times(0, step) + step && Times(2, step) == Times(1, step) + step;
    assert Times(3, step) == Times(2, step) + step;
    if m >= 3 {
      TimesGrows(3, m, step);
    }
  }

  lemma PositiveStep(rate: real, bps: nat, cx: bool, half: bool)
    requires 8 <= bps <= 32 && rate > 0.0
    ensures TrueStep(rate, bps, cx, half) > 0.0
  {
    WindowAround(rate, bps, cx);
    hide StepsFor;
  }

  /**
    m true steps at once. One is accepted, and the device is then known to be non-conforming
    exactly if it is; two halves pass for a whole as long as it is not known to be; anything else
    is a slip.
   */
  lemma TrueStepAdapts(d: Detector, rate: real, bps: nat, cx: bool, half: bool, m: nat)
    requires 8 <= bps <= 32 && rate > 0.0 && m > 0 && (half ==> cx)
    requires NoSlips(d, half) && Expects(d, rate, bps, cx)
    ensures var e := Step(d, bps, cx, Times(m, TrueStep(rate, bps, cx, half)));
            && e.last == d.last
            && if m == 1 then NoSlips(e, half) && Expects(e, rate, bps, cx) && e.nonConforming == half
               else if m == 2 && half && !d.nonConforming then e == d
               else e.slips == 1
  {
    WindowAround(rate, bps, cx);
    WindowAround(rate * 2.0, bps, cx);
    DoubledRate(rate, bps, cx);
    ManySteps(rate, bps, cx, half, m);
    hide StepsFor, Times;
  }

  lemma CheckKeepsHalf(d: Detector, h: Header, rate: real, bps: nat, cx: bool, half: bool, m: nat)
    requires 8 <= bps <= 32 && rate > 0.0 && h.cx == cx && (half ==> cx)
    requires NoSlips(d, half) && Expects(d, rate, bps, cx)
    requires d.last != ZERO && h.ttv && Elapsed(d, h) >= 0.0 ==>
               && m > 0 && Elapsed(d, h) == Times(m, TrueStep(rate, bps, cx, half))
               && (m == 1 || (half && !d.nonConforming && m == 2))
    ensures var e := Check(d, bps, h);
            && NoSlips(e, half) && Expects(e, rate, bps, cx)
            && e.last == (if h.ttv then h.time else d.last)
            && (e.nonConforming == d.nonConforming || (h.ttv && d.last != ZERO && Elapsed(d, h) >= 0.0 && m == 1))
  {
    if d.last != ZERO && h.ttv && Elapsed(d, h) >= 0.0 {
      WindowAround(rate, bps, cx);
      ManySteps(rate, bps, cx, half, m);
      PositiveStep(rate, bps, cx, half);
      TrueStepAdapts(d.(last := h.time), rate, bps, cx, half, m);
    }
    hide Step, StepsFor, TrueStep, Times;
  }

  lemma ExpectHeaderKeepsHalf(d: Detector, h: Header, rate: real, bps: nat, cx: bool, half: bool)
    requires 8 <= bps <= 32 && rate > 0.0 && h.cx == cx && Rate(h) == rate
    requires NoSlips(d, half)
    ensures var e := ExpectHeader(d, bps, h);
            NoSlips(e, half) && Expects(e, rate, bps, cx) && e.last == ZERO && e.nonConforming == d.nonConforming
  {
    hide Rate, StepsFor;
  }

  // ---- Runs with upstream events ----------------------------------------------------------------

  ghost predicate HalfInv(
      s: Proc, ps: seq<Packet>, idx: seq<nat>, rate: real, bps: nat, cx: bool, half: bool, k: nat)
    requires k <= |ps| == |idx| && 8 <= bps <= 32 && rate > 0.0
  {
    && NoSlips(s.det, half) && (s.det.nonConforming ==> Paired(s.opt, ps, idx, k))
    && (!s.trk.first ==> s.trk.bps == bps && Expects(s.det, rate, bps, cx))
    && (!s.trk.first && s.det.last != ZERO ==>
          && Following(s.opt, s.trk, ps, idx, k)
          && Tail(s.opt, ps, k).Some? && s.det.last == ps[Tail(s.opt, ps, k).value].h.time)
  }

  /** The packet at the front as the detector meets it. */
  lemma FrontMeasured(s: Proc, ps: seq<Packet>, idx: seq<nat>, rate: real, bps: nat, cx: bool, half: bool, k: nat)
      returns (m: nat)
    requires Steady(s.opt, ps, idx, rate, bps, cx, half) && AllTight(s.opt, ps, idx, half)
    requires k < |ps| && HalfInv(s, ps, idx, rate, bps, cx, half, k)
    requires !Skips(s.opt, ps[k].h) && !s.trk.first && s.trk.expected == ps[k].h.seqNo
    requires s.det.last != ZERO && ps[k].h.ttv && Elapsed(s.det, ps[k].h) >= 0.0
    ensures m > 0 && Elapsed(s.det, ps[k].h) == Times(m, TrueStep(rate, bps, cx, half))
    ensures m == 1 || (half && !s.det.nonConforming && m == 2)
    ensures m == 1 ==> Pair(s.opt, ps, idx, k)
  {
    hide TrueStep, Times, Expects, NoSlips, Paired, Tail, LastKept, Continues, Wire;
    FollowingContinues(s.opt, s.trk, ps, idx, k);
    var i := Tail(s.opt, ps, k).value;
    assert Measured(s.opt, ps, k) == Some(i);
    assert Tight(s.opt, ps, idx, half, k);
    assert idx[i] < idx[k];
    m := Distance(idx, i, k);
  }

  /** What the front packet does to the detector, however the pass ends. */
  lemma FrontDetector(s: Proc, ps: seq<Packet>, idx: seq<nat>, rate: real, bps: nat, cx: bool, half: bool, k: nat)
    requires Steady(s.opt, ps, idx, rate, bps, cx, half) && AllTight(s.opt, ps, idx, half)
    requires k < |ps| && HalfInv(s, ps, idx, rate, bps, cx, half, k)
    requires !Skips(s.opt, ps[k].h) && (s.trk.first || s.trk.expected == ps[k].h.seqNo)
    ensures var h := ps[k].h; var o := CheckOrder(s.trk, s.det, h);
            && o.valid && o.trk.bps == bps && !o.trk.first && NoSlips(o.det, half) && Expects(o.det, rate, bps, cx)
            && o.det.nonConforming == s.det.nonConforming
            && (if s.trk.first then o.det.last == ZERO else o.det == s.det && o.trk == s.trk)
            && (var e := Check(o.det, bps, h);
                && NoSlips(e, half) && Expects(e, rate, bps, cx)
                && e.last == (if h.ttv then h.time else o.det.last)
                && (e.nonConforming ==> Paired(s.opt, ps, idx, k + 1)))
            && (var e := ExpectHeader(o.det, bps, h);
                && NoSlips(e, half) && Expects(e, rate, bps, cx) && e.last == ZERO
                && e.nonConforming == s.det.nonConforming)
  {
    hide Check, ExpectHeader, NoSlips, Expects, TrueStep, Rate, Times, Tail, Following, Paired, AllTight, TimedBy, Pair;
    var h := ps[k].h;
    ExpectHeaderKeepsHalf(s.det, h, rate, bps, cx, half);
    PairedNext(s.opt, ps, idx, k);
    var o := CheckOrder(s.trk, s.det, h);
    var m := 1;
    if o.det.last != ZERO && h.ttv && Elapsed(o.det, h) >= 0.0 {
      m := FrontMeasured(s, ps, idx, rate, bps, cx, half, k);
    }
    CheckKeepsHalf(o.det, h, rate, bps, cx, half, m);
    ExpectHeaderKeepsHalf(o.det, h, rate, bps, cx, half);
  }

  lemma PairedNext(opt: Options, ps: seq<Packet>, idx: seq<nat>, k: nat)
    requires k < |ps| == |idx|
    ensures Paired(opt, ps, idx, k) || Pair(opt, ps, idx, k) <==> Paired(opt, ps, idx, k + 1)
  {
    hide Pair;
  }

  lemma PassKeepsHalf(
      s: Proc, ps: seq<Packet>, idx: seq<nat>, rate: real, bps: nat, cx: bool, half: bool, k: nat, year: int)
    requires Steady(s.opt, ps, idx, rate, bps, cx, half) && AllTight(s.opt, ps, idx, half)
    requires UsableBps(s.trk.bps) && k < |ps|
    requires HalfInv(s, ps, idx, rate, bps, cx, half, k)
    ensures var r := Offer(s, ps[k], year);
            HalfInv(r.s, ps, idx, rate, bps, cx, half, if r.consumed then k + 1 else k)
  {
    hide Offer, Check, ExpectHeader, NoSlips, Expects, Paired, Tail, Wire, TimedBy, AllTight;
    var p, r := ps[k], Offer(s, ps[k], year);
    OfferMoves(s, p, year);
    PairedNext(s.opt, ps, idx, k);
    TailNext(s.opt, ps, k);
    if Skips(s.opt, p.h) {
      hide CheckOrder, Pair;
    } else if s.trk.first || s.trk.expected == p.h.seqNo {
      PassAtFront(s, ps, idx, k, year);
      FrontDetector(s, ps, idx, rate, bps, cx, half, k);
      if !s.trk.first && s.det.last != ZERO {
        FollowingContinues(s.opt, s.trk, ps, idx, k);
      }
      hide Pair, LastKept, CheckOrder, Continues;
    }
  }

  lemma UpcallKeepsHalf(
      s: Proc, ps: seq<Packet>, idx: seq<nat>, rate: real, bps: nat, cx: bool, half: bool, k: nat, e: UpstreamEvent)
    requires k <= |ps| == |idx| && 8 <= bps <= 32 && rate > 0.0
    requires HalfInv(s, ps, idx, rate, bps, cx, half, k)
    ensures HalfInv(Apply(s, e), ps, idx, rate, bps, cx, half, k)
  {
    hide StepsFor, LastKept, Following, Paired, Tail;
  }

  lemma {:induction false} RunKeepsHalf(
      at: Position, ps: seq<Packet>, idx: seq<nat>, rate: real, bps: nat, cx: bool, half: bool, acts: seq<Act>)
    requires Ready(at, ps) && Steady(at.s.opt, ps, idx, rate, bps, cx, half) && AllTight(at.s.opt, ps, idx, half)
    requires HalfInv(at.s, ps, idx, rate, bps, cx, half, at.k)
    ensures var r := Run(at, ps, acts); HalfInv(r.s, ps, idx, rate, bps, cx, half, r.k)
    decreases |acts|
  {
    hide Offer, Apply, HalfInv, AllTight, TimedBy;
    if acts != [] {
      match acts[0] {
        case Pass(year) =>
          if at.k < |ps| {
            PassKeepsHalf(at.s, ps, idx, rate, bps, cx, half, at.k, year);
          }
        case Upcall(e) =>
          UpcallKeepsHalf(at.s, ps, idx, rate, bps, cx, half, at.k, e);
      }
      RunKeepsHalf(Next(at, ps, acts[0]), ps, idx, rate, bps, cx, half, acts[1..]);
    }
  }

  /**
    A stream whose true step is the header's, or a complex one whose step is exactly half of it,
    counts no time slip, whatever packets are lost, wherever time goes back and whatever SRIs
    arrive, as long as the packets without a time tag and the losses that go unnoticed leave the
    tagged ones tight.
    Once a device is marked non-conforming the expected step is half the header's.
   */
  lemma SteadyCountsNoSlips(
      setup: Setup, ps: seq<Packet>, idx: seq<nat>, rate: real, bps: nat, cx: bool, half: bool, acts: seq<Act>)
    requires Steady(setup.opt, ps, idx, rate, bps, cx, half) && AllTight(setup.opt, ps, idx, half)
    ensures var s := Run(Position(Fresh(setup), 0), ps, acts).s;
            && s.det.slips == 0 && s.det.accum == 0.0
            && (s.det.nonConforming ==> half)
            && (s.det.nonConforming && !s.trk.first ==>
                  s.det.steps.Steps? && s.det.steps.ideal == StepsFor(rate, bps, cx).ideal / 2.0)
  {
    RunKeepsHalf(Position(Fresh(setup), 0), ps, idx, rate, bps, cx, half, acts);
    DoubledRate(rate, bps, cx);
    hide Run;
  }

  /** If every packet has a time tag or is skipped, and no loss goes unnoticed, all are tight. */
  lemma AllTaggedIsTight(opt: Options, ps: seq<Packet>, idx: seq<nat>, half: bool)
    requires Numbered(ps, idx) && GapsShow(opt, ps, idx)
    requires forall k :: 0 <= k < |ps| ==> ps[k].h.ttv || opt.waitForTtv
    ensures AllTight(opt, ps, idx, half)
  {
    hide Paired, Wire, GapsShow;
    forall k: nat | k < |ps| ensures Tight(opt, ps, idx, half, k) {
      if Measured(opt, ps, k).Some? {
        TailIsLast(opt, ps, k);
        ContinuesIsNext(opt, ps, idx, k);
      }
      hide Tail, LastKept;
    }
  }

  lemma {:induction false} TailIsLast(opt: Options, ps: seq<Packet>, k: nat)
    requires k <= |ps| && forall j :: 0 <= j < |ps| ==> ps[j].h.ttv || opt.waitForTtv
    ensures Tail(opt, ps, k).Some? ==> Tail(opt, ps, k) == LastKept(opt, ps, k)
  {
    if k > 0 && Skips(opt, ps[k - 1].h) {
      TailIsLast(opt, ps, k - 1);
    }
  }

  /** Two sample periods count as one exactly when they are closer than 50 ns. */
  lemma SameXdeltaIff(a: real, b: real)
    ensures SameXdelta(Finite(a), Finite(b)) <==> Abs(a - b) < 0.000_000_05
  {
  }

  /**
    What it means for a header to confirm an SRI: the sample period is within 50 ns of one over the
    true rate, which is twice the header's for a non-conforming device, and the modes agree.
   */
  lemma HeaderAgreesIff(h: Header, sri: Sri, nonConforming: bool)
    ensures HeaderAgrees(h, sri, nonConforming) <==>
            var rate := ExpectedRate(nonConforming, h);
            && h.freq > 0 && sri.xdelta.Finite? && sri.mode == (if h.cx then 1 else 0)
            && Abs(sri.xdelta.v * rate - 1.0) < 0.000_000_05 * rate
  {
    hide Rate, SameXdelta, HeaderXdelta, Abs, ExpectedRate;
    HeaderPeriod(h, nonConforming);
    if h.freq > 0 && sri.xdelta.Finite? {
      var rate, v := ExpectedRate(nonConforming, h), sri.xdelta.v;
      AgreesByPeriod(h, sri, nonConforming, rate, v);
      assert sri.xdelta.v * ExpectedRate(nonConforming, h) == v * rate;
    } else {
      NotNear(HeaderXdelta(h, nonConforming), sri.xdelta);
    }
  }

  lemma AgreesByPeriod(h: Header, sri: Sri, nonConforming: bool, rate: real, v: real)
    requires rate > 0.0 && HeaderXdelta(h, nonConforming) == Finite(1.0 / rate) && sri.xdelta == Finite(v)
    ensures HeaderAgrees(h, sri, nonConforming) <==>
            sri.mode == (if h.cx then 1 else 0) && Abs(v * rate - 1.0) < 0.000_000_05 * rate
  {
    PeriodNear(rate, v);
    hide SameXdelta, HeaderXdelta;
  }

  lemma NotNear(a: Xdelta, b: Xdelta)
    requires a.Infinite? || b.Infinite?
    ensures !SameXdelta(a, b)
  {
  }

  lemma HeaderPeriod(h: Header, nonConforming: bool)
    ensures h.freq == 0 ==> HeaderXdelta(h, nonConforming) == Infinite
    ensures h.freq > 0 ==>
              var rate := ExpectedRate(nonConforming, h);
              rate > 0.0 && HeaderXdelta(h, nonConforming) == Finite(1.0 / rate)
  {
    hide Rate;
    if h.freq > 0 {
      HalvedPeriod(Rate(h));
    }
  }

  lemma HalvedPeriod(r: real)
    requires r > 0.0
    ensures 1.0 / r * 0.5 == 1.0 / (2.0 * r)
  {
    var x := 1.0 / r;
    assert x * r == 1.0;
    assert (x * 0.5) * (2.0 * r) == 1.0;
    QuotientUnique(1.0, 2.0 * r, x * 0.5);
  }

  lemma PeriodNear(r: real, v: real)
    requires r > 0.0
    ensures SameXdelta(Finite(1.0 / r), Finite(v)) <==> Abs(v * r - 1.0) < 0.000_000_05 * r
  {
    var x := 1.0 / r;
    SameXdeltaIff(x, v);
    ScaledDifference(x, v, r);
    ScaledBelow(x - v, r, (x - v) * r, 0.000_000_05);
    hide SameXdelta;
  }

  lemma ScaledDifference(x: real, v: real, r: real)
    requires r > 0.0 && x == 1.0 / r
    ensures (x - v) * r == 1.0 - v * r
  {
    assert x * r == 1.0;
  }

  lemma ScaledBelow(x: real, r: real, y: real, bound: real)
    requires r > 0.0 && y == x * r
    ensures Abs(x) < bound <==> Abs(y) < bound * r
  {
    if x < 0.0 {
      assert (bound + x) * r == bound * r + x * r;
    } else {
      assert (bound - x) * r == bound * r - x * r;
    }
  }

  /**
    Marking a device non-conforming halves the sample period it is compared with, but the output
    SRI follows only up to 10 MHz: above that the change is below the comparison's resolution.
   */
  lemma AdaptedSriPushedIff(h: Header, sri: Sri)
    requires Rate(h) > 0.0 && sri.xdelta == HeaderXdelta(h, false) && sri.mode == HeaderMode(h)
    ensures !HeaderAgrees(h, sri, true) <==> Rate(h) <= 10_000_000.0
  {
    var r := Rate(h);
    var x := 1.0 / r;
    assert x * r == 1.0 && x > 0.0;
    SameXdeltaIff(x * 0.5, x);
    hide Rate, SameXdelta;
    if r <= 10_000_000.0 {
      assert x * 10_000_000.0 >= x * r;
    } else {
      assert x * 10_000_000.0 < x * r;
    }
  }
}
