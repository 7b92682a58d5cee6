/** Streams that show what the component does not guarantee. */
module Examples {

  import opened ByteOrder
  import opened SddsTimes
  import opened SddsPackets
  import opened SequenceCounter
  import opened SlipDetector
  import opened Processor
  import opened Positions
  import opened Sequences
  import opened Folding
  import opened Announcements
  import opened OwnStreams
  import opened Anchors
  import opened HalfRate
  import opened Slips
  import Livelock

  // ---- A steady stream that costs a slip ----------------------------------------------------------

  /** 8-bit samples at 7.45 Hz, m packets after the time zero: each lasts 2^39 ticks. */
  function Ticking(n: nat, m: nat, ttv: bool, d: seq<byte>): Packet
    requires n < 3 && m <= 3
  {
    Packet(Plain(n, 8, SLOW).(ttv := ttv, time := SddsTime(m * 0x80_0000_0000, 0)), d)
  }

  /** Exactly steady packets, but the one in the middle has no valid time tag. */
  function Flickering(d: seq<byte>): seq<Packet> {
    [Ticking(0, 1, true, d), Ticking(1, 2, false, d), Ticking(2, 3, true, d)]
  }

  /**
    An untagged packet between two tagged ones costs a slip on a stream that is exactly steady:
    the time seen last is two packets old.
   */
  lemma UntaggedCostsASlip(setup: Setup, d: seq<byte>)
    requires |d| == PAYLOAD && !setup.opt.waitForTtv
    ensures var ps, idx, rate := Flickering(d), [0, 1, 2], 125_000_000.0 / 16_777_216.0;
            && Steady(setup.opt, ps, idx, rate, 8, false, false)
            && (forall years :: var r := Run(Position(Fresh(setup), 0), ps, Passes(years));
                  r.k == |ps| ==> r.s.det.slips == 1)
            && (exists years :: Run(Position(Fresh(setup), 0), ps, Passes(years)).k == |ps|)
  {
    hide Run, Steady, Rate, Flickering, Uniform, Passes, AllUsable;
    var ps, idx, rate := Flickering(d), [0, 1, 2], 125_000_000.0 / 16_777_216.0;
    FlickeringIsSteady(setup.opt, d);
    SteadyIsUniform(setup.opt, ps, idx, rate, 8, false, false);
    forall years | Run(Position(Fresh(setup), 0), ps, Passes(years)).k == |ps|
      ensures Run(Position(Fresh(setup), 0), ps, Passes(years)).s.det.slips == 1
    {
      SlipsAreLoosePackets(setup, ps, idx, rate, 8, false, years);
    }
    assert forall i :: 0 <= i < |ps| ==> Rate(ps[i].h) > 0.0 by { UniformRates(ps, idx, rate, 8, false); }
    var years := Livelock.CanBeConsumed(setup, ps);
  }

  lemma UniformRates(ps: seq<Packet>, idx: seq<nat>, rate: real, bps: nat, cx: bool)
    requires Uniform(ps, idx, rate, bps, cx)
    ensures forall i :: 0 <= i < |ps| ==> Rate(ps[i].h) > 0.0
  {
    hide Rate, BitsPerSample, Wire;
  }

  lemma FlickeringIsSteady(opt: Options, d: seq<byte>)
    requires |d| == PAYLOAD && !opt.waitForTtv
    ensures var ps, idx, rate := Flickering(d), [0, 1, 2], 125_000_000.0 / 16_777_216.0;
            && |ps| == 3 && Steady(opt, ps, idx, rate, 8, false, false) && LooseCount(opt, ps, idx, 3) == 1
  {
    var ps, idx := Flickering(d), [0, 1, 2];
    FlickeringIsUniform(d);
    FlickeringIsTimed(d);
    MeasuredOverOne(opt, ps, idx);
    hide Uniform, Flickering, Measured, TrueStep, Times, Loose;
    assert LooseCount(opt, ps, idx, 1) == LooseCount(opt, ps, idx, 0);
    assert LooseCount(opt, ps, idx, 2) == LooseCount(opt, ps, idx, 1);
  }

  lemma FlickeringIsUniform(d: seq<byte>)
    requires |d| == PAYLOAD
    ensures Uniform(Flickering(d), [0, 1, 2], 125_000_000.0 / 16_777_216.0, 8, false)
  {
    var ps, idx := Flickering(d), [0, 1, 2];
    TickingHeader(0, 1, true, d);
    TickingHeader(1, 2, false, d);
    TickingHeader(2, 3, true, d);
    hide Rate, Ticking, Usable, BitsPerSample;
    hide Wire;
  }

  lemma TickingHeader(n: nat, m: nat, ttv: bool, d: seq<byte>)
    requires n < 3 && m <= 3 && |d| == PAYLOAD
    ensures var p := Ticking(n, m, ttv, d);
            && Usable(p) && !p.h.cx && Rate(p.h) == 125_000_000.0 / 16_777_216.0 && BitsPerSample(p.h) == 8
            && p.h.seqNo == Wire(n)
  {
  }

  /** Three packets in sequence of which the middle one has no time tag. */
  lemma MeasuredOverOne(opt: Options, ps: seq<Packet>, idx: seq<nat>)
    requires |ps| == 3 && idx == [0, 1, 2] && !opt.waitForTtv && Numbered(ps, idx)
    requires ps[0].h.ttv && !ps[1].h.ttv && ps[2].h.ttv && ps[0].h.time != ZERO && !Back(ps, 0, 2)
    ensures Measured(opt, ps, 0) == None && Measured(opt, ps, 1) == None && Measured(opt, ps, 2) == Some(0)
    ensures !Loose(opt, ps, idx, 0) && !Loose(opt, ps, idx, 1) && Loose(opt, ps, idx, 2)
  {
    hide Tail, Wire, Successor;
    assert LastKept(opt, ps, 1) == Some(0) && LastKept(opt, ps, 2) == Some(1);
    SuccessorOfWire(0);
    SuccessorOfWire(1);
    assert Continues(opt, ps, 1) && Continues(opt, ps, 2);
    TailNext(opt, ps, 0);
    TailNext(opt, ps, 1);
    assert Tail(opt, ps, 0) == None by { EmptyTail(opt, ps); }
    hide LastKept, Continues;
  }

  lemma EmptyTail(opt: Options, ps: seq<Packet>)
    ensures Tail(opt, ps, 0) == None
  {
  }

  lemma FlickeringIsTimed(d: seq<byte>)
    ensures var ps, rate := Flickering(d), 125_000_000.0 / 16_777_216.0;
            ps[2].h.time.Seconds() - ps[0].h.time.Seconds() == Times(2, TrueStep(rate, 8, false, false))
  {
    var rate := 125_000_000.0 / 16_777_216.0;
    var step := TrueStep(rate, 8, false, false);
    assert step == 137.438953472;
    assert Times(2, step) == Times(1, step) + step && Times(1, step) == Times(0, step) + step;
  }

  // ---- A steady stream over the end of a year -----------------------------------------------------

  /** Exactly steady packets, but at the second one the sender's time begins anew. */
  function NewYear(d: seq<byte>): seq<Packet> {
    [Ticking(0, 3, true, d), Ticking(1, 1, true, d), Ticking(2, 2, true, d)]
  }

  /** Time that goes back is no slip, and what follows is measured from where it went back to. */
  lemma NewYearCostsNothing(setup: Setup, d: seq<byte>, acts: seq<Act>)
    requires |d| == PAYLOAD
    ensures var ps, idx, rate := NewYear(d), [0, 1, 2], 125_000_000.0 / 16_777_216.0;
            && |ps| == 3 && Back(ps, 0, 1) && Measured(setup.opt, ps, 2) == Some(1)
            && Steady(setup.opt, ps, idx, rate, 8, false, false)
            && Run(Position(Fresh(setup), 0), ps, acts).s.det.slips == 0
  {
    hide Run, Rate, NewYear, Uniform, TimedBy, AllTight, Wire, Measured;
    var ps, idx, rate := NewYear(d), [0, 1, 2], 125_000_000.0 / 16_777_216.0;
    NewYearIsUniform(d);
    NewYearIsTimed(setup.opt, d);
    NewYearIsTight(setup.opt, ps, idx);
    SteadyCountsNoSlips(setup, ps, idx, rate, 8, false, false, acts);
  }

  lemma NewYearIsUniform(d: seq<byte>)
    requires |d| == PAYLOAD
    ensures var ps := NewYear(d);
            && Uniform(ps, [0, 1, 2], 125_000_000.0 / 16_777_216.0, 8, false) && |ps| == 3 && Numbered(ps, [0, 1, 2])
            && (forall i :: 0 <= i < 3 ==> ps[i].h.ttv && ps[i].h.time != ZERO)
            && Back(ps, 0, 1) && !Back(ps, 1, 2)
  {
    TickingHeader(0, 3, true, d);
    TickingHeader(1, 1, true, d);
    TickingHeader(2, 2, true, d);
    assert Back(NewYear(d), 0, 1) && !Back(NewYear(d), 1, 2);
    assert forall i :: 0 <= i < 3 ==> NewYear(d)[i].h.ttv && NewYear(d)[i].h.time != ZERO;
    hide Rate, Ticking, Usable, BitsPerSample, Back, Wire;
  }

  lemma NewYearIsTimed(opt: Options, d: seq<byte>)
    requires |d| == PAYLOAD
    ensures var ps := NewYear(d);
            && Measured(opt, ps, 2) == Some(1)
            && TimedBy(opt, ps, [0, 1, 2], TrueStep(125_000_000.0 / 16_777_216.0, 8, false, false))
  {
    var ps, idx, step := NewYear(d), [0, 1, 2], TrueStep(125_000_000.0 / 16_777_216.0, 8, false, false);
    assert step == 137.438953472 && Times(1, step) == Times(0, step) + step;
    assert ps[2].h.time.Seconds() - ps[1].h.time.Seconds() == step;
    NewYearIsUniform(d);
    hide NewYear, TrueStep, Times, Uniform, Back;
    MeasuredAfterBack(opt, ps, idx);
    hide Measured;
  }

  /** Three tagged packets in sequence, of which the second one goes back in time. */
  lemma MeasuredAfterBack(opt: Options, ps: seq<Packet>, idx: seq<nat>)
    requires |ps| == 3 && idx == [0, 1, 2] && Numbered(ps, idx)
    requires forall i :: 0 <= i < 3 ==> ps[i].h.ttv && ps[i].h.time != ZERO
    requires Back(ps, 0, 1) && !Back(ps, 1, 2)
    ensures Measured(opt, ps, 0) == None && Measured(opt, ps, 1) == None && Measured(opt, ps, 2) == Some(1)
  {
    hide Tail, Wire, Successor, Back;
    assert LastKept(opt, ps, 0) == None && LastKept(opt, ps, 1) == Some(0) && LastKept(opt, ps, 2) == Some(1);
    SuccessorOfWire(0);
    SuccessorOfWire(1);
    TailNext(opt, ps, 0);
    TailNext(opt, ps, 1);
    hide LastKept;
  }

  lemma NewYearIsTight(opt: Options, ps: seq<Packet>, idx: seq<nat>)
    requires |ps| == 3 && idx == [0, 1, 2] && Numbered(ps, idx)
    requires forall i :: 0 <= i < |ps| ==> ps[i].h.ttv
    ensures AllTight(opt, ps, idx, false)
  {
    hide AllTight, Wire;
    assert forall k: nat :: k < 3 ==> LastKept(opt, ps, k) == if k == 0 then None else Some(k - 1);
    assert GapsShow(opt, ps, idx) by { hide LastKept; }
    AllTaggedIsTight(opt, ps, idx, false);
  }

  // ---- A half-rate device whose data changes width ------------------------------------------------

  /** Tagged complex packets of 16-bit samples, half as far apart as their header says. */
  function Hasty(n: nat, seqNo: u16, bps: nat, d: seq<byte>): Packet
    requires n < 4
  {
    Packet(Header(seqNo, true, SddsTime((n + 1) * 0x10_0000_0000, 0), bps, true, false, FAST), d)
  }

  function Hurry(d: seq<byte>): seq<Packet> {
    [Hasty(0, 0, 16, d), Hasty(1, 1, 16, d), Hasty(2, 2, 16, d)]
  }

  /** After a loss the device sends 8-bit samples, at the same rate and in the same mode. */
  function HurryAndNarrow(d: seq<byte>): seq<Packet> {
    Hurry(d) + [Hasty(3, 5, 8, d)]
  }

  lemma HastyHeader(n: nat, seqNo: u16, bps: nat, d: seq<byte>)
    requires n < 4 && bps in {8, 16} && |d| == PAYLOAD
    ensures var p := Hasty(n, seqNo, bps, d);
            && Usable(p) && p.h.cx && p.h.ttv && Rate(p.h) == 125_000_000.0 / 16_777_216.0
            && p.h.bps == BitsPerSample(p.h) == bps && p.h.seqNo == seqNo && p.h.time != ZERO
            && HeaderXdelta(p.h, false) == Finite(0.134217728) && HeaderXdelta(p.h, true) == Finite(0.067108864)
  {
  }

  /** The packets before the change are exactly half a step apart. */
  lemma HurryIsSteady(opt: Options, d: seq<byte>)
    requires |d| == PAYLOAD && !opt.waitForTtv
    ensures var ps, idx, rate := Hurry(d), [0, 1, 2], 125_000_000.0 / 16_777_216.0;
            && Steady(opt, ps, idx, rate, 16, true, true)
            && !Known(opt, ps, idx, true, 0) && !Known(opt, ps, idx, true, 1)
            && Known(opt, ps, idx, true, 2) && Known(opt, ps, idx, true, 3)
  {
    hide Hurry, Measured, Known, Wire, Uniform, TimedBy;
    var ps, idx := Hurry(d), [0, 1, 2];
    HurryIsUniform(d);
    MeasuredByOne(opt, ps, idx);
    HurryIsTimed(opt, d);
    KnownAfterPair(opt, ps, idx);
  }

  lemma HurryIsUniform(d: seq<byte>)
    requires |d| == PAYLOAD
    ensures var ps, idx, rate := Hurry(d), [0, 1, 2], 125_000_000.0 / 16_777_216.0;
            && |ps| == 3 && Numbered(ps, idx) && Uniform(ps, idx, rate, 16, true)
            && !Back(ps, 0, 1) && !Back(ps, 1, 2)
            && forall i :: 0 <= i < 3 ==> ps[i].h.ttv && ps[i].h.time != ZERO
  {
    HastyIsTimed(d, 0);
    HastyIsTimed(d, 1);
    assert Wire(0) == 0 && Wire(1) == 1 && Wire(2) == 2;
    HastyHeader(0, 0, 16, d);
    HastyHeader(1, 1, 16, d);
    HastyHeader(2, 2, 16, d);
    hide Rate, HeaderXdelta, Usable, BitsPerSample, Hasty, Wire, Times, TrueStep;
  }

  lemma HurryIsTimed(opt: Options, d: seq<byte>)
    requires var ps := Hurry(d);
             && |ps| == 3 && Measured(opt, ps, 0) == None
             && Measured(opt, ps, 1) == Some(0) && Measured(opt, ps, 2) == Some(1)
    ensures TimedBy(opt, Hurry(d), [0, 1, 2], TrueStep(125_000_000.0 / 16_777_216.0, 16, true, true))
  {
    hide Measured, Hasty, TrueStep, Times;
    HastyIsTimed(d, 0);
    HastyIsTimed(d, 1);
  }

  lemma HastyIsTimed(d: seq<byte>, n: nat)
    requires n < 2
    ensures Hasty(n + 1, n + 1, 16, d).h.time.Seconds() - Hasty(n, n, 16, d).h.time.Seconds()
            == Times(1, TrueStep(125_000_000.0 / 16_777_216.0, 16, true, true)) > 0.0
  {
    var step := TrueStep(125_000_000.0 / 16_777_216.0, 16, true, true);
    assert step == 17.179869184;
    assert Times(1, step) == Times(0, step) + step;
  }

  /** Three tagged packets in sequence: each is measured against the one before it. */
  lemma MeasuredByOne(opt: Options, ps: seq<Packet>, idx: seq<nat>)
    requires |ps| == 3 && idx == [0, 1, 2] && !opt.waitForTtv && Numbered(ps, idx)
    requires forall i :: 0 <= i < 3 ==> ps[i].h.ttv && ps[i].h.time != ZERO
    requires !Back(ps, 0, 1) && !Back(ps, 1, 2)
    ensures Measured(opt, ps, 0) == None && Measured(opt, ps, 1) == Some(0) && Measured(opt, ps, 2) == Some(1)
  {
    hide Tail, Wire, Successor;
    assert LastKept(opt, ps, 0) == None && LastKept(opt, ps, 1) == Some(0) && LastKept(opt, ps, 2) == Some(1);
    SuccessorOfWire(0);
    SuccessorOfWire(1);
    TailNext(opt, ps, 0);
    TailNext(opt, ps, 1);
    hide LastKept;
  }

  lemma KnownAfterPair(opt: Options, ps: seq<Packet>, idx: seq<nat>)
    requires |ps| == 3 && idx == [0, 1, 2]
    requires Measured(opt, ps, 0) == None && Measured(opt, ps, 1) == Some(0) && Measured(opt, ps, 2) == Some(1)
    ensures !Known(opt, ps, idx, true, 0) && !Known(opt, ps, idx, true, 1)
    ensures Known(opt, ps, idx, true, 2) && Known(opt, ps, idx, true, 3)
  {
    hide Measured;
    DeciderNext(opt, ps, idx, 0);
    DeciderNext(opt, ps, idx, 1);
    DeciderNext(opt, ps, idx, 2);
    assert Decider(opt, ps, idx, 0) == None;
    hide Decider;
  }

  /** What is carried along depends on the packets before alone. */
  lemma {:induction false} LineOfPrefix(opt: Options, ps: seq<Packet>, more: seq<Packet>, k: nat)
    requires k <= |ps| && AllUsable(ps) && AllUsable(ps + more)
    ensures LineAt(opt, ps + more, k) == LineAt(opt, ps, k)
  {
    hide Consume;
    if k > 0 {
      LineOfPrefix(opt, ps, more, k - 1);
    }
  }

  lemma HurrySays(opt: Options, d: seq<byte>)
    requires |d| == PAYLOAD && !opt.waitForTtv
    ensures var ps := HurryAndNarrow(d);
            && |ps| == 4 && AllUsable(ps) && AllStandard(ps)
            && (forall i :: 0 <= i < |ps| ==> Rate(ps[i].h) > 0.0)
            && Says(opt, ps, 0) == Says(opt, ps, 1) == Content(Finite(0.134217728), 1)
            && Says(opt, ps, 2) == Says(opt, ps, 3) == Content(Finite(0.067108864), 1)
  {
    hide Rate, HeaderXdelta, Usable, Hasty, Steady, Known, LineAt, BitsPerSample;
    var hurry, ps, rate := Hurry(d), HurryAndNarrow(d), 125_000_000.0 / 16_777_216.0;
    HastyHeader(0, 0, 16, d);
    HastyHeader(1, 1, 16, d);
    HastyHeader(2, 2, 16, d);
    HastyHeader(3, 5, 8, d);
    assert AllUsable(hurry) && AllUsable(ps) && AllStandard(ps);
    hide AllUsable;
    HurryFlags(opt, d, 0);
    HurryFlags(opt, d, 1);
    HurryFlags(opt, d, 2);
    HurryFlags(opt, d, 3);
    hide Flag;
  }

  lemma HurryFlags(opt: Options, d: seq<byte>, k: nat)
    requires |d| == PAYLOAD && !opt.waitForTtv && k <= 3
    requires AllUsable(Hurry(d)) && AllUsable(HurryAndNarrow(d))
    ensures Flag(opt, HurryAndNarrow(d), k) <==> k >= 2
  {
    hide Steady, Known, LineAt, Hasty, AllUsable;
    HurryIsSteady(opt, d);
    FlagIsKnown(opt, Hurry(d), [0, 1, 2], 125_000_000.0 / 16_777_216.0, 16, true, true, k);
    LineOfPrefix(opt, Hurry(d), [Hasty(3, 5, 8, d)], k);
  }

  lemma HurryIsStale(opt: Options, d: seq<byte>)
    requires |d| == PAYLOAD && !opt.waitForTtv && AllUsable(HurryAndNarrow(d))
    requires var ps := HurryAndNarrow(d);
             && Says(opt, ps, 0) == Says(opt, ps, 1) != Says(opt, ps, 2) && Says(opt, ps, 2) == Says(opt, ps, 3)
    ensures Stale(opt, HurryAndNarrow(d), 3)
  {
    hide Says, Flag;
    var ps := HurryAndNarrow(d);
    assert LastKept(opt, ps, 0) == None && LastKept(opt, ps, 1) == Some(0) && LastKept(opt, ps, 2) == Some(1);
    assert LastKept(opt, ps, 3) == Some(2);
    assert Successor(0) == 1 && Successor(1) == 2 && Successor(2) == 3;
    assert Width(opt, ps, 0) == 16 && Width(opt, ps, 1) == 16 && Width(opt, ps, 2) == 16 && Width(opt, ps, 3) == 8;
    hide LastKept, Width, Successor;
    assert Speaker(opt, ps, 1, 8) == Some(0) && Speaker(opt, ps, 2, 8) == Some(0) && Speaker(opt, ps, 3, 8) == Some(0);
  }

  /**
    One rate and one mode in all headers are not enough: the halved sample period of a device found
    non-conforming is announced on the stream of the current width only, and the first packet of
    another width goes out under twice the true period.
   */
  lemma AdaptedWidthChangeGoesStale(setup: Setup, d: seq<byte>)
    requires |d| == PAYLOAD && !setup.opt.waitForTtv
    ensures var ps := HurryAndNarrow(d);
            && AllStandard(ps) && Separated(setup.opt, ps) && Stale(setup.opt, ps, 3)
            && (forall i, j :: 0 <= i < |ps| && 0 <= j < |ps| ==>
                  Rate(ps[i].h) == Rate(ps[j].h) && ps[i].h.cx == ps[j].h.cx)
            && (forall years :: var r := Run(Position(Fresh(setup), 0), ps, Passes(years));
                  r.k == |ps| ==> !GovernedOnOwn(r.s.out.log))
            && (exists years :: Run(Position(Fresh(setup), 0), ps, Passes(years)).k == |ps|)
  {
    hide Run, GovernedOnOwn, Says, Stale, AllStandard, Rate, HurryAndNarrow, Separated;
    var ps := HurryAndNarrow(d);
    HurrySays(setup.opt, d);
    HurryIsStale(setup.opt, d);
    FourToldApart(setup.opt, ps);
    HurryIsOneRate(d);
    StaleRuns(setup, ps, 3);
  }

  lemma FourToldApart(opt: Options, ps: seq<Packet>)
    requires |ps| == 4 && AllUsable(ps) && forall i :: 0 <= i < 4 ==> Rate(ps[i].h) > 0.0
    requires Says(opt, ps, 0) == Says(opt, ps, 1) == Content(Finite(0.134217728), 1)
    requires Says(opt, ps, 2) == Says(opt, ps, 3) == Content(Finite(0.067108864), 1)
    ensures Separated(opt, ps)
  {
    hide Says, Rate;
  }

  lemma HurryIsOneRate(d: seq<byte>)
    requires |d| == PAYLOAD
    ensures var ps := HurryAndNarrow(d);
            && |ps| == 4
            && forall i, j :: 0 <= i < |ps| && 0 <= j < |ps| ==>
                 Rate(ps[i].h) == Rate(ps[j].h) && ps[i].h.cx == ps[j].h.cx
  {
    HastyHeader(0, 0, 16, d);
    HastyHeader(1, 1, 16, d);
    HastyHeader(2, 2, 16, d);
    HastyHeader(3, 5, 8, d);
    hide Rate, HeaderXdelta, Usable, Hasty;
  }
}
