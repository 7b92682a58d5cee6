/**
  Time slips counted over whole runs, exactly, when no upstream SRI arrives: on streams at the
  header's step or half of it, and on streams with a constant error.
 */
module Slips {

  import opened SddsTimes
  import opened SddsPackets
  import opened SequenceCounter
  import opened SlipDetector
  import opened Processor
  import opened Positions
  import opened Sequences
  import opened Folding
  import opened Anchors
  import opened HalfRate
  import OwnStreams

  // ---- On packets -------------------------------------------------------------------------------

  /** Is packet k measured, but not by two steps? At half the step two look like one of the header's. */
  predicate Odd(opt: Options, ps: seq<Packet>, idx: seq<nat>, k: nat)
    requires k < |ps| == |idx|
  {
    var i := Measured(opt, ps, k);
    i.Some? && Distance(idx, i.value, k) != 2
  }

  /** The first such packet before position k. It decides what a device at half the step is taken for. */
  function Decider(opt: Options, ps: seq<Packet>, idx: seq<nat>, k: nat): (r: Option<nat>)
    requires k <= |ps| == |idx|
    ensures r.Some? ==> r.value < k && Odd(opt, ps, idx, r.value)
  {
    if k == 0 then None
    else
      var before := Decider(opt, ps, idx, k - 1);
      if before.None? && Odd(opt, ps, idx, k - 1) then Some(k - 1) else before
  }

  /** Is the device known to be non-conforming before packet k? */
  predicate Known(opt: Options, ps: seq<Packet>, idx: seq<nat>, half: bool, k: nat)
    requires k <= |ps| == |idx|
  {
    var a := Decider(opt, ps, idx, k);
    half && a.Some? && Pair(opt, ps, idx, a.value)
  }

  /** Has it been mistaken for a conforming one, for good, because a slip was counted first? */
  predicate Mistaken(opt: Options, ps: seq<Packet>, idx: seq<nat>, half: bool, k: nat)
    requires k <= |ps| == |idx|
  {
    var a := Decider(opt, ps, idx, k);
    half && a.Some? && !Pair(opt, ps, idx, a.value)
  }

  /**
    Is packet i forgotten as an anchor? Up to 10 MHz the SRI is pushed again right after the device
    was found non-conforming, which starts the measurement afresh.
   */
  predicate Forgotten(opt: Options, ps: seq<Packet>, idx: seq<nat>, rate: real, half: bool, i: nat)
    requires i < |ps| == |idx|
  {
    half && rate <= 10_000_000.0 && Pair(opt, ps, idx, i) && Decider(opt, ps, idx, i).None?
  }

  /**
    Does packet k cost a slip? At the header's step if it is measured by more than one step. At half
    of it by more than two while the device has not been told apart, by more than one once it is
    known, and by other than two once it has been mistaken.
   */
  predicate Costs(opt: Options, ps: seq<Packet>, idx: seq<nat>, rate: real, half: bool, k: nat)
    requires k < |ps| == |idx|
  {
    var i := Measured(opt, ps, k);
    && i.Some?
    && var m := Distance(idx, i.value, k);
       if Known(opt, ps, idx, half, k) then m != 1 && !Forgotten(opt, ps, idx, rate, half, i.value)
       else if Mistaken(opt, ps, idx, half, k) then m != 2
       else m != 1 && (half ==> m != 2)
  }

  function CostCount(opt: Options, ps: seq<Packet>, idx: seq<nat>, rate: real, half: bool, k: nat): nat
    requires k <= |ps| == |idx|
  {
    if k == 0 then 0
    else CostCount(opt, ps, idx, rate, half, k - 1) + if Costs(opt, ps, idx, rate, half, k - 1) then 1 else 0
  }

  ghost predicate NoneCosts(opt: Options, ps: seq<Packet>, idx: seq<nat>, rate: real, half: bool, k: nat)
    requires k <= |ps| == |idx|
  {
    forall j: nat :: j < k ==> !Costs(opt, ps, idx, rate, half, j)
  }

  lemma {:induction false} CountIsZeroIff(
      opt: Options, ps: seq<Packet>, idx: seq<nat>, rate: real, half: bool, k: nat)
    requires k <= |ps| == |idx|
    ensures CostCount(opt, ps, idx, rate, half, k) == 0 <==> NoneCosts(opt, ps, idx, rate, half, k)
  {
    hide Costs;
    if k > 0 {
      CountIsZeroIff(opt, ps, idx, rate, half, k - 1);
    }
  }

  /** Packet k can only be what decides, and what has decided stays. */
  lemma DeciderNext(opt: Options, ps: seq<Packet>, idx: seq<nat>, k: nat)
    requires k < |ps| == |idx|
    ensures Decider(opt, ps, idx, k + 1) ==
            if Decider(opt, ps, idx, k).None? && Odd(opt, ps, idx, k) then Some(k) else Decider(opt, ps, idx, k)
    ensures Pair(opt, ps, idx, k) ==> Odd(opt, ps, idx, k)
  {
    hide Measured;
  }

  lemma {:induction false} ForgottenIsKnown(
      opt: Options, ps: seq<Packet>, idx: seq<nat>, rate: real, half: bool, i: nat, k: nat)
    requires i < k <= |ps| == |idx| && Forgotten(opt, ps, idx, rate, half, i)
    ensures Decider(opt, ps, idx, k) == Some(i) && Known(opt, ps, idx, half, k)
    decreases k
  {
    hide Pair, Odd;
    if i < k - 1 {
      ForgottenIsKnown(opt, ps, idx, rate, half, i, k - 1);
    }
    DeciderNext(opt, ps, idx, k - 1);
  }

  // ---- The fold over a uniform stream -----------------------------------------------------------

  function Period(rate: real, nonConforming: bool): Xdelta
    requires rate > 0.0
  {
    if nonConforming then Finite(1.0 / rate * 0.5) else Finite(1.0 / rate)
  }

  /** Has the SRI been adapted to the device after the first k packets? */
  predicate SriAdapted(opt: Options, ps: seq<Packet>, idx: seq<nat>, rate: real, half: bool, k: nat)
    requires k <= |ps| == |idx|
  {
    var last := LastKept(opt, ps, k);
    && Known(opt, ps, idx, half, k) && rate <= 10_000_000.0
    && !(last.Some? && Forgotten(opt, ps, idx, rate, half, last.value))
  }

  /** The packet whose time was seen last, unless it has been forgotten. */
  function Seen(opt: Options, ps: seq<Packet>, idx: seq<nat>, rate: real, half: bool, k: nat): (r: Option<nat>)
    requires k <= |ps| == |idx|
    ensures r.Some? ==> r.value < k
  {
    var i := Tail(opt, ps, k);
    if i.Some? && Forgotten(opt, ps, idx, rate, half, i.value) && LastKept(opt, ps, k) != i then None else i
  }

  /** The anchor packet k is checked against. */
  function SeenBy(opt: Options, ps: seq<Packet>, idx: seq<nat>, rate: real, half: bool, k: nat): (r: Option<nat>)
    requires k < |ps| == |idx|
    ensures r.Some? ==> r.value < k
  {
    var i := Anchor(opt, ps, k);
    if i.Some? && Forgotten(opt, ps, idx, rate, half, i.value) then None else i
  }

  function TimeOf(ps: seq<Packet>, i: Option<nat>): SddsTime
    requires i.Some? ==> i.value < |ps|
  {
    if i.Some? then ps[i.value].h.time else ZERO
  }

  /** What the fold carries along a uniform stream, apart from slips and accumulated error. */
  ghost predicate Tracks(
      l: Line, opt: Options, ps: seq<Packet>, idx: seq<nat>, rate: real, bps: nat, cx: bool, half: bool, k: nat)
    requires k <= |ps| == |idx| && 8 <= bps <= 32 && rate > 0.0
  {
    && l.seen == LastKept(opt, ps, k).Some?
    && (l.det.nonConforming <==> Known(opt, ps, idx, half, k))
    && (l.seen ==>
          && l.bps == bps && Expects(l.det, rate, bps, cx)
          && l.det.last == TimeOf(ps, Seen(opt, ps, idx, rate, half, k))
          && l.sri.mode == (if cx then 1 else 0)
          && l.sri.xdelta == Period(rate, SriAdapted(opt, ps, idx, rate, half, k)))
  }

  /** The halved sample period is taken for the whole one above 10 MHz. */
  lemma PeriodsDiffer(rate: real, a: bool, b: bool)
    requires rate > 0.0
    ensures SameXdelta(Period(rate, a), Period(rate, b)) <==> a == b || rate > 10_000_000.0
  {
    var x := 1.0 / rate;
    assert x * rate == 1.0 && x > 0.0;
    SameXdeltaIff(x, x);
    SameXdeltaIff(x * 0.5, x * 0.5);
    SameXdeltaIff(x * 0.5, x);
    SameXdeltaIff(x, x * 0.5);
    hide SameXdelta;
    if rate <= 10_000_000.0 {
      assert x * 10_000_000.0 >= x * rate;
    } else {
      assert x * 10_000_000.0 < x * rate;
    }
  }

  lemma UniformXdelta(h: Header, rate: real, nonConforming: bool)
    requires rate > 0.0 && Rate(h) == rate
    ensures HeaderXdelta(h, nonConforming) == Period(rate, nonConforming)
  {
    hide Rate;
  }

  /** Is the SRI out of date at packet k? The first one finds none, and the one after a discovery the old one. */
  lemma SriDue(
      l: Line, opt: Options, ps: seq<Packet>, idx: seq<nat>, rate: real, bps: nat, cx: bool, half: bool, k: nat)
    requires Uniform(ps, idx, rate, bps, cx) && k < |ps| && (!l.seen ==> l == BLANK)
    requires Tracks(l, opt, ps, idx, rate, bps, cx, half, k)
    ensures var last := LastKept(opt, ps, k);
            NewSri(l, ps[k].h) <==> !l.seen || Forgotten(opt, ps, idx, rate, half, last.value)
    ensures var m := MergedSri(l, ps[k].h);
            && m.mode == (if cx then 1 else 0)
            && m.xdelta == Period(rate, Known(opt, ps, idx, half, k) && rate <= 10_000_000.0)
  {
    hide Rate, SameXdelta, HeaderXdelta, Period, Decider, Forgotten, Known, Wire, Tail, Seen;
    var h, nc := ps[k].h, l.det.nonConforming;
    UniformXdelta(h, rate, nc);
    if l.seen {
      var last := LastKept(opt, ps, k).value;
      PeriodsDiffer(rate, nc, SriAdapted(opt, ps, idx, rate, half, k));
      if Forgotten(opt, ps, idx, rate, half, last) {
        ForgottenIsKnown(opt, ps, idx, rate, half, last, k);
        ForgottenIsSlow(opt, ps, idx, rate, half, last);
      }
    } else {
      OwnStreams.FirstIsNew(h);
      OwnStreams.PositivePeriod(h, nc);
      NotKnownYet(opt, ps, idx, half, k);
    }
  }

  lemma ForgottenIsSlow(opt: Options, ps: seq<Packet>, idx: seq<nat>, rate: real, half: bool, i: nat)
    requires i < |ps| == |idx| && Forgotten(opt, ps, idx, rate, half, i)
    ensures half && rate <= 10_000_000.0 && Measured(opt, ps, i).Some?
  {
  }

  lemma NotKnownYet(opt: Options, ps: seq<Packet>, idx: seq<nat>, half: bool, k: nat)
    requires k <= |ps| == |idx| && LastKept(opt, ps, k).None?
    ensures !Known(opt, ps, idx, half, k)
  {
    var a := Decider(opt, ps, idx, k);
    if a.Some? {
      NoneKept(opt, ps, a.value, k);
    }
  }

  lemma {:induction false} NoneKept(opt: Options, ps: seq<Packet>, a: nat, k: nat)
    requires a < k <= |ps| && LastKept(opt, ps, k).None?
    ensures Skips(opt, ps[a].h)
    decreases k
  {
    if a < k - 1 {
      NoneKept(opt, ps, a, k - 1);
    }
  }

  /** The detector that checks packet k: the expected step, and the time of the anchor it is seen by. */
  lemma EnteringTracks(
      l: Line, opt: Options, ps: seq<Packet>, idx: seq<nat>, rate: real, bps: nat, cx: bool, half: bool, k: nat)
    requires Uniform(ps, idx, rate, bps, cx) && k < |ps| && (!l.seen ==> l == BLANK)
    requires Tracks(l, opt, ps, idx, rate, bps, cx, half, k) && !Skips(opt, ps[k].h)
    requires l.seen ==> l.next == Successor(ps[LastKept(opt, ps, k).value].h.seqNo)
    ensures WidthOf(l, ps[k].h) == bps
    ensures var e := Entering(l, ps[k].h);
            && Expects(e, rate, bps, cx)
            && e.last == TimeOf(ps, SeenBy(opt, ps, idx, rate, half, k))
            && e == l.det.(last := e.last, rate := e.rate, steps := e.steps)
  {
    hide Rate, StepsFor, Successor, NewSri, Forgotten, Tail, LastKept, Seen, SeenBy, SriAdapted, Wire, BitsPerSample,
         Period, Known;
    var h := ps[k].h;
    SriDue(l, opt, ps, idx, rate, bps, cx, half, k);
    SeenByNext(opt, ps, idx, rate, half, k);
    assert Broken(l, h) <==> !Continues(opt, ps, k);
    ExpectsHeader(l.det, h, rate, bps, cx);
    hide Broken, ExpectHeader, Expects;
  }

  lemma ExpectsHeader(d: Detector, h: Header, rate: real, bps: nat, cx: bool)
    requires 8 <= bps <= 32 && rate > 0.0 && h.cx == cx && Rate(h) == rate
    ensures var e := ExpectHeader(d, bps, h);
            Expects(e, rate, bps, cx) && e.last == ZERO && e == d.(last := e.last, rate := e.rate, steps := e.steps)
  {
    hide Rate, StepsFor;
  }

  /** A packet that continues a sequence is seen by what was seen last, unless the last packet is forgotten. */
  lemma SeenByNext(opt: Options, ps: seq<Packet>, idx: seq<nat>, rate: real, half: bool, k: nat)
    requires k < |ps| == |idx|
    ensures SeenBy(opt, ps, idx, rate, half, k) ==
            if !Continues(opt, ps, k) || Forgotten(opt, ps, idx, rate, half, LastKept(opt, ps, k).value) then None
            else Seen(opt, ps, idx, rate, half, k)
  {
    hide Tail, Forgotten, LastKept;
    if Continues(opt, ps, k) {
      var last := LastKept(opt, ps, k).value;
      if Forgotten(opt, ps, idx, rate, half, last) {
        ForgottenIsSlow(opt, ps, idx, rate, half, last);
        TailIfTagged(opt, ps, k);
      }
    }
  }

  /** If the last packet is tagged it is the one whose time was seen last, unless that is zero. */
  lemma {:induction false} TailIfTagged(opt: Options, ps: seq<Packet>, k: nat)
    requires k <= |ps| && LastKept(opt, ps, k).Some? && ps[LastKept(opt, ps, k).value].h.ttv
    ensures Tail(opt, ps, k).Some? ==> Tail(opt, ps, k) == LastKept(opt, ps, k)
  {
    if Skips(opt, ps[k - 1].h) {
      TailIfTagged(opt, ps, k - 1);
    }
  }

  /** After packet k has been checked, if the device is then known for what it is. */
  lemma ConsumeTracks(
      l: Line, opt: Options, ps: seq<Packet>, idx: seq<nat>, rate: real, bps: nat, cx: bool, half: bool, k: nat)
    requires Uniform(ps, idx, rate, bps, cx) && k < |ps| && (!l.seen ==> l == BLANK)
    requires Tracks(l, opt, ps, idx, rate, bps, cx, half, k) && !Skips(opt, ps[k].h)
    requires l.seen ==> l.next == Successor(ps[LastKept(opt, ps, k).value].h.seqNo)
    requires UsableBps(WidthOf(l, ps[k].h))
    requires var d := Consume(l, ps[k].h).det;
             Expects(d, rate, bps, cx) && (d.nonConforming <==> Known(opt, ps, idx, half, k + 1))
    ensures Tracks(Consume(l, ps[k].h), opt, ps, idx, rate, bps, cx, half, k + 1)
  {
    hide Rate, StepsFor, Successor, NewSri, Wire, BitsPerSample, Period, MergedSri, Known,
         Expects, ExpectHeader, SriAdapted, Seen, SeenBy, Entering, Check;
    var h := ps[k].h;
    EnteringTracks(l, opt, ps, idx, rate, bps, cx, half, k);
    SriDue(l, opt, ps, idx, rate, bps, cx, half, k);
    SriAdaptedNext(opt, ps, idx, rate, half, k);
    SeenNext(opt, ps, idx, rate, half, k);
    CheckLast(Entering(l, h), bps, h);
    LastKeptIs(opt, ps, k + 1);
    hide TimeOf, LastKept;
  }

  lemma CheckLast(d: Detector, bps: nat, h: Header)
    requires UsableBps(bps)
    ensures Check(d, bps, h).last == if h.ttv then h.time else d.last
  {
    hide StepsFor;
  }

  /** The SRI merged at packet k is adapted exactly if the device was found out before it. */
  lemma SriAdaptedNext(opt: Options, ps: seq<Packet>, idx: seq<nat>, rate: real, half: bool, k: nat)
    requires k < |ps| == |idx| && !Skips(opt, ps[k].h)
    ensures SriAdapted(opt, ps, idx, rate, half, k + 1) <==>
            Known(opt, ps, idx, half, k) && rate <= 10_000_000.0
  {
    DeciderNext(opt, ps, idx, k);
    LastKeptIs(opt, ps, k + 1);
    hide Pair, Odd, Decider, LastKept;
  }

  lemma SeenNext(opt: Options, ps: seq<Packet>, idx: seq<nat>, rate: real, half: bool, k: nat)
    requires k < |ps| == |idx| && !Skips(opt, ps[k].h)
    ensures TimeOf(ps, Seen(opt, ps, idx, rate, half, k + 1)) ==
            if ps[k].h.ttv then ps[k].h.time else TimeOf(ps, SeenBy(opt, ps, idx, rate, half, k))
  {
    TailNext(opt, ps, k);
    LastKeptIs(opt, ps, k + 1);
    hide Forgotten, Tail, LastKept;
  }

  /** A skipped packet leaves all of it as it was. */
  lemma SkipTracks(
      l: Line, opt: Options, ps: seq<Packet>, idx: seq<nat>, rate: real, bps: nat, cx: bool, half: bool, k: nat)
    requires k < |ps| == |idx| && 8 <= bps <= 32 && rate > 0.0
    requires Tracks(l, opt, ps, idx, rate, bps, cx, half, k) && Skips(opt, ps[k].h)
    ensures Tracks(l, opt, ps, idx, rate, bps, cx, half, k + 1)
    ensures Measured(opt, ps, k).None? && !Costs(opt, ps, idx, rate, half, k)
    ensures Decider(opt, ps, idx, k + 1) == Decider(opt, ps, idx, k)
  {
    hide Decider, Tail, LastKept, Period, Forgotten, Expects, Known, Mistaken, Anchor, Back, Pair;
    TailNext(opt, ps, k);
    DeciderNext(opt, ps, idx, k);
    LastKeptIs(opt, ps, k + 1);
    KnownNext(opt, ps, idx, half, k);
  }

  lemma KnownNext(opt: Options, ps: seq<Packet>, idx: seq<nat>, half: bool, k: nat)
    requires k < |ps| == |idx|
    ensures Known(opt, ps, idx, half, k + 1) <==>
            Known(opt, ps, idx, half, k) || (half && Decider(opt, ps, idx, k).None? && Pair(opt, ps, idx, k))
    ensures Mistaken(opt, ps, idx, half, k + 1) <==>
            || Mistaken(opt, ps, idx, half, k)
            || (half && Decider(opt, ps, idx, k).None? && Odd(opt, ps, idx, k) && !Pair(opt, ps, idx, k))
  {
    DeciderNext(opt, ps, idx, k);
    hide Pair, Odd, Decider;
  }

  // ---- At the header's step or half of it: every slip counted -------------------------------------

  /** m true steps at once cost a slip exactly by what the device is taken for. */
  lemma StepsCount(d: Detector, rate: real, bps: nat, cx: bool, half: bool, m: nat)
    requires 8 <= bps <= 32 && rate > 0.0 && m > 0 && (half ==> cx) && (d.nonConforming ==> half)
    requires Expects(d, rate, bps, cx) && Abs(d.accum) <= TOLERANCE
    ensures var e := Step(d, bps, cx, Times(m, TrueStep(rate, bps, cx, half)));
            var learns := half && !d.nonConforming && d.slips == 0 && m == 1;
            var slip :=
              if d.nonConforming || !half then m != 1
              else if d.slips > 0 then m != 2
              else m > 2;
            && Expects(e, rate, bps, cx) && Abs(e.accum) <= TOLERANCE
            && e.slips == d.slips + (if slip then 1 else 0)
            && (e.nonConforming <==> d.nonConforming || learns)
  {
    WindowAround(rate, bps, cx);
    WindowAround(rate * 2.0, bps, cx);
    DoubledRate(rate, bps, cx);
    ManySteps(rate, bps, cx, half, m);
    hide StepsFor, Times;
  }

  lemma SameExpects(e: Detector, time: SddsTime, rate: real, bps: nat, cx: bool)
    requires 8 <= bps <= 32 && rate > 0.0 && Expects(e, rate, bps, cx)
    ensures Expects(e.(last := time), rate, bps, cx)
  {
  }

  /** What the detector has learned and counted before packet k. */
  ghost predicate Counts(
      d: Detector, opt: Options, ps: seq<Packet>, idx: seq<nat>, half: bool, k: nat)
    requires k <= |ps| == |idx|
  {
    && Abs(d.accum) <= TOLERANCE
    && (d.nonConforming <==> Known(opt, ps, idx, half, k))
    && (half && Decider(opt, ps, idx, k).None? ==> d.slips == 0)
    && (Mistaken(opt, ps, idx, half, k) ==> d.slips > 0)
  }

  /** Packet k is checked: one more slip exactly if it costs one. */
  lemma CheckCounts(
      e: Detector, opt: Options, ps: seq<Packet>, idx: seq<nat>, rate: real, bps: nat, cx: bool, half: bool, k: nat)
    requires Steady(opt, ps, idx, rate, bps, cx, half) && k < |ps| && !Skips(opt, ps[k].h)
    requires Expects(e, rate, bps, cx) && Counts(e, opt, ps, idx, half, k)
    requires e.last == TimeOf(ps, SeenBy(opt, ps, idx, rate, half, k))
    ensures var d := Check(e, bps, ps[k].h);
            && Expects(d, rate, bps, cx) && Counts(d, opt, ps, idx, half, k + 1)
            && d.slips == e.slips + if Costs(opt, ps, idx, rate, half, k) then 1 else 0
  {
    hide Rate, StepsFor, Wire, BitsPerSample, TrueStep, Times, Tail, Anchor, Step, Expects, Decider, Abs;
    var h := ps[k].h;
    KnownNext(opt, ps, idx, half, k);
    DeciderNext(opt, ps, idx, k);
    SameExpects(e, h.time, rate, bps, cx);
    var seen := SeenBy(opt, ps, idx, rate, half, k);
    if h.ttv && seen.Some? && !Back(ps, seen.value, k) {
      var m := Distance(idx, seen.value, k);
      assert Measured(opt, ps, k) == seen;
      assert idx[seen.value] < idx[k];
      assert Elapsed(e, h) == Times(m, TrueStep(rate, bps, cx, half));
      ManySteps(rate, bps, cx, half, m);
      PositiveStep(rate, bps, cx, half);
      StepsCount(e.(last := h.time), rate, bps, cx, half, m);
    } else {
      UnseenCostsNothing(opt, ps, idx, rate, half, k);
      hide Odd, Pair, Costs, Forgotten;
    }
  }

  /** A packet that is not checked against another costs nothing and decides nothing. */
  lemma UnseenCostsNothing(opt: Options, ps: seq<Packet>, idx: seq<nat>, rate: real, half: bool, k: nat)
    requires k < |ps| == |idx| && !Skips(opt, ps[k].h)
    requires var i := SeenBy(opt, ps, idx, rate, half, k); !ps[k].h.ttv || i.None? || Back(ps, i.value, k)
    ensures !Costs(opt, ps, idx, rate, half, k)
    ensures Odd(opt, ps, idx, k) ==> Decider(opt, ps, idx, k).Some?
  {
    hide Anchor, Tail, Decider, Pair;
    var i := Measured(opt, ps, k);
    if i.Some? {
      ForgottenIsKnown(opt, ps, idx, rate, half, i.value, k);
    }
  }

  /** No slip is ever taken back. */
  lemma SlipsStay(l: Line, h: Header)
    requires UsableBps(WidthOf(l, h))
    ensures Consume(l, h).det.slips >= l.det.slips
    ensures Entering(l, h).slips == l.det.slips && Entering(l, h).accum == l.det.accum
  {
    hide StepsFor, Rate, MergedSri, NewSri;
  }

  ghost predicate Counted(
      l: Line, opt: Options, ps: seq<Packet>, idx: seq<nat>, rate: real, bps: nat, cx: bool, half: bool, k: nat)
    requires k <= |ps| == |idx| && 8 <= bps <= 32 && rate > 0.0
  {
    && Tracks(l, opt, ps, idx, rate, bps, cx, half, k)
    && Counts(l.det, opt, ps, idx, half, k)
    && l.det.slips == CostCount(opt, ps, idx, rate, half, k)
  }

  lemma CountNext(
      l: Line, opt: Options, ps: seq<Packet>, idx: seq<nat>, rate: real, bps: nat, cx: bool, half: bool, k: nat)
    requires Steady(opt, ps, idx, rate, bps, cx, half) && k < |ps| && !Skips(opt, ps[k].h)
    requires (!l.seen ==> l == BLANK) && Counted(l, opt, ps, idx, rate, bps, cx, half, k)
    requires l.seen ==> l.next == Successor(ps[LastKept(opt, ps, k).value].h.seqNo)
    ensures UsableBps(WidthOf(l, ps[k].h)) && Counted(Consume(l, ps[k].h), opt, ps, idx, rate, bps, cx, half, k + 1)
  {
    hide Steady, Uniform, Expects, WidthOf, Successor, SeenBy, LastKept, Abs, Costs, Known, Mistaken, Decider, Entering,
         Check, MergedSri;
    SteadyIsUniform(opt, ps, idx, rate, bps, cx, half);
    EnteringTracks(l, opt, ps, idx, rate, bps, cx, half, k);
    CheckCounts(Entering(l, ps[k].h), opt, ps, idx, rate, bps, cx, half, k);
    ConsumeTracks(l, opt, ps, idx, rate, bps, cx, half, k);
    hide Tracks;
  }

  lemma SteadyIsUniform(opt: Options, ps: seq<Packet>, idx: seq<nat>, rate: real, bps: nat, cx: bool, half: bool)
    requires Steady(opt, ps, idx, rate, bps, cx, half)
    ensures Uniform(ps, idx, rate, bps, cx)
    ensures 8 <= bps <= 32 && rate > 0.0 && AllUsable(ps) && |ps| == |idx|
  {
  }

  lemma {:induction false} LineCounts(
      opt: Options, ps: seq<Packet>, idx: seq<nat>, rate: real, bps: nat, cx: bool, half: bool, k: nat)
    requires Steady(opt, ps, idx, rate, bps, cx, half) && k <= |ps|
    ensures Counted(LineAt(opt, ps, k), opt, ps, idx, rate, bps, cx, half, k)
    decreases k
  {
    hide Steady, Uniform, Consume, Successor, Width, LineAt, LastKept, Tracks, Costs, Known, Mistaken, Decider, Abs,
         WidthOf, AllUsable;
    SteadyIsUniform(opt, ps, idx, rate, bps, cx, half);
    LineNext(opt, ps, k);
    if k == 0 {
      BlankCounted(opt, ps, idx, rate, bps, cx, half);
    } else {
      var l, h := LineAt(opt, ps, k - 1), ps[k - 1].h;
      LineCounts(opt, ps, idx, rate, bps, cx, half, k - 1);
      OwnStreams.LineIsWidth(opt, ps, k - 1);
      if Skips(opt, h) {
        SkipTracks(l, opt, ps, idx, rate, bps, cx, half, k - 1);
        SkipCounts(l.det, opt, ps, idx, half, k - 1);
      } else {
        CountNext(l, opt, ps, idx, rate, bps, cx, half, k - 1);
      }
    }
  }

  /** The fold, one packet on. */
  lemma LineNext(opt: Options, ps: seq<Packet>, k: nat)
    requires k <= |ps| && AllUsable(ps)
    ensures LineAt(opt, ps, 0) == BLANK
    ensures k > 0 ==>
              var l, h := LineAt(opt, ps, k - 1), ps[k - 1].h;
              && (Skips(opt, h) ==> LineAt(opt, ps, k) == l)
              && (!Skips(opt, h) ==> UsableBps(WidthOf(l, h)) && LineAt(opt, ps, k) == Consume(l, h))
  {
    hide Consume;
  }

  lemma BlankCounted(opt: Options, ps: seq<Packet>, idx: seq<nat>, rate: real, bps: nat, cx: bool, half: bool)
    requires |ps| == |idx| && 8 <= bps <= 32 && rate > 0.0
    ensures Counted(BLANK, opt, ps, idx, rate, bps, cx, half, 0) && Tracks(BLANK, opt, ps, idx, rate, bps, cx, half, 0)
    ensures BLANK.det.slips == 0 && BLANK.det.accum == 0.0
  {
  }

  lemma SkipCounts(d: Detector, opt: Options, ps: seq<Packet>, idx: seq<nat>, half: bool, k: nat)
    requires k < |ps| == |idx| && Counts(d, opt, ps, idx, half, k)
    requires Decider(opt, ps, idx, k + 1) == Decider(opt, ps, idx, k)
    ensures Counts(d, opt, ps, idx, half, k + 1)
  {
    hide Decider, Pair, Abs;
  }

  /**
    The slips of a run without upstream events over a stream at its header's step, or at half of it,
    are the packets consumed so far that cost one.
   */
  lemma SlipsAreCosts(
      setup: Setup, ps: seq<Packet>, idx: seq<nat>, rate: real, bps: nat, cx: bool, half: bool, years: seq<int>)
    requires Steady(setup.opt, ps, idx, rate, bps, cx, half)
    ensures var r := Run(Position(Fresh(setup), 0), ps, Passes(years));
            r.s.det.slips == CostCount(setup.opt, ps, idx, rate, half, r.k)
  {
    hide Steady, Uniform, Run, Tracks, LineAt, Counts, CostCount;
    SteadyIsUniform(setup.opt, ps, idx, rate, bps, cx, half);
    RunIsFold(setup, ps, years);
    var r := Run(Position(Fresh(setup), 0), ps, Passes(years));
    LineCounts(setup.opt, ps, idx, rate, bps, cx, half, r.k);
    if r.k < |ps| {
      SlipsStay(LineAt(setup.opt, ps, r.k), ps[r.k].h);
    }
  }

  /** So it has counted none if and only if no packet consumed so far costs one. */
  lemma SlipsIff(
      setup: Setup, ps: seq<Packet>, idx: seq<nat>, rate: real, bps: nat, cx: bool, half: bool, years: seq<int>)
    requires Steady(setup.opt, ps, idx, rate, bps, cx, half)
    ensures var r := Run(Position(Fresh(setup), 0), ps, Passes(years));
            r.s.det.slips == 0 <==> NoneCosts(setup.opt, ps, idx, rate, half, r.k)
  {
    hide Steady, Uniform, Run, CostCount, NoneCosts;
    SteadyIsUniform(setup.opt, ps, idx, rate, bps, cx, half);
    SlipsAreCosts(setup, ps, idx, rate, bps, cx, half, years);
    CountIsZeroIff(setup.opt, ps, idx, rate, half, Run(Position(Fresh(setup), 0), ps, Passes(years)).k);
  }

  /** Is packet k measured against an older packet than the one before it? */
  predicate Loose(opt: Options, ps: seq<Packet>, idx: seq<nat>, k: nat)
    requires k < |ps| == |idx|
  {
    var i := Measured(opt, ps, k);
    i.Some? && Distance(idx, i.value, k) > 1
  }

  function LooseCount(opt: Options, ps: seq<Packet>, idx: seq<nat>, k: nat): nat
    requires k <= |ps| == |idx|
  {
    if k == 0 then 0 else LooseCount(opt, ps, idx, k - 1) + if Loose(opt, ps, idx, k - 1) then 1 else 0
  }

  lemma {:induction false} WholeCosts(opt: Options, ps: seq<Packet>, idx: seq<nat>, rate: real, k: nat)
    requires k <= |ps| && Numbered(ps, idx)
    ensures CostCount(opt, ps, idx, rate, false, k) == LooseCount(opt, ps, idx, k)
  {
    hide Wire;
    if k > 0 {
      WholeCosts(opt, ps, idx, rate, k - 1);
      var i := Measured(opt, ps, k - 1);
      assert i.Some? ==> idx[i.value] < idx[k - 1];
      hide Measured;
    }
  }

  /**
    At the header's step every packet measured against an older one than its neighbour is one slip,
    and nothing else is.
   */
  lemma SlipsAreLoosePackets(
      setup: Setup, ps: seq<Packet>, idx: seq<nat>, rate: real, bps: nat, cx: bool, years: seq<int>)
    requires Steady(setup.opt, ps, idx, rate, bps, cx, false)
    ensures var r := Run(Position(Fresh(setup), 0), ps, Passes(years));
            r.s.det.slips == LooseCount(setup.opt, ps, idx, r.k)
  {
    hide Run, CostCount, LooseCount, TimedBy, Wire;
    SlipsAreCosts(setup, ps, idx, rate, bps, cx, false, years);
    WholeCosts(setup.opt, ps, idx, rate, Run(Position(Fresh(setup), 0), ps, Passes(years)).k);
  }

  /** On such streams what is known of the device, and so what a packet says, can be read off the packets. */
  lemma FlagIsKnown(
      opt: Options, ps: seq<Packet>, idx: seq<nat>, rate: real, bps: nat, cx: bool, half: bool, k: nat)
    requires Steady(opt, ps, idx, rate, bps, cx, half) && k <= |ps|
    ensures OwnStreams.Flag(opt, ps, k) <==> Known(opt, ps, idx, half, k)
  {
    hide Steady, Uniform, LineAt, Known, Counts, CostCount;
    SteadyIsUniform(opt, ps, idx, rate, bps, cx, half);
    LineCounts(opt, ps, idx, rate, bps, cx, half, k);
  }

  // ---- With a constant error ----------------------------------------------------------------------

  /**
    Tagged packets are the ideal step and a fixed error of at most one sample period apart, for each
    packet the sender emitted from one to the next. If any is measured by more than one step, the
    step is long enough to exceed the tolerance by itself, which it is below 63 MHz.
   */
  ghost predicate Drifting(
      opt: Options, ps: seq<Packet>, idx: seq<nat>, rate: real, bps: nat, cx: bool, error: real)
  {
    && Uniform(ps, idx, rate, bps, cx)
    && 0.0 < Abs(error) <= 1.0 / rate
    && TimedBy(opt, ps, idx, StepsFor(rate, bps, cx).ideal + error)
    && ((exists k: nat :: k < |ps| && Loose(opt, ps, idx, k)) ==> LongStep(rate, bps, cx))
  }

  predicate LongStep(rate: real, bps: nat, cx: bool)
    requires rate > 0.0 && 8 <= bps <= 32
  {
    StepsFor(rate, bps, cx).ideal - 2.0 / rate > 2.0 * TOLERANCE
  }

  lemma SlowIsLong(rate: real, bps: nat, cx: bool)
    requires 0.0 < rate < 63_000_000.0 && 8 <= bps <= 32
    ensures LongStep(rate, bps, cx)
  {
    var n, t := SamplesPerPacket(bps, cx) as real, 1.0 / rate;
    assert n / rate == n * t && 2.0 / rate == 2.0 * t;
    assert n * t - 2.0 * t == (n - 2.0) * t;
    assert (n - 2.0) * t >= 126.0 * t;
    assert t * rate == 1.0;
    assert t * 63_000_000.0 > 1.0;
  }

  /** How many of the first k packets are measured by one step since the last that was measured by more. */
  function Stretch(opt: Options, ps: seq<Packet>, idx: seq<nat>, k: nat): nat
    requires k <= |ps| == |idx|
  {
    if k == 0 || Loose(opt, ps, idx, k - 1) then 0
    else Stretch(opt, ps, idx, k - 1) + if Measured(opt, ps, k - 1).Some? then 1 else 0
  }

  /** The periods of p packets in a stretch of n. */
  function Periods(n: nat, p: nat): nat
    requires p > 0
  {
    n / p
  }

  /** The slips up to the last packet measured by more than one step: itself, and what the stretches before it made. */
  function SlipsBefore(opt: Options, ps: seq<Packet>, idx: seq<nat>, p: nat, k: nat): nat
    requires k <= |ps| == |idx| && p > 0
  {
    if k == 0 then 0
    else
      var before := SlipsBefore(opt, ps, idx, p, k - 1);
      if Loose(opt, ps, idx, k - 1) then before + Periods(Stretch(opt, ps, idx, k - 1), p) + 1 else before
  }

  lemma DriftIsUniform(opt: Options, ps: seq<Packet>, idx: seq<nat>, rate: real, bps: nat, cx: bool, error: real)
    requires Drifting(opt, ps, idx, rate, bps, cx, error)
    ensures Uniform(ps, idx, rate, bps, cx)
    ensures 8 <= bps <= 32 && rate > 0.0 && AllUsable(ps) && |ps| == |idx| && Abs(error) <= 1.0 / rate && error != 0.0
  {
  }

  /** Several drifting steps at once are outside the window, and outside the tolerance. */
  lemma LooseStep(d: Detector, rate: real, bps: nat, cx: bool, error: real, m: nat)
    requires 8 <= bps <= 32 && rate > 0.0 && Abs(error) <= 1.0 / rate && m > 1 && LongStep(rate, bps, cx)
    requires d.steps == StepsFor(rate, bps, cx) && Abs(d.accum) <= TOLERANCE
    ensures Times(m, d.steps.ideal + error) >= 0.0
    ensures Step(d, bps, cx, Times(m, d.steps.ideal + error)) == d.(slips := d.slips + 1, accum := 0.0)
  {
    StepWindow(rate, bps, cx, error);
    WindowAround(rate, bps, cx);
    var x := d.steps.ideal + error;
    TwoTimes(m, x);
    LongWindow(rate, bps, cx);
    assert 2.0 / rate == 1.0 / rate + 1.0 / rate;
    hide StepsFor, Times;
  }

  lemma TwoTimes(m: nat, x: real)
    requires m > 1 && x >= 0.0
    ensures Times(m, x) >= 2.0 * x
  {
    TimesGrows(2, m, x);
    assert Times(2, x) == Times(1, x) + x && Times(1, x) == Times(0, x) + x;
  }

  /** Two of the shortest steps in the window are longer than its longest, and twice as long as looks halved. */
  lemma LongWindow(rate: real, bps: nat, cx: bool)
    requires 8 <= bps <= 32 && rate > 0.0
    ensures var s := StepsFor(rate, bps, cx);
            && s.min == s.ideal - 1.0 / rate && s.max == s.ideal + 1.0 / rate
            && 2.0 * s.min > s.max && 1.0 / rate > 0.0
  {
    var n := SamplesPerPacket(bps, cx);
    DivideByRate(n - 1, rate);
    DivideByRate(n, rate);
    var t := 1.0 / rate;
    Divided(4.0, n as real, rate);
    assert 4.0 / rate == 4.0 * t;
  }

  /** What the accumulator holds within a stretch is inside the tolerance. */
  lemma StretchInside(j: nat, error: real, p: nat)
    requires IsPeriod(p, error) && j < p
    ensures Abs(Times(j, error)) <= TOLERANCE
  {
    TimesAbs(j, error);
    TimesGrows(j, p - 1, Abs(error));
    hide Times;
  }

  /** The error of the packets since the last slip, and the slips of those before. */
  ghost predicate Drifted(
      d: Detector, opt: Options, ps: seq<Packet>, idx: seq<nat>, error: real, p: nat, k: nat)
    requires k <= |ps| == |idx| && p > 0
  {
    var n := Stretch(opt, ps, idx, k);
    && !d.nonConforming
    && d.slips == SlipsBefore(opt, ps, idx, p, k) + Laps(n, p)
    && d.accum == Times(Phase(n, p), error)
  }

  lemma ExpectedSteps(e: Detector, rate: real, bps: nat, cx: bool)
    requires 8 <= bps <= 32 && rate > 0.0 && Expects(e, rate, bps, cx) && !e.nonConforming
    ensures e.steps == StepsFor(rate, bps, cx)
  {
    hide StepsFor;
  }

  lemma NoTimes(x: real)
    ensures Times(0, x) == 0.0 && Times(1, x) == x
  {
    assert Times(1, x) == Times(0, x) + x;
  }

  lemma AccumExpects(e: Detector, slips: nat, accum: real, rate: real, bps: nat, cx: bool)
    requires 8 <= bps <= 32 && rate > 0.0 && Expects(e, rate, bps, cx)
    ensures Expects(e.(slips := slips, accum := accum), rate, bps, cx)
  {
  }

  lemma StretchNext(opt: Options, ps: seq<Packet>, idx: seq<nat>, p: nat, k: nat)
    requires k < |ps| == |idx| && p > 0
    ensures Stretch(opt, ps, idx, k + 1) ==
            if Loose(opt, ps, idx, k) then 0
            else Stretch(opt, ps, idx, k) + if Measured(opt, ps, k).Some? then 1 else 0
    ensures SlipsBefore(opt, ps, idx, p, k + 1) ==
            SlipsBefore(opt, ps, idx, p, k)
            + if Loose(opt, ps, idx, k) then Periods(Stretch(opt, ps, idx, k), p) + 1 else 0
    ensures Phase(0, p) == 0 && Laps(0, p) == 0
  {
    hide Loose, Measured, Periods;
  }

  /** How far apart a measured packet and its anchor are. */
  lemma DriftMeasured(
      opt: Options, ps: seq<Packet>, idx: seq<nat>, rate: real, bps: nat, cx: bool, error: real, k: nat)
    returns (m: nat)
    requires Drifting(opt, ps, idx, rate, bps, cx, error) && k < |ps| && Measured(opt, ps, k).Some?
    ensures 8 <= bps <= 32 && rate > 0.0 && |idx| == |ps|
    ensures m > 0 && (m > 1 <==> Loose(opt, ps, idx, k)) && (m > 1 ==> LongStep(rate, bps, cx))
    ensures var i := Measured(opt, ps, k).value;
            ps[k].h.time.Seconds() - ps[i].h.time.Seconds() == Times(m, StepsFor(rate, bps, cx).ideal + error)
  {
    hide Measured, StepsFor, Times, Wire, LongStep, Abs;
    var i := Measured(opt, ps, k).value;
    assert idx[i] < idx[k];
    m := Distance(idx, i, k);
  }

  lemma DriftCheck(
      e: Detector, opt: Options, ps: seq<Packet>, idx: seq<nat>, rate: real, bps: nat, cx: bool, error: real, p: nat,
      k: nat)
    requires Drifting(opt, ps, idx, rate, bps, cx, error) && IsPeriod(p, error) && k < |ps| && !Skips(opt, ps[k].h)
    requires 8 <= bps <= 32 && rate > 0.0 && |idx| == |ps|
    requires Expects(e, rate, bps, cx) && Drifted(e, opt, ps, idx, error, p, k)
    requires e.last == TimeOf(ps, SeenBy(opt, ps, idx, rate, false, k))
    ensures var d := Check(e, bps, ps[k].h);
            Expects(d, rate, bps, cx) && Drifted(d, opt, ps, idx, error, p, k + 1)
  {
    hide Check, Drifting, Expects, Drifted, Measured, Loose, SeenBy, Wire, Rate, Times, Abs, BitsPerSample;
    DriftIsUniform(opt, ps, idx, rate, bps, cx, error);
    if Measured(opt, ps, k).None? {
      DriftUnmeasured(e, opt, ps, idx, rate, bps, cx, error, p, k);
    } else {
      var m := DriftMeasured(opt, ps, idx, rate, bps, cx, error, k);
      MeasuredElapsed(e, opt, ps, idx, rate, bps, cx, k);
      if m == 1 {
        DriftTight(e, opt, ps, idx, rate, bps, cx, error, p, k);
      } else {
        DriftLoose(e, opt, ps, idx, rate, bps, cx, error, p, k, m);
      }
    }
  }

  lemma DriftUnmeasured(
      e: Detector, opt: Options, ps: seq<Packet>, idx: seq<nat>, rate: real, bps: nat, cx: bool, error: real, p: nat,
      k: nat)
    requires 8 <= bps <= 32 && rate > 0.0 && k < |ps| == |idx| && p > 0 && !Skips(opt, ps[k].h)
    requires Expects(e, rate, bps, cx) && Drifted(e, opt, ps, idx, error, p, k)
    requires e.last == TimeOf(ps, SeenBy(opt, ps, idx, rate, false, k)) && Measured(opt, ps, k).None?
    ensures var d := Check(e, bps, ps[k].h);
            Expects(d, rate, bps, cx) && Drifted(d, opt, ps, idx, error, p, k + 1)
  {
    hide StepsFor, Times, Tail, Anchor, Step, Phase, Laps, Expects, Stretch, SlipsBefore, Loose, Distance;
    SameExpects(e, ps[k].h.time, rate, bps, cx);
    StretchNext(opt, ps, idx, p, k);
    LooseIsMeasured(opt, ps, idx, k);
  }

  /** The check of a measured packet is one step of the detector from its anchor. */
  lemma MeasuredElapsed(
      e: Detector, opt: Options, ps: seq<Packet>, idx: seq<nat>, rate: real, bps: nat, cx: bool, k: nat)
    requires k < |ps| == |idx| && UsableBps(bps) && Measured(opt, ps, k).Some?
    requires e.last == TimeOf(ps, SeenBy(opt, ps, idx, rate, false, k))
    ensures e.last != ZERO && ps[k].h.ttv
    ensures Elapsed(e, ps[k].h) == ps[k].h.time.Seconds() - ps[Measured(opt, ps, k).value].h.time.Seconds()
  {
    hide Tail, Anchor;
  }

  lemma DriftTight(
      e: Detector, opt: Options, ps: seq<Packet>, idx: seq<nat>, rate: real, bps: nat, cx: bool, error: real, p: nat,
      k: nat)
    requires 8 <= bps <= 32 && rate > 0.0 && k < |ps| == |idx| && IsPeriod(p, error) && Abs(error) <= 1.0 / rate
    requires Expects(e, rate, bps, cx) && Drifted(e, opt, ps, idx, error, p, k)
    requires Measured(opt, ps, k).Some? && !Loose(opt, ps, idx, k) && e.last != ZERO && ps[k].h.ttv
    requires Elapsed(e, ps[k].h) == Times(1, StepsFor(rate, bps, cx).ideal + error)
    ensures var d := Check(e, bps, ps[k].h);
            Expects(d, rate, bps, cx) && Drifted(d, opt, ps, idx, error, p, k + 1)
  {
    hide Check, Elapsed, StepsFor, Times, IsPeriod, Abs, Phase, Laps, Expects, Stretch, SlipsBefore, Loose, Measured;
    var h, n := ps[k].h, Stretch(opt, ps, idx, k);
    ExpectedSteps(e, rate, bps, cx);
    StretchNext(opt, ps, idx, p, k);
    NoTimes(error);
    StepWindow(rate, bps, cx, error);
    NoTimes(e.steps.ideal + error);
    SteadyPacket(e, bps, h, error, p, Phase(n, p));
    NextPhase(n, p);
    var d := Check(e, bps, h);
    SameExpects(e, h.time, rate, bps, cx);
    AccumExpects(e.(last := h.time), d.slips, d.accum, rate, bps, cx);
  }

  lemma DriftLoose(
      e: Detector, opt: Options, ps: seq<Packet>, idx: seq<nat>, rate: real, bps: nat, cx: bool, error: real, p: nat,
      k: nat, m: nat)
    requires 8 <= bps <= 32 && rate > 0.0 && k < |ps| == |idx| && IsPeriod(p, error) && Abs(error) <= 1.0 / rate
    requires Expects(e, rate, bps, cx) && Drifted(e, opt, ps, idx, error, p, k)
    requires Measured(opt, ps, k).Some? && Loose(opt, ps, idx, k) && e.last != ZERO && ps[k].h.ttv
    requires m > 1 && LongStep(rate, bps, cx) && ps[k].h.cx == cx
    requires Elapsed(e, ps[k].h) == Times(m, StepsFor(rate, bps, cx).ideal + error)
    ensures var d := Check(e, bps, ps[k].h);
            Expects(d, rate, bps, cx) && Drifted(d, opt, ps, idx, error, p, k + 1)
  {
    hide Step, Elapsed, StepsFor, Times, IsPeriod, Abs, Phase, Laps, Expects, Stretch, SlipsBefore, LongStep, Loose,
         Measured;
    var h, n := ps[k].h, Stretch(opt, ps, idx, k);
    ExpectedSteps(e, rate, bps, cx);
    StretchNext(opt, ps, idx, p, k);
    NoTimes(error);
    StretchInside(Phase(n, p), error, p);
    LooseStep(e.(last := h.time), rate, bps, cx, error, m);
    LapsAndPhase(n, p);
    var d := Check(e, bps, h);
    SameExpects(e, h.time, rate, bps, cx);
    AccumExpects(e.(last := h.time), d.slips, d.accum, rate, bps, cx);
  }

  lemma LooseIsMeasured(opt: Options, ps: seq<Packet>, idx: seq<nat>, k: nat)
    requires k < |ps| == |idx|
    ensures Loose(opt, ps, idx, k) ==> Measured(opt, ps, k).Some?
  {
  }

  lemma DriftNext(
      l: Line, opt: Options, ps: seq<Packet>, idx: seq<nat>, rate: real, bps: nat, cx: bool, error: real, p: nat,
      k: nat)
    requires Drifting(opt, ps, idx, rate, bps, cx, error) && IsPeriod(p, error) && k < |ps| && !Skips(opt, ps[k].h)
    requires 8 <= bps <= 32 && rate > 0.0 && |idx| == |ps|
    requires (!l.seen ==> l == BLANK) && Tracks(l, opt, ps, idx, rate, bps, cx, false, k)
    requires Drifted(l.det, opt, ps, idx, error, p, k)
    requires l.seen ==> l.next == Successor(ps[LastKept(opt, ps, k).value].h.seqNo)
    ensures UsableBps(WidthOf(l, ps[k].h))
    ensures var m := Consume(l, ps[k].h);
            Tracks(m, opt, ps, idx, rate, bps, cx, false, k + 1) && Drifted(m.det, opt, ps, idx, error, p, k + 1)
  {
    hide Uniform, Drifting, WidthOf, Successor, LastKept, Abs, Laps, Phase, Times, IsPeriod, Entering, Check, MergedSri,
         SeenBy, Expects, Measured, Stretch, SlipsBefore, Decider;
    DriftIsUniform(opt, ps, idx, rate, bps, cx, error);
    EnteringTracks(l, opt, ps, idx, rate, bps, cx, false, k);
    DriftCheck(Entering(l, ps[k].h), opt, ps, idx, rate, bps, cx, error, p, k);
    ConsumeTracks(l, opt, ps, idx, rate, bps, cx, false, k);
    hide Tracks;
  }

  lemma {:induction false} LineDrifts(
      opt: Options, ps: seq<Packet>, idx: seq<nat>, rate: real, bps: nat, cx: bool, error: real, p: nat, k: nat)
    requires Drifting(opt, ps, idx, rate, bps, cx, error) && IsPeriod(p, error) && k <= |ps|
    requires 8 <= bps <= 32 && rate > 0.0 && |idx| == |ps| && AllUsable(ps)
    ensures Tracks(LineAt(opt, ps, k), opt, ps, idx, rate, bps, cx, false, k)
    ensures Drifted(LineAt(opt, ps, k).det, opt, ps, idx, error, p, k)
    decreases k
  {
    hide Drifting, Uniform, Consume, Successor, Width, LineAt, LastKept, Measured, Tracks, Abs, AllUsable, WidthOf,
         Loose;
    LineNext(opt, ps, k);
    if k == 0 {
      BlankDrifted(opt, ps, idx, rate, bps, cx, error, p);
    } else {
      hide Laps, Phase, Times;
      var l, h := LineAt(opt, ps, k - 1), ps[k - 1].h;
      LineDrifts(opt, ps, idx, rate, bps, cx, error, p, k - 1);
      OwnStreams.LineIsWidth(opt, ps, k - 1);
      if Skips(opt, h) {
        SkipTracks(l, opt, ps, idx, rate, bps, cx, false, k - 1);
        StretchNext(opt, ps, idx, p, k - 1);
        LooseIsMeasured(opt, ps, idx, k - 1);
      } else {
        DriftNext(l, opt, ps, idx, rate, bps, cx, error, p, k - 1);
      }
    }
  }

  lemma BlankDrifted(
      opt: Options, ps: seq<Packet>, idx: seq<nat>, rate: real, bps: nat, cx: bool, error: real, p: nat)
    requires |ps| == |idx| && 8 <= bps <= 32 && rate > 0.0 && p > 0
    ensures Tracks(BLANK, opt, ps, idx, rate, bps, cx, false, 0) && Drifted(BLANK.det, opt, ps, idx, error, p, 0)
  {
  }

  /**
    The drift of a whole run: with a constant error of at most one sample period, a packet measured
    by more than one step is a slip and starts afresh, the packets of each stretch between such
    make a slip for each period of the drift, and the accumulator holds the error of the rest.
   */
  lemma DriftSlips(
      setup: Setup, ps: seq<Packet>, idx: seq<nat>, rate: real, bps: nat, cx: bool, error: real, years: seq<int>)
    requires Drifting(setup.opt, ps, idx, rate, bps, cx, error)
    ensures AllUsable(ps) && |ps| == |idx| && error != 0.0
    ensures var r := Run(Position(Fresh(setup), 0), ps, Passes(years));
            var n, p := Stretch(setup.opt, ps, idx, r.k), DriftPeriod(error);
            && r.s.det.slips == SlipsBefore(setup.opt, ps, idx, p, r.k) + Periods(n, p)
            && r.s.det.accum == Times(n % p, error)
  {
    hide Drifting, Uniform, Run, Tracks, LineAt, IsPeriod, Stretch, SlipsBefore, Times, Abs;
    DriftIsUniform(setup.opt, ps, idx, rate, bps, cx, error);
    RunIsFold(setup, ps, years);
    var r := Run(Position(Fresh(setup), 0), ps, Passes(years));
    var p := DriftPeriod(error);
    LineDrifts(setup.opt, ps, idx, rate, bps, cx, error, p, r.k);
    LapsAndPhase(Stretch(setup.opt, ps, idx, r.k), p);
    if r.k < |ps| {
      SlipsStay(LineAt(setup.opt, ps, r.k), ps[r.k].h);
    }
  }

  /** How many of the first k packets are measured. */
  function MeasuredCount(opt: Options, ps: seq<Packet>, k: nat): nat
    requires k <= |ps|
  {
    if k == 0 then 0 else MeasuredCount(opt, ps, k - 1) + if Measured(opt, ps, k - 1).Some? then 1 else 0
  }

  /** If all are measured by one step there is one stretch. */
  lemma {:induction false} OneStretch(opt: Options, ps: seq<Packet>, idx: seq<nat>, p: nat, k: nat)
    requires k <= |ps| == |idx| && p > 0 && LooseCount(opt, ps, idx, k) == 0
    ensures Stretch(opt, ps, idx, k) == MeasuredCount(opt, ps, k) && SlipsBefore(opt, ps, idx, p, k) == 0
  {
    hide Loose, Measured;
    if k > 0 {
      OneStretch(opt, ps, idx, p, k - 1);
    }
  }
}
