/**
  The time-slip detector: the expected time step between packets, the single-step window, the
  error accumulator, and the adaptation to devices whose header rate is half the true one.
 */
module SlipDetector {

  import opened Arithmetic
  import opened SddsTimes
  import opened SddsPackets

  /** Expected steps in seconds. A header rate of zero makes all three infinite. */
  datatype Steps = Steps(max: real, ideal: real, min: real) | Unbounded

  datatype Detector = Detector(
    last: SddsTime, rate: real, steps: Steps, accum: real, slips: nat, nonConforming: bool)

  const TOLERANCE: real := 0.000001

  function Abs(x: real): real {
    if x < 0.0 then -x else x
  }

  /** Samples in a packet; a width below eight bits would divide by zero. */
  function SamplesPerPacket(bps: nat, cx: bool): (n: nat)
    requires 8 <= bps <= 32
    ensures 128 <= n <= 1024
  {
    var samples := PAYLOAD / (bps / 8);
    if cx then samples / 2 else samples
  }

  function StepsFor(rate: real, bps: nat, cx: bool): Steps
    requires 8 <= bps <= 32
  {
    var n := SamplesPerPacket(bps, cx);
    if rate == 0.0 then Unbounded
    else Steps((n + 1) as real / rate, n as real / rate, (n - 1) as real / rate)
  }

  /** The widths on which the step can be computed, or zero, which leaves the steps alone. */
  predicate UsableBps(bps: nat) {
    bps == 0 || 8 <= bps <= 32
  }

  /** `updateExpectedXdelta`. */
  function UpdateXdelta(d: Detector, rate: real, bps: nat, cx: bool): Detector
    requires UsableBps(bps)
  {
    if bps == 0 then d.(rate := rate) else d.(rate := rate, steps := StepsFor(rate, bps, cx))
  }

  /** Is a step outside the window of one sample either way? */
  predicate Outside(s: Steps, delta: real) {
    s.Unbounded? || delta > s.max || delta < s.min
  }

  /** Does the step look like that of a device whose header gives half its rate? */
  predicate LooksHalfRate(d: Detector, cx: bool, delta: real) {
    && !d.nonConforming && cx && d.slips == 0
    && d.steps.Steps? && d.steps.min < 2.0 * delta < d.steps.max
  }

  /** The accumulator and slip count after a step, given whether the step alone was a slip. */
  function Accumulate(d: Detector, delta: real, slip: bool): Detector {
    if d.steps.Unbounded? || Abs(d.accum + (delta - d.steps.ideal)) > TOLERANCE then
      d.(accum := 0.0, slips := d.slips + 1)
    else
      d.(accum := d.accum + (delta - d.steps.ideal), slips := d.slips + if slip then 1 else 0)
  }

  /** What a forward step does to the detector. */
  function Step(d: Detector, bps: nat, cx: bool, delta: real): Detector
    requires UsableBps(bps)
  {
    if Outside(d.steps, delta) && LooksHalfRate(d, cx, delta) then
      Accumulate(UpdateXdelta(d.(nonConforming := true), 2.0 * d.rate, bps, cx), delta, false)
    else
      Accumulate(d, delta, Outside(d.steps, delta))
  }

  /** Seconds from the last time tag. */
  function Elapsed(d: Detector, h: Header): real {
    h.time.Seconds() - d.last.Seconds()
  }

  /** `checkForTimeSlip`. */
  function Check(d: Detector, bps: nat, h: Header): Detector
    requires UsableBps(bps)
  {
    if !h.ttv then d
    else if d.last == ZERO || Elapsed(d, h) < 0.0 then d.(last := h.time)
    else Step(d.(last := h.time), bps, h.cx, Elapsed(d, h))
  }

  function CheckAll(d: Detector, bps: nat, hs: seq<Header>): Detector
    requires UsableBps(bps)
  {
    if hs == [] then d else Check(CheckAll(d, bps, hs[..|hs| - 1]), bps, hs[|hs| - 1])
  }

  /** k times x. */
  function Times(k: nat, x: real): real {
    if k == 0 then 0.0 else Times(k - 1, x) + x
  }

  lemma {:induction false} TimesIsProduct(k: nat, x: real)
    ensures Times(k, x) == k as real * x
  {
    if k > 0 {
      TimesIsProduct(k - 1, x);
      assert k as real == (k - 1) as real + 1.0;
      assert k as real * x == (k - 1) as real * x + x;
    }
  }

  /** Is p the least number of packets over which the error builds up past the tolerance? */
  predicate IsPeriod(p: nat, error: real) {
    p > 0 && Times(p, Abs(error)) > TOLERANCE && Times(p - 1, Abs(error)) <= TOLERANCE
  }

  /** How many packets a steady error needs to exceed the tolerance. */
  function DriftPeriod(error: real): (p: nat)
    requires error != 0.0
    ensures IsPeriod(p, error)
  {
    PeriodIs(error);
    (TOLERANCE / Abs(error)).Floor + 1
  }

  lemma PeriodIs(error: real)
    requires error != 0.0
    ensures (TOLERANCE / Abs(error)).Floor >= 0
    ensures IsPeriod((TOLERANCE / Abs(error)).Floor + 1, error)
  {
    var a := Abs(error);
    var n := (TOLERANCE / a).Floor;
    FloorBrackets(TOLERANCE, a);
    TimesIsProduct(n + 1, a);
    TimesIsProduct(n, a);
    hide Times;
  }

  lemma FloorBrackets(x: real, a: real)
    requires x > 0.0 && a > 0.0
    ensures var n := (x / a).Floor;
            n >= 0 && n as real * a <= x < (n + 1) as real * a
  {
    var q := x / a;
    Quotient(x, a);
    var n := q.Floor;
    Bracket(n as real, q, (n + 1) as real, a, x);
  }

  lemma Quotient(x: real, a: real)
    requires x > 0.0 && a > 0.0
    ensures x / a > 0.0 && (x / a) * a == x
  {
  }

  lemma Bracket(lo: real, q: real, hi: real, a: real, x: real)
    requires a > 0.0 && lo <= q < hi && q * a == x
    ensures lo * a <= x < hi * a
  {
    assert x - lo * a == (q - lo) * a;
    assert hi * a - x == (hi - q) * a;
  }

  lemma {:induction false} TimesGrows(k: nat, m: nat, x: real)
    requires x >= 0.0 && k <= m
    ensures Times(k, x) <= Times(m, x)
    decreases m
  {
    if k < m {
      TimesGrows(k, m - 1, x);
    }
  }

  lemma {:induction false} TimesAbs(k: nat, x: real)
    ensures Abs(Times(k, x)) == Times(k, Abs(x))
    ensures x >= 0.0 ==> Times(k, x) >= 0.0
    ensures x <= 0.0 ==> Times(k, x) <= 0.0
  {
    if k > 0 {
      TimesAbs(k - 1, x);
    }
  }

  /** Valid time tags spaced by the ideal step plus a fixed error, starting after `last`. */
  ghost predicate SteadyError(d: Detector, hs: seq<Header>, error: real)
    requires d.steps.Steps?
  {
    forall i :: 0 <= i < |hs| ==>
      hs[i].ttv && hs[i].time.Seconds() == d.last.Seconds() + Times(i + 1, d.steps.ideal + error)
  }

  /** The step with this error is inside the window and forwards. */
  predicate WithinWindow(s: Steps, error: real) {
    s.Steps? && s.min <= s.ideal + error <= s.max && s.ideal + error > 0.0
  }

  /**
    A steady error of at most one sample period is reported once every DriftPeriod packets, and
    what the accumulator holds is the error of the packets since.
   */
  lemma SteadyErrorSlips(d: Detector, bps: nat, cx: bool, hs: seq<Header>, error: real)
    requires 8 <= bps <= 32 && d.rate > 0.0 && d.steps == StepsFor(d.rate, bps, cx)
    requires d.last != ZERO && d.accum == 0.0
    requires 0.0 < Abs(error) <= 1.0 / d.rate
    requires SteadyError(d, hs, error)
    ensures CheckAll(d, bps, hs).slips == d.slips + |hs| / DriftPeriod(error)
    ensures CheckAll(d, bps, hs).accum == Times(|hs| % DriftPeriod(error), error)
    ensures CheckAll(d, bps, hs).nonConforming == d.nonConforming
  {
    StepWindow(d.rate, bps, cx, error);
    SteadyRun(d, bps, hs, error, DriftPeriod(error));
    LapsAndPhase(|hs|, DriftPeriod(error));
  }

  /** Position in the current period after n packets, and periods completed, counted one packet at a time. */
  function Phase(n: nat, p: nat): (j: nat)
    requires p > 0
    ensures j < p
  {
    if n == 0 || Phase(n - 1, p) + 1 == p then 0 else Phase(n - 1, p) + 1
  }

  function Laps(n: nat, p: nat): nat
    requires p > 0
  {
    if n == 0 then 0 else Laps(n - 1, p) + if Phase(n - 1, p) + 1 == p then 1 else 0
  }

  lemma NextPhase(m: nat, p: nat)
    requires p > 0
    ensures var due := Phase(m, p) + 1 == p;
            && Phase(m + 1, p) == (if due then 0 else Phase(m, p) + 1)
            && Laps(m + 1, p) == Laps(m, p) + (if due then 1 else 0)
  {
  }

  lemma {:induction false} LapsAndPhase(n: nat, p: nat)
    requires p > 0
    ensures Phase(n, p) == n % p && Laps(n, p) == n / p
  {
    if n == 0 {
      DivModUnique(0, 0, 0, p);
    } else {
      LapsAndPhase(n - 1, p);
      NextInPeriod(n - 1, p);
    }
  }

  /** What the detector has become n packets into a steady error. */
  ghost predicate AfterSteady(d: Detector, e: Detector, n: nat, error: real, p: nat)
    requires p > 0 && d.steps.Steps?
  {
    && e.slips == d.slips + Laps(n, p)
    && e.accum == Times(Phase(n, p), error)
    && e == d.(last := e.last, slips := e.slips, accum := e.accum)
    && e.last != ZERO
    && e.last.Seconds() == d.last.Seconds() + Times(n, d.steps.ideal + error)
  }

  lemma {:induction false} SteadyRun(d: Detector, bps: nat, hs: seq<Header>, error: real, p: nat)
    requires UsableBps(bps) && WithinWindow(d.steps, error) && IsPeriod(p, error)
    requires d.last != ZERO && d.accum == 0.0
    requires SteadyError(d, hs, error)
    ensures AfterSteady(d, CheckAll(d, bps, hs), |hs|, error, p)
  {
    hide AfterSteady, Check, Times, Abs, SddsTime.Seconds;
    var n := |hs|;
    if n == 0 {
      AfterSteadyNone(d, error, p);
    } else {
      SteadyRun(d, bps, hs[..n - 1], error, p);
      AfterSteadyNext(d, CheckAll(d, bps, hs[..n - 1]), bps, n - 1, hs[n - 1], error, p);
    }
  }

  lemma AfterSteadyNone(d: Detector, error: real, p: nat)
    requires p > 0 && d.steps.Steps? && d.last != ZERO && d.accum == 0.0
    ensures AfterSteady(d, d, 0, error, p)
  {
  }

  lemma AfterSteadyNext(d: Detector, e: Detector, bps: nat, n: nat, h: Header, error: real, p: nat)
    requires UsableBps(bps) && WithinWindow(d.steps, error) && IsPeriod(p, error)
    requires AfterSteady(d, e, n, error, p)
    requires h.ttv && h.time.Seconds() == d.last.Seconds() + Times(n + 1, d.steps.ideal + error)
    ensures AfterSteady(d, Check(e, bps, h), n + 1, error, p)
  {
    SteadyPacket(e, bps, h, error, p, Phase(n, p));
    NextPhase(n, p);
    var f := Check(e, bps, h);
    assert f.last == h.time;
  }

  /** One packet of a steady error, j packets after the accumulator was last cleared. */
  lemma SteadyPacket(e: Detector, bps: nat, h: Header, error: real, p: nat, j: nat)
    requires UsableBps(bps) && WithinWindow(e.steps, error) && IsPeriod(p, error)
    requires e.last != ZERO && h.ttv && Elapsed(e, h) == e.steps.ideal + error
    requires j < p && e.accum == Times(j, error)
    ensures var f := Check(e, bps, h); var due := j + 1 == p;
            && f.slips == e.slips + (if due then 1 else 0)
            && f.accum == (if due then 0.0 else Times(j + 1, error))
            && f == e.(last := h.time, slips := f.slips, accum := f.accum)
            && f.last != ZERO
  {
    var d := e.(last := h.time);
    TimesAbs(j + 1, error);
    if j + 1 < p {
      TimesGrows(j + 1, p - 1, Abs(error));
    }
    assert !Outside(d.steps, Elapsed(e, h));
    assert d.accum + (Elapsed(e, h) - d.steps.ideal) == Times(j + 1, error);
  }

  lemma NextInPeriod(m: nat, p: nat)
    requires p > 0
    ensures m % p + 1 == p ==> (m + 1) / p == m / p + 1 && (m + 1) % p == 0
    ensures m % p + 1 < p ==> (m + 1) / p == m / p && (m + 1) % p == m % p + 1
  {
    var q, r := m / p, m % p;
    assert m + 1 == q * p + (r + 1);
    if r + 1 == p {
      DivModUnique(m + 1, q + 1, 0, p);
    } else {
      DivModUnique(m + 1, q, r + 1, p);
    }
  }

  // ---- Errors in sample periods -----------------------------------------------------------------

  /** The samples of a packet, and nothing else, fill its payload. */
  lemma SamplesFill(bps: nat, cx: bool, n: nat)
    requires bps in {8, 16, 32}
    ensures n * bps * (if cx then 2 else 1) == 8 * PAYLOAD <==> n == SamplesPerPacket(bps, cx)
  {
  }

  /** How far a step is from n sample periods, counted in sample periods. */
  function SamplesOff(delta: real, rate: real, n: nat): real {
    delta * rate - n as real
  }

  /**
    What one time tag after another does, in sample periods: a step that is off by more than one is
    a slip, unless twice the step is off by less than one and this is a complex stream without a
    slip so far, which tells a device at half the step; and so is one after which the errors have
    added up past the tolerance, whatever it was itself.
   */
  lemma SlipInSamples(d: Detector, bps: nat, h: Header, n: nat)
    requires bps in {8, 16, 32} && n * bps * (if h.cx then 2 else 1) == 8 * PAYLOAD
    requires d.rate > 0.0 && d.steps == StepsFor(d.rate, bps, h.cx)
    requires h.ttv && d.last != ZERO && Elapsed(d, h) >= 0.0
    ensures var delta, e := Elapsed(d, h), Check(d, bps, h);
            var learns := !d.nonConforming && h.cx && d.slips == 0 && Abs(SamplesOff(2.0 * delta, d.rate, n)) < 1.0;
            var rate := if learns then 2.0 * d.rate else d.rate;
            var sum := d.accum + SamplesOff(delta, rate, n) / rate;
            && e.slips == d.slips + (if (Abs(SamplesOff(delta, d.rate, n)) > 1.0 && !learns) || Abs(sum) > 0.000_001
                                     then 1 else 0)
            && e.accum == (if Abs(sum) > 0.000_001 then 0.0 else sum)
            && e.nonConforming == (d.nonConforming || learns)
            && e.last == h.time && e.rate == rate && e.steps == StepsFor(rate, bps, h.cx)
  {
    SamplesFill(bps, h.cx, n);
    StepInSamples(d.(last := h.time), bps, h.cx, Elapsed(d, h));
    hide Step, StepsFor, SamplesOff, Abs, Elapsed, SamplesPerPacket;
  }

  lemma StepInSamples(d: Detector, bps: nat, cx: bool, delta: real)
    requires 8 <= bps <= 32 && d.rate > 0.0 && d.steps == StepsFor(d.rate, bps, cx)
    ensures var n, e := SamplesPerPacket(bps, cx), Step(d, bps, cx, delta);
            var learns := !d.nonConforming && cx && d.slips == 0 && Abs(SamplesOff(2.0 * delta, d.rate, n)) < 1.0;
            var rate := if learns then 2.0 * d.rate else d.rate;
            var sum := d.accum + SamplesOff(delta, rate, n) / rate;
            && e.slips == d.slips + (if (Abs(SamplesOff(delta, d.rate, n)) > 1.0 && !learns) || Abs(sum) > TOLERANCE
                                     then 1 else 0)
            && e.accum == (if Abs(sum) > TOLERANCE then 0.0 else sum)
            && e.nonConforming == (d.nonConforming || learns)
            && e.last == d.last && e.rate == rate && e.steps == StepsFor(rate, bps, cx)
  {
    hide StepsFor;
    WindowInSamples(delta, d.rate, bps, cx);
    WindowInSamples(2.0 * delta, d.rate, bps, cx);
    ErrorInSamples(delta, d.rate, bps, cx);
    ErrorInSamples(delta, 2.0 * d.rate, bps, cx);
    HalfIsOff(delta, d.rate, SamplesPerPacket(bps, cx));
    AbsOver(SamplesOff(delta, d.rate, SamplesPerPacket(bps, cx)));
    hide SamplesOff, Abs, SamplesPerPacket;
  }

  lemma AbsOver(x: real)
    ensures Abs(x) > 1.0 <==> x > 1.0 || x < -1.0
  {
  }

  lemma WindowInSamples(delta: real, rate: real, bps: nat, cx: bool)
    requires 8 <= bps <= 32 && rate > 0.0
    ensures var s, off := StepsFor(rate, bps, cx), SamplesOff(delta, rate, SamplesPerPacket(bps, cx));
            && s.Steps?
            && (delta > s.max <==> off > 1.0) && (delta < s.min <==> off < -1.0)
            && (s.min < delta < s.max <==> Abs(off) < 1.0)
  {
    var n := SamplesPerPacket(bps, cx);
    Compared(delta, (n + 1) as real, rate);
    Compared(delta, (n - 1) as real, rate);
  }

  lemma Compared(delta: real, x: real, rate: real)
    requires rate > 0.0
    ensures delta > x / rate <==> delta * rate > x
    ensures delta < x / rate <==> delta * rate < x
  {
    var q := x / rate;
    assert q * rate == x;
    assert (delta - q) * rate == delta * rate - x;
  }

  lemma ErrorInSamples(delta: real, rate: real, bps: nat, cx: bool)
    requires 8 <= bps <= 32 && rate > 0.0
    ensures var s := StepsFor(rate, bps, cx);
            s.Steps? && delta - s.ideal == SamplesOff(delta, rate, SamplesPerPacket(bps, cx)) / rate
  {
    var n := SamplesPerPacket(bps, cx) as real;
    assert (delta - n / rate) * rate == delta * rate - n;
  }

  /** What looks like half a step is far from a whole one. */
  lemma HalfIsOff(delta: real, rate: real, n: nat)
    requires n >= 128
    ensures Abs(SamplesOff(2.0 * delta, rate, n)) < 1.0 ==> Abs(SamplesOff(delta, rate, n)) > 1.0
  {
    assert 2.0 * delta * rate == 2.0 * (delta * rate);
  }

  /** An error of up to one sample period stays inside the window. */
  lemma StepWindow(rate: real, bps: nat, cx: bool, error: real)
    requires 8 <= bps <= 32 && rate > 0.0 && Abs(error) <= 1.0 / rate
    ensures WithinWindow(StepsFor(rate, bps, cx), error)
  {
    var n := SamplesPerPacket(bps, cx);
    DivideByRate(n - 1, rate);
    DivideByRate(n, rate);
    AtLeastTwo(n, rate);
  }

  lemma DivideByRate(n: nat, rate: real)
    requires rate > 0.0
    ensures (n + 1) as real / rate == n as real / rate + 1.0 / rate
    ensures 1.0 / rate > 0.0
  {
    assert (n + 1) as real == n as real + 1.0;
  }

  lemma AtLeastTwo(n: nat, rate: real)
    requires rate > 0.0 && n >= 2
    ensures n as real / rate >= 1.0 / rate + 1.0 / rate
  {
    assert 1.0 / rate + 1.0 / rate == 2.0 / rate;
    Divided(2.0, n as real, rate);
  }

  lemma Divided(x: real, y: real, rate: real)
    requires rate > 0.0 && x <= y
    ensures x / rate <= y / rate
  {
  }
}
