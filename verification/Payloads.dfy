/** What is written: every packet that is not skipped, once, in order, with its samples intact. */
module Payloads {

  import opened ByteOrder
  import opened SddsTimes
  import opened SddsPackets
  import opened SlipDetector
  import opened TimeStamps
  import opened Processor
  import opened Positions
  import opened Sequences
  import Livelock

  /** The payloads in a log, oldest first. */
  function Writes(log: seq<Event>): seq<Written> {
    if log == [] then []
    else
      var before := Writes(log[..|log| - 1]);
      if log[|log| - 1].Write? then before + [log[|log| - 1].w] else before
  }

  /** The positions of the first k packets of a stream without those that wait-on-TTV skips. */
  function Kept(opt: Options, ps: seq<Packet>, k: nat): (at: seq<nat>)
    requires k <= |ps|
    ensures forall i :: 0 <= i < |at| ==> at[i] < k && !Skips(opt, ps[at[i]].h)
    ensures forall j: nat :: j < k && !Skips(opt, ps[j].h) ==> j in at
  {
    if k == 0 then []
    else if Skips(opt, ps[k - 1].h) then Kept(opt, ps, k - 1)
    else Kept(opt, ps, k - 1) + [k - 1]
  }

  /** The stamp is the packet's time in the given year, its fraction of a second split off exactly. */
  predicate StampIn(st: Stamp, h: Header, year: int) {
    && st.valid == h.ttv
    && 0.0 <= st.tfsec < 1.0
    && st.twsec == year as real + WholeSeconds(h.time) as real
    && st.twsec + st.tfsec == year as real + h.time.Seconds()
  }

  /**
    The write of a packet: what the host reads from the bytes written is what the packet's
    payload says in the declared byte order, and the stamp is its time in the given year.
   */
  ghost predicate Records(w: Written, p: Packet, year: int) {
    && w.h == p.h
    && StandardBps(w.bps) && |w.data| == PAYLOAD && |p.d| == PAYLOAD
    && Samples(Little, w.bps / 8, w.data) == Samples(w.order, w.bps / 8, p.d)
    && |Samples(w.order, w.bps / 8, p.d)| * w.bps == 8 * PAYLOAD
    && StampIn(w.stamp, p.h, year)
  }

  /** Recorded with this sample width, this declared byte order and this knowledge of the device. */
  ghost predicate RecordsAs(w: Written, p: Packet, bps: nat, order: Endian, year: int, nonConforming: bool) {
    Records(w, p, year) && w.bps == bps && w.order == order && w.nonConforming == nonConforming
  }

  /**
    Is this the write of packet j, at the width that the header of the packet which began its
    sequence gives, and stamped in one of these years?
   */
  ghost predicate RecordsPacket(w: Written, opt: Options, ps: seq<Packet>, j: nat, years: set<int>)
    requires j < |ps|
  {
    && StandsFor(ps[Beginning(opt, ps, j)].h.bps, w.bps)
    && exists year :: year in years && Records(w, ps[j], year)
  }

  /** The writes are those of the kept packets among the first k, in order. */
  ghost predicate AllRecorded(ws: seq<Written>, opt: Options, ps: seq<Packet>, k: nat, years: set<int>)
    requires k <= |ps|
  {
    var at := Kept(opt, ps, k);
    && |ws| == |at|
    && forall i :: 0 <= i < |ws| ==> RecordsPacket(ws[i], opt, ps, at[i], years)
  }

  /** Does the clock only ever say one of these years? */
  ghost predicate ClockSays(acts: seq<Act>, years: set<int>) {
    forall i :: 0 <= i < |acts| && acts[i].Pass? ==> acts[i].clockYear in years
  }

  /** Conversion to host order keeps the samples: swapped exactly when the declared order is not the host's. */
  lemma DeliveredSamples(order: Endian, bps: nat, d: seq<byte>)
    requires StandardBps(bps) && |d| == PAYLOAD
    ensures Samples(Little, bps / 8, Delivered(order, bps, d)) == Samples(order, bps / 8, d)
  {
    if bps == 8 {
      ByteSamples(d);
    } else if order.Big? {
      SwappedSamples(bps / 8, d);
    }
  }

  /** The samples of a payload are all of it. */
  lemma SamplesFillPayload(order: Endian, bps: nat, d: seq<byte>)
    requires StandardBps(bps) && |d| == PAYLOAD
    ensures |Samples(order, bps / 8, d)| * bps == 8 * PAYLOAD
  {
    hide FromOrder, Group;
  }

  lemma WriteRecords(o: Output, bps: nat, order: Endian, p: Packet, last: SddsTime,
                     year: int, clockYear: int, met: bool)
    requires StandardBps(bps) && |p.d| == PAYLOAD
    ensures var stamp := StampOf(p.h.time, p.h.ttv, last, year, clockYear).0;
            var newYear := StampOf(p.h.time, p.h.ttv, last, year, clockYear).1;
            var after := WritePacket(o, bps, order, stamp, met, p);
            exists w ::
              && RecordsAs(w, p, bps, order, newYear, met) && w.data == Delivered(order, bps, p.d)
              && Writes(after.log) == Writes(o.log) + [w]
  {
    var (stamp, y) := StampOf(p.h.time, p.h.ttv, last, year, clockYear);
    var w := Written(p.h, stamp, bps, order, met, Delivered(order, bps, p.d));
    StampIsExact(p.h.time, p.h.ttv, last, year, clockYear);
    assert StampIn(stamp, p.h, y);
    DeliveredSamples(order, bps, p.d);
    SamplesFillPayload(order, bps, p.d);
    hide Samples, Delivered, StampOf, StampIn;
    assert (o.log + [Write(w)])[..|o.log|] == o.log;
    assert RecordsAs(w, p, bps, order, y, met);
  }

  /** Nothing else that happens on the streams writes a payload. */
  lemma EmitQuiet(o: Output, e: Event)
    requires !e.Write?
    ensures Writes(Emit(o, e).log) == Writes(o.log)
  {
    assert (o.log + [e])[..|o.log|] == o.log;
  }

  lemma CreateQuiet(o: Output, sri: Sri)
    ensures Writes(CreateStreams(o, sri).log) == Writes(o.log)
  {
    EmitQuiet(o, Close);
    EmitQuiet(CloseStreams(o), Open(sri));
  }

  lemma UpdateSriQuiet(sri: Sri, c: Control, o: Output, h: Header, nonConforming: bool)
    ensures Writes(UpdateSri(sri, c, o, h, nonConforming).out.log) == Writes(o.log)
  {
    var m := TakeUpstream(sri, c, o);
    CreateQuiet(o, m.sri);
    hide CreateStreams;
    assert Writes(m.out.log) == Writes(o.log);
    hide TakeUpstream;
    CreateQuiet(m.out, UpdateSri(sri, c, o, h, nonConforming).sri);
  }

  /**
    A pass writes exactly the packet it consumes, unless it skips it. The width is that of the
    packet which began the sequence, the byte order the one last taken from upstream, and the
    year the one the pass leaves. What it writes is what it leaves in the buffer.
   */
  lemma OfferWrites(s: Proc, p: Packet, clockYear: int)
    requires UsableBps(s.trk.bps) && Usable(p) && StandardBps(BitsPerSample(p.h))
    requires s.trk.first || StandardBps(s.trk.bps)
    ensures var r := Offer(s, p, clockYear);
            && (r.s.trk.first || StandardBps(r.s.trk.bps))
            && if r.consumed && !Skips(s.opt, p.h)
               then
                 var bps := if s.trk.first then BitsPerSample(p.h) else s.trk.bps;
                 exists w ::
                   && RecordsAs(w, p, bps, r.s.ctl.endian, r.s.startOfYear, s.det.nonConforming)
                   && w.data == r.d && Writes(r.s.out.log) == Writes(s.out.log) + [w]
               else r.d == p.d && Writes(r.s.out.log) == Writes(s.out.log)
  {
    hide OfferOrdered, ExpectHeader, RecordsAs, Writes;
    EmitQuiet(s.out, Flush);
    if !Skips(s.opt, p.h) {
      var o := CheckOrder(s.trk, s.det, p.h);
      if o.valid {
        KeepsDevice(s.det, BitsPerSample(p.h), p.h);
        assert StandardBps(o.trk.bps) && o.det.nonConforming == s.det.nonConforming;
        hide CheckOrder;
        OfferOrderedWrites(s.(trk := o.trk, det := o.det), p, clockYear);
      }
    }
  }

  lemma OfferOrderedWrites(s: Proc, p: Packet, clockYear: int)
    requires UsableBps(s.trk.bps) && Usable(p)
    ensures var r := OfferOrdered(s, p, clockYear);
            && r.s.trk.first == s.trk.first && r.s.trk.bps == s.trk.bps
            && if r.consumed
               then StandardBps(s.trk.bps) ==>
                 exists w ::
                   && RecordsAs(w, p, s.trk.bps, r.s.ctl.endian, r.s.startOfYear, s.det.nonConforming)
                   && w.data == r.d && Writes(r.s.out.log) == Writes(s.out.log) + [w]
               else r.d == p.d && Writes(r.s.out.log) == Writes(s.out.log)
  {
    hide UpdateSri, ExpectHeader, Check, RecordsAs, Writes, StampOf;
    var m := UpdateSri(s.sri, s.ctl, s.out, p.h, s.det.nonConforming);
    UpdateSriQuiet(s.sri, s.ctl, s.out, p.h, s.det.nonConforming);
    if m.changed {
      EmitQuiet(m.out, PushSri(s.trk.bps, m.sri));
    } else if StandardBps(s.trk.bps) {
      WriteRecords(m.out, s.trk.bps, m.ctl.endian, p, s.det.last, s.startOfYear, clockYear, s.det.nonConforming);
      hide WritePacket;
    }
  }

  /**
    Over whole runs, early returns included, the payloads written are those of the packets
    consumed less the ones skipped, each once and in order, at the width of the packet that began
    its sequence, byte order converted exactly once, and stamped in the year the run started in or
    one that the clock has said.
   */
  lemma {:induction false} PayloadsWritten(at: Position, ps: seq<Packet>, acts: seq<Act>, years: set<int>)
    requires Ready(at, ps) && AllStandard(ps) && InStep(at.s.trk, at.s.opt, ps, at.k)
    requires at.s.trk.first || StandardBps(at.s.trk.bps)
    requires at.s.startOfYear in years && ClockSays(acts, years)
    requires AllRecorded(Writes(at.s.out.log), at.s.opt, ps, at.k, years)
    ensures var r := Run(at, ps, acts);
            AllRecorded(Writes(r.s.out.log), at.s.opt, ps, r.k, years)
    decreases |acts|
  {
    hide AllRecorded, Writes, Offer, AllStandard, InStep;
    if acts != [] {
      if acts[0].Pass? && at.k < |ps| {
        PassRecords(at.s, ps, at.k, acts[0].clockYear, years);
        assert AllUsable(ps) by { StandardIsUsable(ps); }
        PassKeepsStep(at.s, ps, at.k, acts[0].clockYear);
      }
      PayloadsWritten(Next(at, ps, acts[0]), ps, acts[1..], years);
    }
  }

  lemma PassRecords(s: Proc, ps: seq<Packet>, k: nat, clockYear: int, years: set<int>)
    requires UsableBps(s.trk.bps) && k < |ps| && AllStandard(ps) && InStep(s.trk, s.opt, ps, k)
    requires s.trk.first || StandardBps(s.trk.bps)
    requires s.startOfYear in years && clockYear in years && AllRecorded(Writes(s.out.log), s.opt, ps, k, years)
    ensures var r := Offer(s, ps[k], clockYear);
            && (r.s.trk.first || StandardBps(r.s.trk.bps)) && r.s.startOfYear in years
            && AllRecorded(Writes(r.s.out.log), s.opt, ps, if r.consumed then k + 1 else k, years)
  {
    hide Offer, CheckOrder, Records, Writes, AllRecorded, Kept, StandardBps, BitsPerSample, InStep, Beginning;
    var p, r := ps[k], Offer(s, ps[k], clockYear);
    FieldGivesWidth(p.h);
    OfferWrites(s, p, clockYear);
    OfferKeepsYear(s, p, clockYear);
    PassKeepsStep(s, ps, k, clockYear);
    if r.consumed {
      if Skips(s.opt, p.h) {
        NoMoreRecord(Writes(s.out.log), s.opt, ps, k, years);
      } else {
        var bps := if s.trk.first then BitsPerSample(p.h) else s.trk.bps;
        var w :|
          && RecordsAs(w, p, bps, r.s.ctl.endian, r.s.startOfYear, s.det.nonConforming)
          && Writes(r.s.out.log) == Writes(s.out.log) + [w];
        FieldGivesWidth(ps[Beginning(s.opt, ps, k)].h);
        assert RecordsPacket(w, s.opt, ps, k, years);
        OneMoreRecord(Writes(s.out.log), s.opt, ps, k, w, years);
      }
    }
  }

  lemma NoMoreRecord(ws: seq<Written>, opt: Options, ps: seq<Packet>, k: nat, years: set<int>)
    requires k < |ps| && Skips(opt, ps[k].h) && AllRecorded(ws, opt, ps, k, years)
    ensures AllRecorded(ws, opt, ps, k + 1, years)
  {
    hide RecordsPacket;
    assert Kept(opt, ps, k + 1) == Kept(opt, ps, k);
  }

  lemma OneMoreRecord(
      ws: seq<Written>, opt: Options, ps: seq<Packet>, k: nat, w: Written, years: set<int>)
    requires k < |ps| && !Skips(opt, ps[k].h) && AllRecorded(ws, opt, ps, k, years)
    requires RecordsPacket(w, opt, ps, k, years)
    ensures AllRecorded(ws + [w], opt, ps, k + 1, years)
  {
    hide RecordsPacket;
    assert Kept(opt, ps, k + 1) == Kept(opt, ps, k) + [k];
  }

  /** Was every payload written at the width its own header gives? */
  ghost predicate AtOwnWidth(ws: seq<Written>) {
    forall i :: 0 <= i < |ws| ==> StandsFor(ws[i].h.bps, ws[i].bps)
  }

  /**
    The exact condition: every payload is written at its own packet's width if and only if no
    packet consumed that continues a sequence changes the width.
   */
  lemma OwnWidthsIff(setup: Setup, ps: seq<Packet>, acts: seq<Act>)
    requires AllStandard(ps)
    ensures var r := Run(Position(Fresh(setup), 0), ps, acts);
            AtOwnWidth(Writes(r.s.out.log)) <==> WidthsHold(setup.opt, ps, r.k)
  {
    hide Run, WidthsHold, AllStandard;
    var at := Position(Fresh(setup), 0);
    StandardIsUsable(ps);
    var years := {setup.year} + set i | 0 <= i < |acts| && acts[i].Pass? :: acts[i].clockYear;
    assert Writes(at.s.out.log) == [];
    PayloadsWritten(at, ps, acts, years);
    var r := Run(at, ps, acts);
    WidthsHoldIff(setup.opt, ps, r.k);
    RecordedWidths(Writes(r.s.out.log), setup.opt, ps, r.k, years);
    hide Writes, AllRecorded;
  }

  lemma RecordedWidths(ws: seq<Written>, opt: Options, ps: seq<Packet>, k: nat, years: set<int>)
    requires k <= |ps| && AllStandard(ps) && AllRecorded(ws, opt, ps, k, years)
    ensures AtOwnWidth(ws) <==>
            forall j: nat :: j < k && !Skips(opt, ps[j].h) ==> ps[Beginning(opt, ps, j)].h.bps == ps[j].h.bps
  {
    var at := Kept(opt, ps, k);
    forall i | 0 <= i < |ws|
      ensures StandsFor(ws[i].h.bps, ws[i].bps) <==> ps[Beginning(opt, ps, at[i])].h.bps == ps[at[i]].h.bps
    {
      RecordedWidth(ws[i], opt, ps, at[i], years);
    }
    hide Beginning, StandsFor, RecordsPacket, AllStandard;
    if AtOwnWidth(ws) {
      forall j: nat | j < k && !Skips(opt, ps[j].h)
        ensures ps[Beginning(opt, ps, j)].h.bps == ps[j].h.bps
      {
        var i :| 0 <= i < |at| && at[i] == j;
        assert StandsFor(ws[i].h.bps, ws[i].bps);
      }
    }
  }

  lemma RecordedWidth(w: Written, opt: Options, ps: seq<Packet>, j: nat, years: set<int>)
    requires AllStandard(ps) && j < |ps| && RecordsPacket(w, opt, ps, j, years)
    ensures StandsFor(w.h.bps, w.bps) <==> ps[Beginning(opt, ps, j)].h.bps == ps[j].h.bps
  {
    hide Beginning;
  }

  /** A 16-bit packet and its successor in number, which is an 8-bit one. */
  function Widening(d: seq<byte>): seq<Packet> {
    [Packet(Plain(0, 16, SLOW), d), Packet(Plain(1, 8, SLOW), d)]
  }

  /** A stream of which the second packet is written at the width of the first, in every run that consumes it. */
  lemma WidthChangeIsMissed(setup: Setup, d: seq<byte>)
    requires |d| == PAYLOAD && !setup.opt.waitForTtv
    ensures var ps := Widening(d);
            && AllStandard(ps) && !WidthsHold(setup.opt, ps, |ps|)
            && (forall acts :: var r := Run(Position(Fresh(setup), 0), ps, acts);
                  r.k == |ps| ==> !AtOwnWidth(Writes(r.s.out.log)))
            && (exists acts :: Run(Position(Fresh(setup), 0), ps, acts).k == |ps|)
  {
    hide Run, Rate, Writes, AtOwnWidth, Passes;
    var ps := Widening(d);
    assert LastKept(setup.opt, ps, 1) == Some(0) && Continues(setup.opt, ps, 1);
    assert ps[1].h.bps != ps[0].h.bps;
    assert !WidthsHold(setup.opt, ps, |ps|);
    hide WidthsHold, LastKept;
    forall acts | Run(Position(Fresh(setup), 0), ps, acts).k == |ps|
      ensures !AtOwnWidth(Writes(Run(Position(Fresh(setup), 0), ps, acts).s.out.log))
    {
      OwnWidthsIff(setup, ps, acts);
    }
    var years := Livelock.CanBeConsumed(setup, ps);
    var acts := Passes(years);
  }

  /** Does the event leave the byte order at `order`, now and when what it sets is taken? */
  predicate KeepsOrder(e: UpstreamEvent, order: Endian) {
    match e
    case SetUpstream(u) => u.order.None? || u.order.value == order
    case UnsetUpstream => order.Big?
  }

  ghost predicate AllKeepOrder(acts: seq<Act>, order: Endian) {
    forall i :: 0 <= i < |acts| && acts[i].Upcall? ==> KeepsOrder(acts[i].e, order)
  }

  /** The byte order is `order` and will stay so. */
  predicate OrderSettled(c: Control, order: Endian) {
    c.endian == order && KeepsOrder(SetUpstream(c.given), order)
  }

  ghost predicate AllAs(ws: seq<Written>, bps: nat, order: Endian) {
    forall i :: 0 <= i < |ws| ==> ws[i].bps == bps && ws[i].order == order
  }

  lemma OfferKeepsOrder(s: Proc, p: Packet, clockYear: int, order: Endian)
    requires UsableBps(s.trk.bps) && Usable(p) && OrderSettled(s.ctl, order)
    ensures OrderSettled(Offer(s, p, clockYear).s.ctl, order)
  {
    hide CheckOrder, ExpectHeader, Check, StampOf, WritePacket, PushTheSri, FlushStreams, CreateStreams, Delivered;
  }

  /**
    A stream of one sample width is written at that width, and in the byte order declared
    upstream if that does not change: big-endian, as on the wire, if none is ever declared.
   */
  lemma {:induction false} WrittenAsDeclared(at: Position, ps: seq<Packet>, acts: seq<Act>, bps: nat, order: Endian)
    requires Ready(at, ps) && OfWidth(ps, bps) && StandardBps(bps) && (at.s.trk.first || at.s.trk.bps == bps)
    requires OrderSettled(at.s.ctl, order) && AllKeepOrder(acts, order)
    requires AllAs(Writes(at.s.out.log), bps, order)
    ensures AllAs(Writes(Run(at, ps, acts).s.out.log), bps, order)
    decreases |acts|
  {
    if acts != [] {
      if acts[0].Pass? && at.k < |ps| {
        PassWritesAs(at.s, ps[at.k], acts[0].clockYear, bps, order);
      }
      hide Offer, OfWidth, AllAs, Writes, BitsPerSample;
      WrittenAsDeclared(Next(at, ps, acts[0]), ps, acts[1..], bps, order);
    }
  }

  lemma PassWritesAs(s: Proc, p: Packet, clockYear: int, bps: nat, order: Endian)
    requires UsableBps(s.trk.bps) && Usable(p) && StandardBps(bps)
    requires BitsPerSample(p.h) == bps && (s.trk.first || s.trk.bps == bps)
    requires OrderSettled(s.ctl, order) && AllAs(Writes(s.out.log), bps, order)
    ensures var r := Offer(s, p, clockYear).s;
            && OrderSettled(r.ctl, order) && AllAs(Writes(r.out.log), bps, order)
            && (r.trk.first || r.trk.bps == bps)
  {
    OfferKeepsOrder(s, p, clockYear, order);
    OfferWrites(s, p, clockYear);
    OfferMoves(s, p, clockYear);
    hide Offer, Writes, Records, ExpectHeader, Check;
  }

  /** No packet is stamped earlier than one before it. */
  ghost predicate TimesForward(ps: seq<Packet>) {
    forall i, j :: 0 <= i <= j < |ps| ==> !ps[j].h.time.Less(ps[i].h.time)
  }

  /** The last time tag is not after that of any packet from k on. */
  ghost predicate NotAhead(last: SddsTime, ps: seq<Packet>, k: nat) {
    forall j :: k <= j < |ps| ==> !ps[j].h.time.Less(last)
  }

  ghost predicate AllInYear(ws: seq<Written>, year: int) {
    forall i :: 0 <= i < |ws| ==> StampIn(ws[i].stamp, ws[i].h, year)
  }

  /** The clock is read again exactly if the packet's time is before the last one tracked. */
  lemma OfferKeepsYear(s: Proc, p: Packet, clockYear: int)
    requires UsableBps(s.trk.bps) && Usable(p)
    ensures var r := Offer(s, p, clockYear);
            var o := CheckOrder(s.trk, s.det, p.h);
            r.s.startOfYear ==
              if r.consumed && !Skips(s.opt, p.h) && p.h.time.Less(o.det.last) then clockYear else s.startOfYear
    ensures var r := Offer(s, p, clockYear); r.s.det.last in {ZERO, s.det.last, p.h.time}
  {
    OfferMoves(s, p, clockYear);
    hide UpdateSri, WritePacket, PushTheSri, FlushStreams, Delivered, StepsFor, Accumulate, Rate;
  }

  lemma PassKeepsYear(s: Proc, ps: seq<Packet>, k: nat, clockYear: int, year: int)
    requires UsableBps(s.trk.bps) && AllStandard(ps) && TimesForward(ps) && k < |ps|
    requires s.trk.first || StandardBps(s.trk.bps)
    requires s.startOfYear == year && NotAhead(s.det.last, ps, k) && AllInYear(Writes(s.out.log), year)
    ensures var r := Offer(s, ps[k], clockYear);
            && (r.s.trk.first || StandardBps(r.s.trk.bps))
            && r.s.startOfYear == year && AllInYear(Writes(r.s.out.log), year)
            && NotAhead(r.s.det.last, ps, if r.consumed then k + 1 else k)
  {
    OfferKeepsYear(s, ps[k], clockYear);
    OfferWrites(s, ps[k], clockYear);
    var o := CheckOrder(s.trk, s.det, ps[k].h);
    assert o.det.last in {ZERO, s.det.last};
    hide Offer, Writes, CheckOrder, StampIn;
  }

  /** While times go forward every payload is stamped in the year the processor started in. */
  lemma {:induction false} StampedInOneYear(at: Position, ps: seq<Packet>, acts: seq<Act>, year: int)
    requires Ready(at, ps) && AllStandard(ps) && TimesForward(ps)
    requires at.s.trk.first || StandardBps(at.s.trk.bps)
    requires at.s.startOfYear == year && NotAhead(at.s.det.last, ps, at.k) && AllInYear(Writes(at.s.out.log), year)
    ensures AllInYear(Writes(Run(at, ps, acts).s.out.log), year)
    decreases |acts|
  {
    if acts != [] {
      if acts[0].Pass? && at.k < |ps| {
        PassKeepsYear(at.s, ps, at.k, acts[0].clockYear, year);
      }
      hide Offer, AllStandard, TimesForward, NotAhead, AllInYear, Writes;
      StampedInOneYear(Next(at, ps, acts[0]), ps, acts[1..], year);
    }
  }
}
