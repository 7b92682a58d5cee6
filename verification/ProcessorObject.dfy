/**
  The processor as the object it is: its methods update their fields and the caller's queues in
  place and swap payload bytes where they lie. Each is proved to do what the functions of
  Processor.dfy say; `log` records what happens on the output streams.
 */
module ProcessorObject {

  import opened ByteOrder
  import opened SddsTimes
  import opened SddsPackets
  import opened SequenceCounter
  import opened SlipDetector
  import opened TimeStamps
  import opened SmartPacketBuffers
  import opened Processor

  const BIG_ENDIAN := "4321"
  const LITTLE_ENDIAN := "1234"

  /** The payload memory of the buffers in a queue. */
  ghost function PayloadArrays(bufs: seq<SddsPacket>): set<object> {
    set i | 0 <= i < |bufs| :: bufs[i].d
  }

  /** The contents of the buffers in a queue. */
  ghost function ContentsOf(bufs: seq<SddsPacket>): (ps: seq<Packet>)
    reads bufs, PayloadArrays(bufs)
    ensures |ps| == |bufs| && forall i :: 0 <= i < |bufs| ==> ps[i] == bufs[i].Contents()
  {
    seq(|bufs|, i requires 0 <= i < |bufs| reads bufs, PayloadArrays(bufs) => bufs[i].Contents())
  }

  lemma RewrittenNext(ps: seq<Packet>, ds: seq<seq<byte>>, d: seq<byte>)
    requires |ds| < |ps|
    ensures var p := ps[|ds|];
            && Rewritten(ps, ds)[|ds| := Packet(p.h, d)] == Rewritten(ps, ds + [d])
            && (d == p.d ==> Rewritten(ps, ds)[|ds| := Packet(p.h, d)] == Rewritten(ps, ds))
  {
  }

  /** Buffers that do not share payload memory. */
  ghost predicate Separate(bufs: seq<SddsPacket>) {
    forall i, j :: 0 <= i < j < |bufs| ==> bufs[i].d != bufs[j].d
  }

  lemma ArraysInside(some: seq<SddsPacket>, all: seq<SddsPacket>)
    requires forall i :: 0 <= i < |some| ==> some[i] in all
    ensures PayloadArrays(some) <= PayloadArrays(all)
    ensures forall i :: 0 <= i < |some| ==> some[i].d in PayloadArrays(all)
  {
  }

  lemma PoolIsNoPayload(bufs: seq<SddsPacket>, pool: SmartPacketBuffer<SddsPacket>)
    ensures pool !in PayloadArrays(bufs)
  {
  }

  lemma RecycleIs<T>(empty: seq<T>, que: seq<T>)
    ensures Recycle(empty, que) == Exchange(empty + que, [])
  {
  }

  /** What the tests before the SRI update decide about the front packet. */
  datatype Verdict = Skipped | HeldBack | Admitted

  function Admission(s: Proc, h: Header): (r: (Proc, Verdict))
    requires UsableBps(s.trk.bps) && UsableBps(BitsPerSample(h))
    ensures UsableBps(r.0.trk.bps)
  {
    if Skips(s.opt, h) then (s.(out := FlushStreams(s.out)), Skipped)
    else
      var o := CheckOrder(s.trk, s.det, h);
      var s1 := s.(trk := o.trk, det := o.det);
      if !o.valid then (s1.(out := FlushStreams(s.out)), HeldBack)
      else if s.opt.pushOnTtv && o.trk.ttvFlag != h.ttv then
        (s1.(trk := o.trk.(ttvFlag := h.ttv), out := FlushStreams(s.out)), HeldBack)
      else (s1, Admitted)
  }

  /** A pass is the tests and then, if they admit the packet, the rest. */
  lemma OfferByAdmission(s: Proc, p: Packet, clockYear: int)
    requires UsableBps(s.trk.bps) && Usable(p)
    ensures var (s1, verdict) := Admission(s, p.h);
            Offer(s, p, clockYear) ==
              match verdict
              case Skipped => Offered(s1, true, p.d)
              case HeldBack => Offered(s1, false, p.d)
              case Admitted => OfferOrdered(s1, p, clockYear)
  {
    hide OfferOrdered, FlushStreams, ExpectHeader;
  }

  class SddsToBulkIOProcessor {
    var pktsPerRead: nat
    var running: bool
    var waitForTtv: bool
    var pushOnTtv: bool
    var firstPacket: bool
    var currentTtvFlag: bool
    var expectedSeqNumber: u16
    var pktsDropped: u64
    var bps: nat
    var sri: Sri
    var upstreamSri: Upstream
    var upstreamSriSet: bool
    var newUpstreamSri: bool
    var useUpstreamSri: bool
    var endianness: Endian
    var lastSddsTime: SddsTime
    var currentSampleRate: real
    var timeSteps: Steps
    var timeErrorAccum: real
    var numTimeSlips: nat
    var nonConformingDevice: bool
    var startOfYear: int
    var streamsOpen: bool
    ghost var log: seq<Event>

    constructor (year: int)
      ensures State() == Fresh(Setup(Options(false, false), year, Big))
      ensures pktsPerRead == 500 && !running
    {
      pktsPerRead, running := 500, false;
      waitForTtv, pushOnTtv := false, false;
      firstPacket, currentTtvFlag, expectedSeqNumber, pktsDropped, bps := true, false, 0, 0, 0;
      sri := INITIAL_SRI;
      upstreamSri := Upstream(INITIAL_SRI, 0, false, None);
      upstreamSriSet, newUpstreamSri, useUpstreamSri, endianness := false, false, false, Big;
      lastSddsTime, currentSampleRate, timeSteps := ZERO, 0.0, Steps(0.0, 0.0, 0.0);
      timeErrorAccum, numTimeSlips, nonConformingDevice := 0.0, 0, false;
      startOfYear, streamsOpen, log := year, false, [];
    }

    ghost function Det(): Detector
      reads this
    {
      Detector(lastSddsTime, currentSampleRate, timeSteps, timeErrorAccum, numTimeSlips, nonConformingDevice)
    }

    ghost function Trk(): Tracker
      reads this
    {
      Tracker(firstPacket, currentTtvFlag, expectedSeqNumber, pktsDropped, bps)
    }

    ghost function Ctl(): Control
      reads this
    {
      Control(upstreamSri, upstreamSriSet, newUpstreamSri, useUpstreamSri, endianness)
    }

    ghost function Out(): Output
      reads this
    {
      Output(streamsOpen, log)
    }

    /** The object's state as the value the properties are about. */
    ghost function State(): (s: Proc)
      reads this
      ensures s.trk.bps == bps
    {
      Proc(Options(waitForTtv, pushOnTtv), Trk(), sri, Ctl(), Det(), startOfYear, Out())
    }

    /** At most as many packets per push as fit into one CORBA transfer; refused while running. */
    method SetPktsPerRead(n: nat, maxTransferBytes: nat)
      modifies `pktsPerRead
      ensures running ==> pktsPerRead == old(pktsPerRead)
      ensures !running ==>
                && pktsPerRead <= n
                && pktsPerRead * PAYLOAD <= maxTransferBytes
                && (pktsPerRead == n || (pktsPerRead + 1) * PAYLOAD > maxTransferBytes)
    {
      if running {
        return;
      }
      if n * PAYLOAD > maxTransferBytes {
        pktsPerRead := maxTransferBytes / PAYLOAD;
      } else {
        pktsPerRead := n;
      }
    }

    method SetWaitForTtv(wait: bool)
      modifies `waitForTtv
      ensures waitForTtv == if running then old(waitForTtv) else wait
    {
      if running {
        return;
      }
      waitForTtv := wait;
    }

    method SetPushOnTtv(push: bool)
      modifies `pushOnTtv
      ensures pushOnTtv == if running then old(pushOnTtv) else push
    {
      if running {
        return;
      }
      pushOnTtv := push;
    }

    /** The byte order of the payload; an unknown name changes nothing. */
    method SetEndianness(name: string)
      modifies `endianness
      ensures endianness ==
                if !running && name == BIG_ENDIAN then Big
                else if !running && name == LITTLE_ENDIAN then Little
                else old(endianness)
    {
      if running {
        return;
      }
      if name != BIG_ENDIAN && name != LITTLE_ENDIAN {
        return;
      }
      endianness := if name == BIG_ENDIAN then Big else Little;
    }

    method SetUpstreamSri(u: Upstream)
      modifies `upstreamSri, `upstreamSriSet, `newUpstreamSri
      ensures State() == Apply(old(State()), SetUpstream(u))
    {
      upstreamSri := u;
      upstreamSriSet := true;
      newUpstreamSri := true;
    }

    method UnsetUpstreamSri()
      modifies `useUpstreamSri, `upstreamSriSet, `endianness, `sri
      ensures State() == Apply(old(State()), UnsetUpstream)
    {
      useUpstreamSri := false;
      upstreamSriSet := false;
      endianness := Big;
      sri := sri.(streamId := DEFAULT_STREAM_ID);
    }

    method UpdateExpectedXdelta(rate: real, complex: bool)
      requires UsableBps(bps)
      modifies `currentSampleRate, `timeSteps
      ensures Det() == UpdateXdelta(old(Det()), rate, bps, complex)
    {
      currentSampleRate := rate;
      if bps == 0 {
        return;
      }
      var sampsPerPacket := PAYLOAD / (bps / 8);
      if complex {
        sampsPerPacket := sampsPerPacket / 2;
      }
      if rate == 0.0 {
        timeSteps := Unbounded;
      } else {
        timeSteps := Steps((sampsPerPacket + 1) as real / rate, sampsPerPacket as real / rate,
                           (sampsPerPacket - 1) as real / rate);
      }
    }

    method OrderIsValid(h: Header) returns (valid: bool)
      requires UsableBps(BitsPerSample(h))
      modifies `firstPacket, `currentTtvFlag, `expectedSeqNumber, `bps, `pktsDropped
      modifies `lastSddsTime, `currentSampleRate, `timeSteps
      ensures Ordered(Trk(), Det(), valid) == CheckOrder(old(Trk()), old(Det()), h)
    {
      if firstPacket {
        firstPacket := false;
        currentTtvFlag := h.ttv;
        expectedSeqNumber := h.seqNo;
        bps := if h.bps == 31 then 32 else h.bps;
        lastSddsTime := ZERO;
        UpdateExpectedXdelta(if nonConformingDevice then Rate(h) * 2.0 else Rate(h), h.cx);
        return true;
      }
      if expectedSeqNumber != h.seqNo {
        var numDropped: u16 := (h.seqNo - expectedSeqNumber) % 0x1_0000;
        pktsDropped := (pktsDropped + numDropped) % 0x1_0000_0000_0000_0000;
        firstPacket := true;
        return false;
      }
      return true;
    }

    method CheckForTimeSlip(h: Header)
      requires UsableBps(bps)
      modifies `lastSddsTime, `currentSampleRate, `timeSteps, `timeErrorAccum, `numTimeSlips, `nonConformingDevice
      ensures Det() == Check(old(Det()), bps, h)
    {
      var slip := false;
      if !h.ttv {
        return;
      }
      if lastSddsTime == ZERO {
        lastSddsTime := h.time;
        return;
      }
      var deltaTime := h.time.Seconds() - lastSddsTime.Seconds();
      lastSddsTime := h.time;
      if deltaTime < 0.0 {
        return;
      }
      if timeSteps.Unbounded? || deltaTime > timeSteps.max || deltaTime < timeSteps.min {
        if !nonConformingDevice && h.cx && numTimeSlips == 0 && timeSteps.Steps?
           && 2.0 * deltaTime < timeSteps.max && 2.0 * deltaTime > timeSteps.min {
          nonConformingDevice := true;
          UpdateExpectedXdelta(2.0 * currentSampleRate, h.cx);
        } else {
          slip := true;
        }
      }
      if timeSteps.Unbounded? {
        timeErrorAccum := 0.0;
        slip := true;
      } else {
        timeErrorAccum := timeErrorAccum + (deltaTime - timeSteps.ideal);
        if Abs(timeErrorAccum) > TOLERANCE {
          timeErrorAccum := 0.0;
          slip := true;
        }
      }
      if slip {
        numTimeSlips := numTimeSlips + 1;
      }
    }

    method FlushOutputs()
      modifies `log
      ensures Out() == FlushStreams(old(Out()))
    {
      if streamsOpen {
        log := log + [Flush];
      }
    }

    method CloseOutputs()
      modifies `log, `streamsOpen
      ensures Out() == CloseStreams(old(Out()))
    {
      if streamsOpen {
        log := log + [Close];
        streamsOpen := false;
      }
    }

    method CreateOutputStreams()
      modifies `log, `streamsOpen
      ensures Out() == CreateStreams(old(Out()), sri)
    {
      CloseOutputs();
      log := log + [Open(sri)];
      streamsOpen := true;
    }

    method PushTheCurrentSri()
      modifies `log
      ensures Out() == PushTheSri(old(Out()), bps, sri)
    {
      if bps == 8 || bps == 16 || bps == 32 {
        log := log + [PushSri(bps, sri)];
      }
    }

    /** The section under the upstream SRI lock, `mergeUpstreamSRI` inlined. */
    method TakeUpstreamSri() returns (changed: bool)
      modifies `newUpstreamSri, `useUpstreamSri, `endianness, `sri, `log, `streamsOpen
      ensures Merged(sri, Ctl(), Out(), changed) == TakeUpstream(old(sri), old(Ctl()), old(Out()))
    {
      changed := false;
      if upstreamSriSet && newUpstreamSri {
        newUpstreamSri := false;
        if !SameSri(sri, upstreamSri.sri) {
          changed := true;
          var streamIDChanged := sri.streamId != upstreamSri.sri.streamId;
          sri := sri.(streamId := upstreamSri.sri.streamId,
                      meta := upstreamSri.asStored, extra := upstreamSri.sri.extra);
          if upstreamSri.priority {
            useUpstreamSri := true;
          }
          if upstreamSri.order.Some? {
            endianness := upstreamSri.order.value;
          }
          if useUpstreamSri {
            sri := sri.(xdelta := upstreamSri.sri.xdelta, mode := upstreamSri.sri.mode);
          }
          if streamIDChanged {
            CreateOutputStreams();
          }
        }
      }
    }

    /** `mergeSddsSRI`. */
    method MergeSddsSri(h: Header) returns (changed: bool)
      modifies `sri
      ensures sri == MergeHeader(h, old(sri), nonConformingDevice)
      ensures changed == !HeaderAgrees(h, old(sri), nonConformingDevice)
    {
      changed := false;
      var recXdelta := if Rate(h) == 0.0 then Infinite else Finite(1.0 / Rate(h));
      if nonConformingDevice && recXdelta.Finite? {
        recXdelta := Finite(recXdelta.v * 0.5);
      }
      if !SameXdelta(recXdelta, sri.xdelta) {
        changed := true;
        sri := sri.(xdelta := recXdelta);
      }
      var recMode := if h.cx then 1 else 0;
      if recMode != sri.mode {
        sri := sri.(mode := recMode);
        changed := true;
      }
    }

    method UpdateTheSri(h: Header) returns (changed: bool)
      modifies `newUpstreamSri, `useUpstreamSri, `endianness, `sri, `log, `streamsOpen
      ensures Merged(sri, Ctl(), Out(), changed)
              == UpdateSri(old(sri), old(Ctl()), old(Out()), h, nonConformingDevice)
    {
      changed := TakeUpstreamSri();
      if !useUpstreamSri {
        var merged := MergeSddsSri(h);
        changed := changed || merged;
      }
      hide TakeUpstream, MergeHeader, HeaderAgrees;
      if !streamsOpen {
        CreateOutputStreams();
      }
    }

    /** The switch on the sample width: the payload is swapped in place if need be and written. */
    method WriteThePacket(h: Header, d: array<byte>, stamp: Stamp, ghost met: bool)
      requires d.Length == PAYLOAD
      modifies `log, d
      ensures Out() == WritePacket(old(Out()), bps, endianness, stamp, met, Packet(h, old(d[..])))
      ensures d[..] == Delivered(endianness, bps, old(d[..]))
    {
      if bps == 8 {
        log := log + [Write(Written(h, stamp, bps, endianness, met, d[..]))];
      } else if bps == 16 {
        if endianness.Big? {
          SwapShorts(d);
        }
        log := log + [Write(Written(h, stamp, bps, endianness, met, d[..]))];
      } else if bps == 32 {
        if endianness.Big? {
          SwapWords(d);
        }
        log := log + [Write(Written(h, stamp, bps, endianness, met, d[..]))];
      }
    }

    /** The step of the sequence counter over the parity slot. */
    method AdvanceCounter()
      modifies `expectedSeqNumber
      ensures expectedSeqNumber == Successor(old(expectedSeqNumber))
    {
      expectedSeqNumber := (expectedSeqNumber + 1) % 0x1_0000;
      if expectedSeqNumber != 0 && expectedSeqNumber % 32 == 31 {
        expectedSeqNumber := (expectedSeqNumber + 1) % 0x1_0000;
      }
    }

    /** The time stamp, taken before the slip check replaces the last time tag. */
    method StampAndCheck(h: Header, clockYear: int) returns (stamp: Stamp)
      requires UsableBps(bps)
      modifies `startOfYear
      modifies `lastSddsTime, `currentSampleRate, `timeSteps, `timeErrorAccum, `numTimeSlips, `nonConformingDevice
      ensures (stamp, startOfYear) == StampOf(h.time, h.ttv, old(lastSddsTime), old(startOfYear), clockYear)
      ensures Det() == Check(old(Det()), bps, h)
    {
      hide Check, StampOf;
      var stamped := StampOf(h.time, h.ttv, lastSddsTime, startOfYear, clockYear);
      stamp, startOfYear := stamped.0, stamped.1;
      CheckForTimeSlip(h);
    }

    /** The time stamp, the slip check, the write and the step of the sequence counter. */
    method DeliverThePacket(h: Header, d: array<byte>, clockYear: int)
      requires UsableBps(bps) && d.Length == PAYLOAD
      modifies `startOfYear, `log, `expectedSeqNumber, d
      modifies `lastSddsTime, `currentSampleRate, `timeSteps, `timeErrorAccum, `numTimeSlips, `nonConformingDevice
      ensures State() == Deliver(old(State()), Packet(h, old(d[..])), clockYear)
      ensures d[..] == Delivered(endianness, bps, old(d[..]))
    {
      hide Check, WritePacket, StampOf, Delivered, Successor;
      ghost var s := State();
      var stamp := StampAndCheck(h, clockYear);
      assert State() == s.(startOfYear := startOfYear, det := Check(s.det, s.trk.bps, h));
      WriteThePacket(h, d, stamp, s.det.nonConforming);
      AdvanceCounter();
    }

    /** The SRI changed: it is pushed, and the packet's step is expected afresh. */
    method AnnounceSri(h: Header)
      requires UsableBps(bps)
      modifies `log, `lastSddsTime, `currentSampleRate, `timeSteps
      ensures Out() == PushTheSri(old(Out()), bps, sri) && Det() == ExpectHeader(old(Det()), bps, h)
    {
      hide UpdateXdelta, Rate;
      PushTheCurrentSri();
      lastSddsTime := ZERO;
      UpdateExpectedXdelta(if nonConformingDevice then Rate(h) * 2.0 else Rate(h), h.cx);
    }

    /** What follows the order and time-tag tests for one packet. */
    method PassOrdered(h: Header, d: array<byte>, clockYear: int) returns (consumed: bool)
      requires UsableBps(bps) && Usable(Packet(h, d[..]))
      modifies `firstPacket, `currentTtvFlag, `expectedSeqNumber, `bps, `pktsDropped
      modifies `newUpstreamSri, `useUpstreamSri, `endianness, `sri, `log, `streamsOpen, `startOfYear
      modifies `lastSddsTime, `currentSampleRate, `timeSteps, `timeErrorAccum, `numTimeSlips, `nonConformingDevice
      modifies d
      ensures Offered(State(), consumed, d[..]) == OfferOrdered(old(State()), Packet(h, old(d[..])), clockYear)
    {
      hide UpdateSri, ExpectHeader, Deliver, PushTheSri, Delivered;
      ghost var s := State();
      var sriChanged := UpdateTheSri(h);
      ghost var m := UpdateSri(s.sri, s.ctl, s.out, h, s.det.nonConforming);
      assert State() == s.(sri := m.sri, ctl := m.ctl, out := m.out);
      if sriChanged {
        AnnounceSri(h);
        return false;
      }
      DeliverThePacket(h, d, clockYear);
      return true;
    }

    /** The wait-on-TTV, order and push-on-TTV tests. */
    method Admit(h: Header) returns (verdict: Verdict)
      requires UsableBps(bps) && UsableBps(BitsPerSample(h))
      modifies `firstPacket, `currentTtvFlag, `expectedSeqNumber, `bps, `pktsDropped, `log
      modifies `lastSddsTime, `currentSampleRate, `timeSteps
      ensures (State(), verdict) == Admission(old(State()), h)
    {
      hide FlushStreams, ExpectHeader;
      ghost var s := State();
      if waitForTtv && !h.ttv {
        FlushOutputs();
        return Skipped;
      }
      var valid := OrderIsValid(h);
      ghost var o := CheckOrder(s.trk, s.det, h);
      assert State() == s.(trk := o.trk, det := o.det);
      if !valid {
        FlushOutputs();
        firstPacket := true;
        return HeldBack;
      }
      if pushOnTtv && currentTtvFlag != h.ttv {
        currentTtvFlag := h.ttv;
        FlushOutputs();
        return HeldBack;
      }
      return Admitted;
    }

    /** The body of the loop in `processPackets`. */
    method Pass(h: Header, d: array<byte>, clockYear: int) returns (consumed: bool)
      requires UsableBps(bps) && Usable(Packet(h, d[..]))
      modifies `firstPacket, `currentTtvFlag, `expectedSeqNumber, `bps, `pktsDropped
      modifies `newUpstreamSri, `useUpstreamSri, `endianness, `sri, `log, `streamsOpen, `startOfYear
      modifies `lastSddsTime, `currentSampleRate, `timeSteps, `timeErrorAccum, `numTimeSlips, `nonConformingDevice
      modifies d
      ensures Offered(State(), consumed, d[..]) == Offer(old(State()), Packet(h, old(d[..])), clockYear)
    {
      OfferByAdmission(State(), Packet(h, d[..]), clockYear);
      hide Offer, OfferOrdered, Admission;
      var verdict := Admit(h);
      hide SddsToBulkIOProcessor.State;
      match verdict
      case Skipped => consumed := true;
      case HeldBack => consumed := false;
      case Admitted => consumed := PassOrdered(h, d, clockYear);
    }

    /** One pass over the packet in buffer n of `bufs`; no other buffer changes. */
    method PassBuffer(ghost bufs: seq<SddsPacket>, ghost n: nat, pkt: SddsPacket, clockYear: int)
      returns (consumed: bool)
      requires n < |bufs| && bufs[n] == pkt && Separate(bufs)
      requires UsableBps(bps) && Usable(pkt.Contents())
      modifies this, pkt.d
      ensures UsableBps(bps)
      ensures var p := old(pkt.Contents());
              var o := Offer(old(State()), p, clockYear);
              && State() == o.s && consumed == o.consumed
              && ContentsOf(bufs) == old(ContentsOf(bufs))[n := Packet(p.h, o.d)]
    {
      hide Offer, Usable, SddsPacket.GetHeader, SddsToBulkIOProcessor.State;
      consumed := Pass(pkt.GetHeader(), pkt.d, clockYear);
    }

    /** The loop of `processPackets` over the buffers `was`, with the payloads ds delivered so far. */
    ghost predicate InLoop(work: Deque<SddsPacket>, was: seq<SddsPacket>, ps: seq<Packet>, years: seq<int>,
                           ds: seq<seq<byte>>, r: Processed)
      reads this, work, was, PayloadArrays(was)
    {
      && Separate(was) && |ds| <= |was| && |was| == |ps| == |years|
      && work.items == was[|ds|..]
      && ContentsOf(was) == Rewritten(ps, ds)
      && Underway(r, State(), ps, years, ds)
    }

    /** One pass over the front of the work queue, which moves to the recycle queue if it is consumed. */
    method PassFront(work: Deque<SddsPacket>, recycle: Deque<SddsPacket>, clockYear: int,
                     ghost was: seq<SddsPacket>, ghost ps: seq<Packet>, ghost years: seq<int>,
                     ghost ds: seq<seq<byte>>, ghost r: Processed)
      returns (consumed: bool, ghost d: seq<byte>)
      requires work != recycle && work.items != [] && InLoop(work, was, ps, years, ds, r)
      requires clockYear == years[|ds|]
      modifies this, work, recycle, work.items[0].d
      ensures consumed ==>
                && InLoop(work, was, ps, years, ds + [d], r)
                && |ds + [d]| <= |was| && work.items == was[|ds + [d]|..]
                && recycle.items == old(recycle.items) + [was[|ds|]]
      ensures !consumed ==>
                && r == Processed(State(), ds) && ContentsOf(was) == Rewritten(ps, ds)
                && (work.items, recycle.items) == old((work.items, recycle.items))
    {
      hide Offer, Usable, AllUsable, Underway, Rewritten, PayloadArrays;
      hide SddsPacket.Contents, SddsToBulkIOProcessor.State;
      var pkt := work.items[0];
      ghost var n := |ds|;
      assert pkt == was[n];
      assert pkt.Contents() == ContentsOf(was)[n] == ps[n];
      ghost var o := UnderwayNext(r, State(), ps, years, ds);
      d := o.d;
      RewrittenNext(ps, ds, d);
      consumed := PassBuffer(was, n, pkt, clockYear);
      if consumed {
        recycle.items := recycle.items + [pkt];
        work.items := work.items[1..];
      }
    }

    /**
      `processPackets`: packets move from the work queue to the recycle queue until one is held
      back or none is left. The payloads of those that moved are left as delivered, the others
      untouched.
     */
    method ProcessPackets(work: Deque<SddsPacket>, recycle: Deque<SddsPacket>, years: seq<int>)
      returns (ghost r: Processed)
      requires UsableBps(bps) && work != recycle && |years| == |work.items|
      requires Separate(work.items) && AllUsable(ContentsOf(work.items))
      modifies this, work, recycle, PayloadArrays(work.items)
      ensures r == Process(old(State()), old(ContentsOf(work.items)), years) && State() == r.s
      ensures |r.ds| <= |old(work.items)| && work.items == old(work.items)[|r.ds|..]
      ensures recycle.items == old(recycle.items) + old(work.items)[..|r.ds|]
      ensures ContentsOf(old(work.items)) == Rewritten(old(ContentsOf(work.items)), r.ds)
    {
      hide Process, AllUsable, UsableBps, Underway, Rewritten, Separate, PayloadArrays;
      hide Offer, Usable, SddsPacket.Contents, SddsPacket.GetHeader;
      hide SddsToBulkIOProcessor.State, SddsToBulkIOProcessor.InLoop, ContentsOf;
      ghost var was, ps := work.items, ContentsOf(work.items);
      ghost var ds: seq<seq<byte>> := [];
      r := LoopBegin(work, ps, years);
      ArraysInside(was, was);
      while work.items != []
        invariant InLoop(work, was, ps, years, ds, r)
        invariant |ds| <= |was| && work.items == was[|ds|..]
        invariant recycle.items == old(recycle.items) + was[..|ds|]
        decreases |work.items|
      {
        var consumed;
        ghost var d;
        consumed, d := PassFront(work, recycle, years[|years| - |work.items|], was, ps, years, ds, r);
        if !consumed {
          return;
        }
        ds := ds + [d];
      }
      LoopEnd(work, was, ps, years, ds, r);
    }

    lemma LoopBegin(work: Deque<SddsPacket>, ps: seq<Packet>, years: seq<int>) returns (r: Processed)
      requires UsableBps(bps) && |years| == |work.items|
      requires ps == ContentsOf(work.items) && Separate(work.items) && AllUsable(ps)
      ensures r == Process(State(), ps, years) && InLoop(work, work.items, ps, years, [], r)
    {
      hide Process, AllUsable, Underway, SddsToBulkIOProcessor.State;
      r := Process(State(), ps, years);
      UnderwayBegin(State(), ps, years);
    }

    lemma LoopEnd(work: Deque<SddsPacket>, was: seq<SddsPacket>, ps: seq<Packet>, years: seq<int>,
                  ds: seq<seq<byte>>, r: Processed)
      requires InLoop(work, was, ps, years, ds, r) && work.items == []
      ensures r == Processed(State(), ds) && |ds| == |was| == |ps| && ContentsOf(was) == Rewritten(ps, ds)
    {
      hide Underway, Rewritten, SddsToBulkIOProcessor.State;
      UnderwayEnd(r, State(), ps, years, ds);
    }

    /** What the processor holds, and what is left in the pool, once it has filled its work queue. */
    ghost function Fill(pool: SmartPacketBuffer<SddsPacket>, work: Deque<SddsPacket>): Exchange<SddsPacket>
      reads this, pool, work
      requires pool.FullAvailable(Request(work.items, pktsPerRead))
    {
      if pool.shuttingDown then Exchange(pool.fulls, work.items)
      else TakeFull(pool.fulls, work.items, pktsPerRead)
    }

    /** The buffers a round works on: none while it has to wait. */
    ghost function Batch(pool: SmartPacketBuffer<SddsPacket>, work: Deque<SddsPacket>): seq<SddsPacket>
      reads this, pool, work
    {
      if pool.FullAvailable(Request(work.items, pktsPerRead)) then Fill(pool, work).que else []
    }

    /**
      The body of the loop in `run`, once the processor itself is not shutting down: fill the work
      queue, process it, recycle what was consumed. Nothing happens while too few full buffers
      are there to fill the queue. What was held back stays at the front of the work queue.
     */
    method RunPass(pool: SmartPacketBuffer<SddsPacket>, work: Deque<SddsPacket>, recycle: Deque<SddsPacket>,
                   years: seq<int>)
      returns (blocks: bool, ghost r: Processed)
      requires UsableBps(bps) && work != recycle
      requires pool.FullAvailable(Request(work.items, pktsPerRead)) ==>
                 var que := Fill(pool, work).que;
                 Separate(que) && AllUsable(ContentsOf(que)) && |years| == |que|
      modifies this, pool, work, recycle, PayloadArrays(Batch(pool, work))
      ensures blocks <==> !old(pool.FullAvailable(Request(work.items, pktsPerRead)))
      ensures blocks ==>
                && State() == old(State())
                && (pool.empties, pool.fulls) == old((pool.empties, pool.fulls))
                && (work.items, recycle.items) == old((work.items, recycle.items))
      ensures !blocks ==>
                var taken := old(Fill(pool, work));
                && r == Process(old(State()), old(ContentsOf(Fill(pool, work).que)), years)
                && State() == r.s
                && ContentsOf(taken.que) == Rewritten(old(ContentsOf(Fill(pool, work).que)), r.ds)
                && pool.fulls == taken.pool && work.items == taken.que[|r.ds|..] && recycle.items == []
                && (!old(pool.shuttingDown) ==>
                      pool.empties == old(pool.empties) + (old(recycle.items) + taken.que[..|r.ds|]))
    {
      hide Offer, Process, Usable, AllUsable, Rewritten, Separate, SddsPacket.GetHeader;
      hide SddsPacket.Contents, SddsToBulkIOProcessor.State;
      hide PayloadArrays, TakeFull;
      ghost var s := State();
      r := Processed(s, []);
      blocks := FillWork(pool, work);
      if !blocks {
        r := Digest(pool, work, recycle, years);
      }
    }

    /** The fill: no buffer's contents and nothing of the processor's own changes. */
    method FillWork(pool: SmartPacketBuffer<SddsPacket>, work: Deque<SddsPacket>) returns (blocks: bool)
      modifies pool, work
      ensures pool.shuttingDown == old(pool.shuttingDown) && pool.empties == old(pool.empties)
      ensures blocks <==> !old(pool.FullAvailable(Request(work.items, pktsPerRead)))
      ensures blocks ==> pool.fulls == old(pool.fulls) && work.items == old(work.items)
      ensures !blocks ==>
                && Exchange(pool.fulls, work.items) == old(Fill(pool, work)) && work.items == old(Batch(pool, work))
                && ContentsOf(work.items) == old(ContentsOf(Fill(pool, work).que))
      ensures State() == old(State())
    {
      hide SddsPacket.Contents, SddsToBulkIOProcessor.State;
      blocks := pool.PopFullBuffers(work, pktsPerRead);
    }

    /** The work queue is processed, and what was consumed goes back to the pool. */
    method Digest(pool: SmartPacketBuffer<SddsPacket>, work: Deque<SddsPacket>, recycle: Deque<SddsPacket>,
                  years: seq<int>)
      returns (ghost r: Processed)
      requires UsableBps(bps) && work != recycle && |years| == |work.items|
      requires Separate(work.items) && AllUsable(ContentsOf(work.items))
      modifies this, pool, work, recycle, PayloadArrays(work.items)
      ensures r == Process(old(State()), old(ContentsOf(work.items)), years) && State() == r.s
      ensures |r.ds| <= |old(work.items)| && work.items == old(work.items)[|r.ds|..] && recycle.items == []
      ensures ContentsOf(old(work.items)) == Rewritten(old(ContentsOf(work.items)), r.ds)
      ensures pool.fulls == old(pool.fulls)
      ensures pool.empties ==
                if old(pool.shuttingDown) then old(pool.empties)
                else old(pool.empties) + (old(recycle.items) + old(work.items)[..|r.ds|])
    {
      hide Offer, Process, Usable, AllUsable, UsableBps, Rewritten, Separate, SddsPacket.GetHeader, PayloadArrays;
      hide SddsPacket.Contents, SddsToBulkIOProcessor.State, Recycle;
      ghost var was := work.items;
      PoolIsNoPayload(was, pool);
      r := ProcessPackets(work, recycle, years);
      assert pool.shuttingDown == old(pool.shuttingDown) && pool.empties == old(pool.empties);
      RecycleIs(pool.empties, recycle.items);
      pool.RecycleBuffers(recycle);
    }

    /** The end of `run`: the streams are closed, all buffers go back, the flags are reset. */
    method FinishRun(pool: SmartPacketBuffer<SddsPacket>, work: Deque<SddsPacket>, recycle: Deque<SddsPacket>)
      requires work != recycle
      modifies this, pool, work, recycle
      ensures State() == Stop(old(State())) && !running
      ensures work.items == [] && recycle.items == [] && pool.fulls == old(pool.fulls)
      ensures pool.empties ==
                if old(pool.shuttingDown) then old(pool.empties)
                else old(pool.empties) + old(work.items) + old(recycle.items)
    {
      hide CloseStreams;
      CloseOutputs();
      pool.RecycleBuffers(work);
      pool.RecycleBuffers(recycle);
      running, firstPacket, nonConformingDevice := false, true, false;
    }
  }

  /** With the payloads ds so far and s the state, is r what processing all of ps comes to? */
  ghost predicate Underway(r: Processed, s: Proc, ps: seq<Packet>, years: seq<int>, ds: seq<seq<byte>>) {
    && UsableBps(s.trk.bps) && AllUsable(ps) && |ds| <= |ps| == |years|
    && var rest := Process(s, ps[|ds|..], years[|ds|..]);
       r == Processed(rest.s, ds + rest.ds)
  }

  lemma UnderwayBegin(s: Proc, ps: seq<Packet>, years: seq<int>)
    requires UsableBps(s.trk.bps) && AllUsable(ps) && |ps| == |years|
    ensures Underway(Process(s, ps, years), s, ps, years, [])
  {
    hide Process;
    assert ps[0..] == ps && years[0..] == years;
  }

  lemma UnderwayEnd(r: Processed, s: Proc, ps: seq<Packet>, years: seq<int>, ds: seq<seq<byte>>)
    requires Underway(r, s, ps, years, ds) && |ds| == |ps|
    ensures r == Processed(s, ds)
  {
    assert ps[|ds|..] == [];
  }

  lemma UnderwayNext(r: Processed, s: Proc, ps: seq<Packet>, years: seq<int>, ds: seq<seq<byte>>) returns (o: Offered)
    requires Underway(r, s, ps, years, ds) && |ds| < |ps|
    ensures UsableBps(s.trk.bps) && |ps| == |years| && Usable(ps[|ds|])
    ensures o == Offer(s, ps[|ds|], years[|ds|])
    ensures if o.consumed then Underway(r, o.s, ps, years, ds + [o.d])
            else r == Processed(o.s, ds) && o.d == ps[|ds|].d
  {
    hide Offer;
    var n := |ds|;
    o := Offer(s, ps[n], years[n]);
    assert ps[n..][1..] == ps[n + 1..] && years[n..][1..] == years[n + 1..];
  }
}
