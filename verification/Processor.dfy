/**
  The SDDS to BulkIO processor as a state machine on values: what one pass of its loop does with
  the packet at the front of the work queue. The class in ProcessorObject.dfy is proved against
  these functions, and the properties of whole runs are proved about them.
 */
module Processor {

  import opened ByteOrder
  import opened SddsTimes
  import opened SddsPackets
  import opened SequenceCounter
  import opened SlipDetector
  import opened TimeStamps

  datatype Option<+T> = None | Some(value: T)

  /** The sample period in the SRI. The reciprocal of a zero header rate is infinite. */
  datatype Xdelta = Finite(v: real) | Infinite

  /**
    The stream SRI. `meta` stands for the other fields and the keyword values, which are compared
    and copied, and `extra` for `yunits`, `blocking`, `subsize` and the keyword names, which are
    copied but not compared.
   */
  datatype Sri = Sri(streamId: string, xdelta: Xdelta, mode: int, meta: int, extra: int)

  /**
    An upstream SRI with what its keywords ask for: priority over the header, and a byte order.
    A byte order is stored as text, whatever its type was, so `meta` is stored as `asStored`.
   */
  datatype Upstream = Upstream(sri: Sri, asStored: int, priority: bool, order: Option<Endian>)

  /**
    A payload handed to an output stream: the bytes, the byte order declared for them, and whether
    the device was known to be non-conforming when the packet came, before its own slip check.
   */
  datatype Written = Written(
    h: Header, stamp: Stamp, bps: nat, order: Endian, nonConforming: bool, data: seq<byte>)

  datatype Event = Open(sri: Sri) | Close | Flush | PushSri(bps: nat, pushed: Sri) | Write(w: Written)

  /** The two options on the time-tag-valid flag; they cannot change while the thread runs. */
  datatype Options = Options(waitForTtv: bool, pushOnTtv: bool)

  /** What is set before the thread starts: the options, the start of the year and the byte order. */
  datatype Setup = Setup(opt: Options, year: int, order: Endian)

  /** What is expected of the next packet. */
  datatype Tracker = Tracker(first: bool, ttvFlag: bool, expected: u16, dropped: u64, bps: nat)

  /** The upstream SRI and what has been taken from it. */
  datatype Control = Control(given: Upstream, isSet: bool, isNew: bool, use: bool, endian: Endian)

  /** The three output streams, created and closed together, and everything that happened on them. */
  datatype Output = Output(streams: bool, log: seq<Event>)

  datatype Proc = Proc(
    opt: Options, trk: Tracker, sri: Sri, ctl: Control, det: Detector, startOfYear: int, out: Output)

  const DEFAULT_STREAM_ID := "DEFAULT_SDDS_STREAM_ID"

  const INITIAL_SRI := Sri(DEFAULT_STREAM_ID, Finite(-1.0), -1, 0, 0)

  /** The constructor's state, with what is set before the thread starts. */
  function Fresh(setup: Setup): Proc {
    Proc(setup.opt, Tracker(true, false, 0, 0, 0), INITIAL_SRI,
         Control(Upstream(INITIAL_SRI, 0, false, None), false, false, false, setup.order),
         Detector(ZERO, 0.0, Steps(0.0, 0.0, 0.0), 0.0, 0, false), setup.year, Output(false, []))
  }

  /** A packet on which the step can be computed: the source divides by `bps / 8`. */
  ghost predicate Usable(p: Packet) {
    WellFormed(p) && UsableBps(BitsPerSample(p.h))
  }

  ghost predicate AllUsable(ps: seq<Packet>) {
    forall i :: 0 <= i < |ps| ==> Usable(ps[i])
  }

  predicate StandardBps(bps: nat) {
    bps == 8 || bps == 16 || bps == 32
  }

  /** Packets of the three widths there are streams for: their headers say 8, 16 or 31. */
  ghost predicate AllStandard(ps: seq<Packet>) {
    AllUsable(ps) && forall i :: 0 <= i < |ps| ==> ps[i].h.bps in {8, 16, 31}
  }

  /** Is this the one of the three widths that the field of the header stands for? */
  predicate StandsFor(field: nat, bps: nat) {
    StandardBps(bps) && field <= bps < field + 8
  }

  lemma FieldGivesWidth(h: Header)
    requires h.bps in {8, 16, 31}
    ensures StandsFor(h.bps, BitsPerSample(h))
  {
  }

  lemma StandardIsUsable(ps: seq<Packet>)
    requires AllStandard(ps)
    ensures AllUsable(ps)
  {
  }

  /** Packets of one width. */
  ghost predicate OfWidth(ps: seq<Packet>, bps: nat) {
    AllUsable(ps) && forall i :: 0 <= i < |ps| ==> BitsPerSample(ps[i].h) == bps
  }

  function Emit(o: Output, e: Event): Output {
    o.(log := o.log + [e])
  }

  /** The three streams are flushed if they exist. */
  function FlushStreams(o: Output): Output {
    if o.streams then Emit(o, Flush) else o
  }

  /** They are closed if they exist. */
  function CloseStreams(o: Output): Output {
    if o.streams then Emit(o, Close).(streams := false) else o
  }

  /** `createOutputStreams`. */
  function CreateStreams(o: Output, sri: Sri): Output {
    Emit(CloseStreams(o), Open(sri)).(streams := true)
  }

  /** `pushSri`. */
  function PushTheSri(o: Output, bps: nat, sri: Sri): Output {
    if StandardBps(bps) then Emit(o, PushSri(bps, sri)) else o
  }

  /** The rate the next step is expected at: twice the header's for a non-conforming device. */
  function ExpectedRate(nonConforming: bool, h: Header): real {
    if nonConforming then Rate(h) * 2.0 else Rate(h)
  }

  /** `updateExpectedXdelta` with a header's rate. */
  function ExpectHeader(d: Detector, bps: nat, h: Header): Detector
    requires UsableBps(bps)
  {
    UpdateXdelta(d.(last := ZERO), ExpectedRate(d.nonConforming, h), bps, h.cx)
  }

  /** The device once found non-conforming stays so. */
  lemma KeepsDevice(d: Detector, bps: nat, h: Header)
    requires UsableBps(bps)
    ensures ExpectHeader(d, bps, h).nonConforming == d.nonConforming
    ensures d.nonConforming ==> Check(d, bps, h).nonConforming
  {
    hide StepsFor;
  }

  datatype Ordered = Ordered(trk: Tracker, det: Detector, valid: bool)

  /** `orderIsValid`. The first packet of a sequence sets what is expected. */
  function CheckOrder(t: Tracker, d: Detector, h: Header): Ordered
    requires UsableBps(BitsPerSample(h))
  {
    if t.first then
      var bps := BitsPerSample(h);
      Ordered(Tracker(false, h.ttv, h.seqNo, t.dropped, bps), ExpectHeader(d, bps, h), true)
    else if t.expected != h.seqNo then
      var dropped := (t.dropped + DropsReported(t.expected, h.seqNo)) % 0x1_0000_0000_0000_0000;
      Ordered(t.(first := true, dropped := dropped), d, false)
    else
      Ordered(t, d, true)
  }

  /** `round`: halves go away from zero. */
  function Round(x: real): int {
    if x >= 0.0 then (x + 0.5).Floor else -((0.5 - x).Floor)
  }

  /** `floatingPointCompare(a, b, 7) == 0`. Infinity differs even from itself: the difference is not a number. */
  predicate SameXdelta(a: Xdelta, b: Xdelta) {
    a.Finite? && b.Finite? && Round((a.v - b.v) * 10_000_000.0) == 0
  }

  /** The sample period a header announces. */
  function HeaderXdelta(h: Header, nonConforming: bool): Xdelta {
    if Rate(h) == 0.0 then Infinite
    else if nonConforming then Finite(1.0 / Rate(h) * 0.5)
    else Finite(1.0 / Rate(h))
  }

  function HeaderMode(h: Header): int {
    if h.cx then 1 else 0
  }

  /** Does the SRI already say what the header does? */
  predicate HeaderAgrees(h: Header, sri: Sri, nonConforming: bool) {
    SameXdelta(HeaderXdelta(h, nonConforming), sri.xdelta) && HeaderMode(h) == sri.mode
  }

  /** `mergeSddsSRI`; it reports a change unless HeaderAgrees. */
  function MergeHeader(h: Header, sri: Sri, nonConforming: bool): Sri {
    var x := HeaderXdelta(h, nonConforming);
    sri.(xdelta := if SameXdelta(x, sri.xdelta) then sri.xdelta else x, mode := HeaderMode(h))
  }

  /** `compareSRI`. */
  predicate SameSri(a: Sri, b: Sri) {
    a.meta == b.meta && a.streamId == b.streamId
  }

  /** Is an upstream SRI waiting whose merging will change the current one? */
  predicate PendingChange(sri: Sri, c: Control) {
    c.isSet && c.isNew && !SameSri(sri, c.given.sri)
  }

  /** Does the upstream SRI decide the sample period once a waiting one has been merged? */
  predicate UpstreamDecides(sri: Sri, c: Control) {
    c.use || (PendingChange(sri, c) && c.given.priority)
  }

  datatype Merged = Merged(sri: Sri, ctl: Control, out: Output, changed: bool)

  /** The section under the upstream SRI lock, `mergeUpstreamSRI` included. */
  function TakeUpstream(sri: Sri, c: Control, o: Output): Merged {
    var taken := if c.isSet then c.(isNew := false) else c;
    if !PendingChange(sri, c) then Merged(sri, taken, o, false)
    else
      var use := UpstreamDecides(sri, c);
      var u := c.given.sri;
      var merged := Sri(u.streamId, if use then u.xdelta else sri.xdelta, if use then u.mode else sri.mode,
                        c.given.asStored, u.extra);
      var order := if c.given.order.Some? then c.given.order.value else c.endian;
      Merged(merged, taken.(use := use, endian := order),
             if sri.streamId != u.streamId then CreateStreams(o, merged) else o, true)
  }

  /** Both SRI merges and the creation of missing streams. */
  function UpdateSri(sri: Sri, c: Control, o: Output, h: Header, nonConforming: bool): Merged {
    var m := TakeUpstream(sri, c, o);
    var merged := if m.ctl.use then m.sri else MergeHeader(h, m.sri, nonConforming);
    var changed := m.changed || !(m.ctl.use || HeaderAgrees(h, m.sri, nonConforming));
    Merged(merged, m.ctl, if m.out.streams then m.out else CreateStreams(m.out, merged), changed)
  }

  /** Does a payload have to be swapped for the host? */
  predicate NeedsSwap(order: Endian, bps: nat) {
    order.Big? && (bps == 16 || bps == 32)
  }

  /** The payload bytes as they stand in the buffer once the packet has been delivered. */
  function Delivered(order: Endian, bps: nat, d: seq<byte>): (r: seq<byte>)
    requires |d| == PAYLOAD
    ensures |r| == PAYLOAD
  {
    if NeedsSwap(order, bps) then Swapped(bps / 8, d) else d
  }

  /** The write of a packet, on the stream its width selects. */
  function WritePacket(o: Output, bps: nat, order: Endian, stamp: Stamp, nonConforming: bool, p: Packet): Output
    requires |p.d| == PAYLOAD
  {
    if StandardBps(bps) then
      Emit(o, Write(Written(p.h, stamp, bps, order, nonConforming, Delivered(order, bps, p.d))))
    else o
  }

  /** Time stamp, slip check and write of a packet that is in order. */
  function Deliver(s: Proc, p: Packet, clockYear: int): Proc
    requires UsableBps(s.trk.bps) && |p.d| == PAYLOAD
  {
    var (stamp, year) := StampOf(p.h.time, p.h.ttv, s.det.last, s.startOfYear, clockYear);
    s.(startOfYear := year,
       det := Check(s.det, s.trk.bps, p.h),
       out := WritePacket(s.out, s.trk.bps, s.ctl.endian, stamp, s.det.nonConforming, p),
       trk := s.trk.(expected := Successor(s.trk.expected)))
  }

  /** What one loop pass makes of the front packet, and the payload it leaves in the buffer. */
  datatype Offered = Offered(s: Proc, consumed: bool, d: seq<byte>)

  predicate Skips(opt: Options, h: Header) {
    opt.waitForTtv && !h.ttv
  }

  /** The part of the pass that follows the order and time-tag tests. */
  function OfferOrdered(s: Proc, p: Packet, clockYear: int): (r: Offered)
    requires UsableBps(s.trk.bps) && Usable(p)
    ensures UsableBps(r.s.trk.bps) && |r.d| == PAYLOAD && r.s.opt == s.opt
    ensures !r.consumed ==> r.d == p.d
  {
    var m := UpdateSri(s.sri, s.ctl, s.out, p.h, s.det.nonConforming);
    var s1 := s.(sri := m.sri, ctl := m.ctl, out := m.out);
    if m.changed then
      Offered(s1.(out := PushTheSri(m.out, s.trk.bps, m.sri), det := ExpectHeader(s.det, s.trk.bps, p.h)), false, p.d)
    else
      Offered(Deliver(s1, p, clockYear), true, Delivered(m.ctl.endian, s.trk.bps, p.d))
  }

  /** One pass of the loop in `processPackets`. */
  function Offer(s: Proc, p: Packet, clockYear: int): (r: Offered)
    requires UsableBps(s.trk.bps) && Usable(p)
    ensures UsableBps(r.s.trk.bps) && |r.d| == PAYLOAD && r.s.opt == s.opt
    ensures !r.consumed ==> r.d == p.d
  {
    if Skips(s.opt, p.h) then Offered(s.(out := FlushStreams(s.out)), true, p.d)
    else
      var o := CheckOrder(s.trk, s.det, p.h);
      var s1 := s.(trk := o.trk, det := o.det);
      if !o.valid then Offered(s1.(out := FlushStreams(s.out)), false, p.d)
      else if s.opt.pushOnTtv && o.trk.ttvFlag != p.h.ttv then
        Offered(s1.(trk := o.trk.(ttvFlag := p.h.ttv), out := FlushStreams(s.out)), false, p.d)
      else OfferOrdered(s1, p, clockYear)
  }

  /** How a pass moves the tracker and the slip detector, whatever the SRI does. */
  lemma OfferMoves(s: Proc, p: Packet, clockYear: int)
    requires UsableBps(s.trk.bps) && Usable(p)
    ensures var r := Offer(s, p, clockYear);
            var o := CheckOrder(s.trk, s.det, p.h);
            if Skips(s.opt, p.h) then r.consumed && r.s.trk == s.trk && r.s.det == s.det
            else if !o.valid then !r.consumed && r.s.trk == o.trk && r.s.det == o.det
            else if s.opt.pushOnTtv && o.trk.ttvFlag != p.h.ttv then
              !r.consumed && r.s.trk == o.trk.(ttvFlag := p.h.ttv) && r.s.det == o.det
            else if r.consumed then
              && r.s.trk == o.trk.(expected := Successor(o.trk.expected))
              && r.s.det == Check(o.det, o.trk.bps, p.h)
            else r.s.trk == o.trk && r.s.det == ExpectHeader(o.det, o.trk.bps, p.h)
  {
    hide UpdateSri, Check, ExpectHeader, StampOf, WritePacket, PushTheSri, FlushStreams, Delivered;
  }

  /** `setUpstreamSri` and `unsetUpstreamSri`, called from other threads. */
  datatype UpstreamEvent = SetUpstream(u: Upstream) | UnsetUpstream

  function Apply(s: Proc, e: UpstreamEvent): Proc {
    match e
    case SetUpstream(u) => s.(ctl := s.ctl.(given := u, isSet := true, isNew := true))
    case UnsetUpstream =>
      s.(ctl := s.ctl.(use := false, isSet := false, endian := Big), sri := s.sri.(streamId := DEFAULT_STREAM_ID))
  }

  /** The end of `run`: the streams are closed and the flags reset for the next run. */
  function Stop(s: Proc): Proc {
    s.(out := CloseStreams(s.out), trk := s.trk.(first := true), det := s.det.(nonConforming := false))
  }

  /** What `processPackets` returns with: the state, how many packets it consumed, and their payloads. */
  datatype Processed = Processed(s: Proc, ds: seq<seq<byte>>)

  /** `processPackets`: offers packets until one is held back or none is left. */
  function Process(s: Proc, ps: seq<Packet>, years: seq<int>): (r: Processed)
    requires UsableBps(s.trk.bps) && |years| == |ps|
    requires AllUsable(ps)
    ensures UsableBps(r.s.trk.bps) && |r.ds| <= |ps|
    ensures forall i :: 0 <= i < |r.ds| ==> |r.ds[i]| == PAYLOAD
    decreases |ps|
  {
    if ps == [] then Processed(s, [])
    else
      var o := Offer(s, ps[0], years[0]);
      if !o.consumed then Processed(o.s, [])
      else
        var rest := Process(o.s, ps[1..], years[1..]);
        Processed(rest.s, [o.d] + rest.ds)
  }

  /** Packets of which the first ones have got new payloads. */
  ghost function Rewritten(ps: seq<Packet>, ds: seq<seq<byte>>): (r: seq<Packet>)
    requires |ds| <= |ps|
    ensures |r| == |ps|
    ensures forall i :: 0 <= i < |ps| ==> r[i] == if i < |ds| then Packet(ps[i].h, ds[i]) else ps[i]
  {
    seq(|ps|, i requires 0 <= i < |ps| => if i < |ds| then Packet(ps[i].h, ds[i]) else ps[i])
  }

  /** Something that can happen while a stream of packets is being processed. */
  datatype Act = Pass(clockYear: int) | Upcall(e: UpstreamEvent)

  /** The processor and the number of packets of the stream it has consumed. */
  datatype Position = Position(s: Proc, k: nat)

  /** A position in a stream of usable packets. */
  ghost predicate Ready(at: Position, ps: seq<Packet>) {
    UsableBps(at.s.trk.bps) && at.k <= |ps| && AllUsable(ps)
  }

  /** One act with the stream `ps`; a pass with no packet left does nothing. */
  function Next(at: Position, ps: seq<Packet>, a: Act): (r: Position)
    requires Ready(at, ps)
    ensures Ready(r, ps) && r.s.opt == at.s.opt
  {
    match a
    case Upcall(e) => Position(Apply(at.s, e), at.k)
    case Pass(year) =>
      if at.k == |ps| then at
      else
        var o := Offer(at.s, ps[at.k], year);
        Position(o.s, if o.consumed then at.k + 1 else at.k)
  }

  /** A run over the stream. */
  function Run(at: Position, ps: seq<Packet>, acts: seq<Act>): (r: Position)
    requires Ready(at, ps)
    ensures Ready(r, ps) && r.s.opt == at.s.opt
    decreases |acts|
  {
    if acts == [] then at else Run(Next(at, ps, acts[0]), ps, acts[1..])
  }

  function Passes(years: seq<int>): (acts: seq<Act>)
    ensures |acts| == |years|
  {
    if years == [] then [] else [Pass(years[0])] + Passes(years[1..])
  }

  /** Passes made by a call on m packets that consumes n: one more if a packet was held back. */
  function PassesMade(n: nat, m: nat): (passes: nat)
    requires n <= m
    ensures passes <= m
  {
    if n < m then n + 1 else m
  }

  /** Is the work queue the part of the stream that comes next? */
  ghost predicate IsNext(at: Position, ps: seq<Packet>, work: seq<Packet>) {
    && at.k + |work| <= |ps|
    && forall i :: 0 <= i < |work| ==> work[i] == ps[at.k + i]
  }

  /**
    However the stream is cut into work queues, `processPackets` makes the same passes over it:
    a call on the next packets is a run of passes that consumes what the call consumes.
   */
  lemma {:induction false} ProcessIsRun(at: Position, ps: seq<Packet>, work: seq<Packet>, years: seq<int>)
    requires Ready(at, ps) && IsNext(at, ps, work) && |years| == |work| && AllUsable(work)
    ensures var r := Process(at.s, work, years);
            Run(at, ps, Passes(years[..PassesMade(|r.ds|, |work|)])) == Position(r.s, at.k + |r.ds|)
    decreases |work|
  {
    hide Offer, Next;
    if work != [] {
      hide Process;
      ProcessHead(at, ps, work, years);
      var next := Next(at, ps, Pass(years[0]));
      var r := Process(at.s, work, years);
      if next.k == at.k {
        FirstPass(at, ps, years, 0);
      } else {
        ProcessIsRun(next, ps, work[1..], years[1..]);
        FirstPass(at, ps, years, PassesMade(|r.ds| - 1, |work| - 1));
      }
    }
  }

  lemma FirstPass(at: Position, ps: seq<Packet>, years: seq<int>, n: nat)
    requires Ready(at, ps) && n < |years|
    ensures Run(at, ps, Passes(years[..n + 1])) == Run(Next(at, ps, Pass(years[0])), ps, Passes(years[1..][..n]))
  {
    hide Offer, Next;
    assert years[..n + 1][1..] == years[1..][..n];
  }

  /** A call makes one pass and, if that consumed its packet, goes on with the rest. */
  lemma ProcessHead(at: Position, ps: seq<Packet>, work: seq<Packet>, years: seq<int>)
    requires Ready(at, ps) && IsNext(at, ps, work) && |years| == |work| && AllUsable(work) && work != []
    ensures var r := Process(at.s, work, years);
            var next := Next(at, ps, Pass(years[0]));
            if next.k == at.k then r == Processed(next.s, [])
            else
              && next.k == at.k + 1
              && IsNext(next, ps, work[1..])
              && var rest := Process(next.s, work[1..], years[1..]);
                 r.s == rest.s && |r.ds| == 1 + |rest.ds|
  {
    hide Offer;
    assert work[0] == ps[at.k];
  }
}
