/**
  What an upstream SRI does to the data: from when it is taken to the next event everything goes
  out under it, and once it is unset the headers decide again.
 */
module UpstreamSris {

  import opened ByteOrder
  import opened SddsPackets
  import opened SlipDetector
  import opened TimeStamps
  import opened Processor
  import opened Announcements
  import Livelock

  // ---- What is due ------------------------------------------------------------------------------

  /** Is an upstream SRI waiting that differs from the current one in what is compared? */
  predicate Awaits(s: Proc) {
    var u := s.ctl.given.sri;
    s.ctl.isSet && s.ctl.isNew && (u.meta != s.sri.meta || u.streamId != s.sri.streamId)
  }

  /** Will upstream decide the sample period and the mode? */
  predicate Rules(s: Proc) {
    s.ctl.use || (Awaits(s) && s.ctl.given.priority)
  }

  /** The SRI that is going to count, but for period and mode unless upstream decides those. */
  function Due(s: Proc): Sri {
    if Awaits(s) then s.ctl.given.sri.(meta := s.ctl.given.asStored) else s.sri
  }

  function OrderDue(s: Proc): Endian {
    if Awaits(s) && s.ctl.given.order.Some? then s.ctl.given.order.value else s.ctl.endian
  }

  /** Does this SRI carry what is due? */
  predicate Carries(s: Proc, x: Sri) {
    && x.meta == Due(s).meta && x.extra == Due(s).extra
    && (Rules(s) ==> x.xdelta == Due(s).xdelta && x.mode == Due(s).mode)
  }

  /**
    Is this announced SRI what is due after `s`? A stream keeps its identifier until it is opened or
    its SRI is pushed, even if the current one has been reset.
   */
  predicate Announces(s: Proc, x: Sri) {
    && Carries(s, x)
    && (x.streamId == Due(s).streamId || (!Awaits(s) && Latest(s.out.log) == Some(x)))
  }

  /** May a payload go out like this after `s`, with x announced? */
  predicate GoesUnder(s: Proc, x: Sri, w: Written) {
    && Announces(s, x) && w.order == OrderDue(s)
    && (!Rules(s) ==> HeaderAgrees(w.h, x, w.nonConforming))
  }

  function Going(s: Proc): (Sri, Written) -> bool {
    (x, w) => GoesUnder(s, x, w)
  }

  // ---- Events from some point of the log on -----------------------------------------------------

  /** Every payload written from event n on goes out under an announced SRI in the way asked for. */
  ghost predicate WritesUnder(log: seq<Event>, n: nat, q: (Sri, Written) -> bool) {
    forall i :: n <= i < |log| && log[i].Write? ==>
      Latest(log[..i]).Some? && q(Latest(log[..i]).value, log[i].w)
  }

  lemma AppendUnder(log: seq<Event>, n: nat, q: (Sri, Written) -> bool, e: Event)
    requires WritesUnder(log, n, q)
    requires e.Write? ==> Latest(log).Some? && q(Latest(log).value, e.w)
    ensures WritesUnder(log + [e], n, q)
    ensures Latest(log + [e]) == if e.Open? then Some(e.sri) else if e.PushSri? then Some(e.pushed) else Latest(log)
  {
    var after := log + [e];
    assert after[..|log|] == log;
    forall i | n <= i < |after| && after[i].Write?
      ensures Latest(after[..i]).Some? && q(Latest(after[..i]).value, after[i].w)
    {
      assert after[..i] == if i < |log| then log[..i] else log;
    }
  }

  /** Nothing but flushes from event n up to event j. */
  ghost predicate Flushes(log: seq<Event>, n: nat, j: nat) {
    forall i :: n <= i < j && i < |log| ==> log[i].Flush?
  }

  /** No stream opened or closed from event n on. */
  ghost predicate StaysOpen(log: seq<Event>, n: nat) {
    forall i :: n <= i < |log| ==> !log[i].Open? && !log[i].Close?
  }

  /** The streams were opened by event j, closed just before that if they were open, and stayed so. */
  ghost predicate OpensAt(log: seq<Event>, n: nat, open: bool, j: nat) {
    && n <= j < |log| && log[j].Open? && StaysOpen(log, j + 1)
    && if open then n < j && log[j - 1].Close? && Flushes(log, n, j - 1) else Flushes(log, n, j)
  }

  /** From event |before.log| on the streams were opened anew exactly if that was called for. */
  ghost predicate Opening(s: Proc, log: seq<Event>) {
    var n := |s.out.log|;
    if !s.out.streams || Due(s).streamId != s.sri.streamId then
      exists j: nat ::
        OpensAt(log, n, s.out.streams, j) && Carries(s, log[j].sri) && log[j].sri.streamId == Due(s).streamId
    else StaysOpen(log, n)
  }

  lemma AppendOpening(s: Proc, log: seq<Event>, e: Event)
    requires |s.out.log| <= |log| && Opening(s, log) && !e.Open? && !e.Close?
    ensures Opening(s, log + [e])
  {
    hide Carries;
    var n, after := |s.out.log|, log + [e];
    if !s.out.streams || Due(s).streamId != s.sri.streamId {
      var j: nat :|
        OpensAt(log, n, s.out.streams, j) && Carries(s, log[j].sri) && log[j].sri.streamId == Due(s).streamId;
      assert after[j] == log[j];
      assert OpensAt(after, n, s.out.streams, j);
    }
  }

  // ---- From one event to the next ---------------------------------------------------------------

  /** Nothing has been looked at since `a`: there were flushes alone. */
  ghost predicate Untouched(a: Proc, s: Proc) {
    && s.sri == a.sri && s.ctl == a.ctl && s.out.streams == a.out.streams
    && a.out.log <= s.out.log && Flushes(s.out.log, |a.out.log|, |s.out.log|)
    && Latest(s.out.log) == Latest(a.out.log)
  }

  /** What was due after `a` has come about. */
  ghost predicate Settled(a: Proc, s: Proc) {
    && s.ctl == a.ctl.(isNew := a.ctl.isNew && !a.ctl.isSet, use := Rules(a), endian := OrderDue(a))
    && Carries(a, s.sri) && s.sri.streamId == Due(a).streamId
    && s.out.streams && a.out.log <= s.out.log && Opening(a, s.out.log)
    && Latest(s.out.log).Some? && Announces(a, Latest(s.out.log).value)
    && Content(Latest(s.out.log).value) == Content(s.sri)
  }

  ghost predicate Since(a: Proc, s: Proc) {
    && (Untouched(a, s) || Settled(a, s))
    && WritesUnder(s.out.log, |a.out.log|, Going(a))
  }

  // ---- The section under the lock ---------------------------------------------------------------

  /** Taking what waits, the first time after `a`. */
  lemma FirstTake(a: Proc, s: Proc)
    requires Untouched(a, s)
    ensures var m := TakeUpstream(s.sri, s.ctl, s.out);
            && m.ctl == a.ctl.(isNew := a.ctl.isNew && !a.ctl.isSet, use := Rules(a), endian := OrderDue(a))
            && Carries(a, m.sri) && m.sri.streamId == Due(a).streamId
            && m.changed == Awaits(a) && (!m.changed ==> m.sri == a.sri)
            && m.out == if Due(a).streamId != a.sri.streamId then CreateStreams(s.out, m.sri) else s.out
  {
    hide CreateStreams, Flushes, Latest;
  }

  /** Later there is nothing to take. */
  lemma LaterTake(a: Proc, s: Proc)
    requires Settled(a, s)
    ensures TakeUpstream(s.sri, s.ctl, s.out) == Merged(s.sri, s.ctl, s.out, false)
  {
    hide Carries, Opening, Announces, Latest;
  }

  lemma CreateOpens(a: Proc, o: Output, x: Sri, q: (Sri, Written) -> bool)
    requires a.out.log <= o.log && Flushes(o.log, |a.out.log|, |o.log|) && o.streams == a.out.streams
    requires Carries(a, x) && x.streamId == Due(a).streamId
    requires !o.streams || Due(a).streamId != a.sri.streamId
    requires WritesUnder(o.log, |a.out.log|, q)
    ensures var r := CreateStreams(o, x);
            && r.streams && a.out.log <= r.log && Opening(a, r.log)
            && Latest(r.log) == Some(x) && WritesUnder(r.log, |a.out.log|, q)
  {
    hide Carries, WritesUnder, Latest, Due;
    var r := CreateStreams(o, x);
    var j := |r.log| - 1;
    assert OpensAt(r.log, |a.out.log|, a.out.streams, j) && r.log[j] == Open(x);
    if o.streams {
      AppendUnder(o.log, |a.out.log|, q, Close);
    }
    AppendUnder(CloseStreams(o).log, |a.out.log|, q, Open(x));
  }

  /** Both merges and the opening of missing streams: what was due has come about, but for a push of the SRI. */
  lemma UpdateSettles(a: Proc, s: Proc, h: Header, q: (Sri, Written) -> bool)
    requires Untouched(a, s) || Settled(a, s)
    requires Announced(a.out, a.sri) && WritesUnder(s.out.log, |a.out.log|, q)
    ensures var m := UpdateSri(s.sri, s.ctl, s.out, h, s.det.nonConforming);
            && m.ctl == a.ctl.(isNew := a.ctl.isNew && !a.ctl.isSet, use := Rules(a), endian := OrderDue(a))
            && Carries(a, m.sri) && m.sri.streamId == Due(a).streamId
            && m.out.streams && a.out.log <= m.out.log && Opening(a, m.out.log)
            && WritesUnder(m.out.log, |a.out.log|, q)
            && (!Rules(a) && !m.changed ==> HeaderAgrees(h, m.sri, s.det.nonConforming))
            && (!m.changed ==>
                  && Latest(m.out.log).Some? && Announces(a, Latest(m.out.log).value)
                  && Content(Latest(m.out.log).value) == Content(m.sri))
  {
    hide Proper, Opened, HeaderXdelta, SameXdelta, Opening, WritesUnder, Latest, CreateStreams;
    if Settled(a, s) {
      LaterTake(a, s);
    } else {
      FirstTake(a, s);
      var t := TakeUpstream(s.sri, s.ctl, s.out);
      var m := UpdateSri(s.sri, s.ctl, s.out, h, s.det.nonConforming);
      if Due(a).streamId != a.sri.streamId {
        CreateOpens(a, s.out, t.sri, q);
      } else if !s.out.streams {
        CreateOpens(a, s.out, m.sri, q);
      } else {
        NothingOpened(a, s);
      }
      hide TakeUpstream, Untouched;
    }
  }

  lemma NothingOpened(a: Proc, s: Proc)
    requires Untouched(a, s) && a.out.streams && Due(a).streamId == a.sri.streamId
    ensures Opening(a, s.out.log)
  {
    hide Latest;
  }

  // ---- Passes -----------------------------------------------------------------------------------

  /** A push or a write after the update. */
  lemma EventSettles(a: Proc, s: Proc, e: Event, t: Proc)
    requires s.ctl == a.ctl.(isNew := a.ctl.isNew && !a.ctl.isSet, use := Rules(a), endian := OrderDue(a))
    requires Carries(a, s.sri) && s.sri.streamId == Due(a).streamId
    requires s.out.streams && a.out.log <= s.out.log && Opening(a, s.out.log)
    requires WritesUnder(s.out.log, |a.out.log|, Going(a))
    requires e.PushSri? || e.Write?
    requires e.PushSri? ==> e.pushed == s.sri
    requires e.Write? ==>
               && Latest(s.out.log).Some? && Content(Latest(s.out.log).value) == Content(s.sri)
               && GoesUnder(a, Latest(s.out.log).value, e.w)
    requires t.ctl == s.ctl && t.sri == s.sri && t.out == Emit(s.out, e)
    ensures Settled(a, t) && WritesUnder(t.out.log, |a.out.log|, Going(a))
  {
    hide Carries, Opening, WritesUnder, Latest, Due;
    AppendOpening(a, s.out.log, e);
    AppendUnder(s.out.log, |a.out.log|, Going(a), e);
  }

  lemma SameContentAgrees(h: Header, x: Sri, y: Sri, nonConforming: bool)
    requires Content(x) == Content(y)
    ensures HeaderAgrees(h, x, nonConforming) == HeaderAgrees(h, y, nonConforming)
  {
    hide SameXdelta, HeaderXdelta;
    assert Content(x).xdelta == x.xdelta && Content(x).mode == x.mode;
    assert Content(y).xdelta == y.xdelta && Content(y).mode == y.mode;
  }

  lemma OrderedSettles(a: Proc, s: Proc, p: Packet, clockYear: int)
    requires Announced(a.out, a.sri) && Since(a, s)
    requires UsableBps(s.trk.bps) && StandardBps(s.trk.bps) && Usable(p)
    ensures Settled(a, OfferOrdered(s, p, clockYear).s) && Since(a, OfferOrdered(s, p, clockYear).s)
  {
    hide Untouched, Settled, Announced, HeaderAgrees, WritesUnder, Opening, Carries, Latest, UpdateSri, Delivered,
         StampOf, Check, ExpectHeader, Rules, OrderDue;
    var m := UpdateSri(s.sri, s.ctl, s.out, p.h, s.det.nonConforming);
    UpdateSettles(a, s, p.h, Going(a));
    var s1 := s.(sri := m.sri, ctl := m.ctl, out := m.out);
    var r := OfferOrdered(s, p, clockYear).s;
    if m.changed {
      EventSettles(a, s1, PushSri(s.trk.bps, m.sri), r);
    } else {
      var x := Latest(m.out.log).value;
      SameContentAgrees(p.h, x, m.sri, s.det.nonConforming);
      var stamp := StampOf(p.h.time, p.h.ttv, s.det.last, s.startOfYear, clockYear).0;
      var w := Written(
        p.h, stamp, s.trk.bps, m.ctl.endian, s.det.nonConforming, Delivered(m.ctl.endian, s.trk.bps, p.d));
      EventSettles(a, s1, Write(w), r);
    }
  }

  /** A flush changes nothing. */
  lemma FlushSince(a: Proc, s: Proc, t: Proc)
    requires Since(a, s) && t.sri == s.sri && t.ctl == s.ctl && t.out == FlushStreams(s.out)
    ensures Since(a, t) && (Settled(a, s) ==> Settled(a, t))
  {
    hide Carries, WritesUnder, Announces, Opening, Latest, Due;
    if s.out.streams {
      AppendUnder(s.out.log, |a.out.log|, Going(a), Flush);
      if Settled(a, s) {
        AppendOpening(a, s.out.log, Flush);
      }
    }
  }

  /** A pass that consumes a packet it does not skip leaves what was due settled. */
  lemma PassSettles(a: Proc, s: Proc, p: Packet, clockYear: int)
    requires Announced(a.out, a.sri) && Since(a, s) && (s.trk.first || StandardBps(s.trk.bps))
    requires UsableBps(s.trk.bps) && Usable(p) && StandardBps(BitsPerSample(p.h))
    ensures var r := Offer(s, p, clockYear);
            && Since(a, r.s) && (r.s.trk.first || StandardBps(r.s.trk.bps))
            && ((r.consumed && !Skips(s.opt, p.h)) || Settled(a, s) ==> Settled(a, r.s))
  {
    hide OfferOrdered, ExpectHeader, FlushStreams, Since, Settled, Announced, StandardBps;
    OfferMoves(s, p, clockYear);
    var r := Offer(s, p, clockYear);
    var o := CheckOrder(s.trk, s.det, p.h);
    if Skips(s.opt, p.h) || !o.valid || (s.opt.pushOnTtv && o.trk.ttvFlag != p.h.ttv) {
      FlushSince(a, s, r.s);
    } else {
      var s1 := s.(trk := o.trk, det := o.det);
      SinceSame(a, s, s1);
      OrderedSettles(a, s1, p, clockYear);
    }
  }

  lemma SinceSame(a: Proc, s: Proc, t: Proc)
    requires Since(a, s) && t.sri == s.sri && t.ctl == s.ctl && t.out == s.out
    ensures Since(a, t)
  {
    hide Carries, WritesUnder, Announces, Opening, Latest, Due;
  }

  /** Was a packet that is not skipped consumed from k up to n? */
  ghost predicate SomeKept(opt: Options, ps: seq<Packet>, k: nat, n: nat)
    requires n <= |ps|
  {
    exists j :: k <= j < n && !Skips(opt, ps[j].h)
  }

  lemma SomeKeptFrom(opt: Options, ps: seq<Packet>, k: nat, n: nat)
    requires n <= |ps|
    ensures SomeKept(opt, ps, k, n) <==> SomeKept(opt, ps, k + 1, n) || (k < n && !Skips(opt, ps[k].h))
  {
    hide Skips;
  }

  lemma {:induction false} PassesSettle(a: Proc, at: Position, ps: seq<Packet>, years: seq<int>)
    requires Announced(a.out, a.sri) && Since(a, at.s) && (at.s.trk.first || StandardBps(at.s.trk.bps))
    requires Ready(at, ps) && AllStandard(ps)
    ensures var r := Run(at, ps, Passes(years));
            && Since(a, r.s)
            && (Settled(a, at.s) || SomeKept(at.s.opt, ps, at.k, r.k) ==> Settled(a, r.s))
    decreases |years|
  {
    hide Offer, Since, Settled, Announced, AllStandard, Skips, SomeKept, StandardBps;
    if years == [] {
      assert !SomeKept(at.s.opt, ps, at.k, at.k) by { NoneKept(at.s.opt, ps, at.k); }
    } else {
      assert Passes(years)[1..] == Passes(years[1..]);
      var next := Next(at, ps, Pass(years[0]));
      if at.k < |ps| {
        StandardAt(ps, at.k);
        PassSettles(a, at.s, ps[at.k], years[0]);
      }
      PassesSettle(a, next, ps, years[1..]);
      SomeKeptFrom(at.s.opt, ps, at.k, Run(at, ps, Passes(years)).k);
    }
  }

  lemma NoneKept(opt: Options, ps: seq<Packet>, k: nat)
    requires k <= |ps|
    ensures !SomeKept(opt, ps, k, k)
  {
  }

  lemma StandardAt(ps: seq<Packet>, k: nat)
    requires AllStandard(ps) && k < |ps|
    ensures Usable(ps[k]) && StandardBps(BitsPerSample(ps[k].h))
  {
  }

  // ---- From a set to the next event ---------------------------------------------------------------

  /**
    In any run, whatever events it has had, what is due from some moment to the next event: every
    payload goes out under it, and once a packet has been delivered it is the current SRI, too.
   */
  lemma SriUntilNextEvent(setup: Setup, ps: seq<Packet>, acts: seq<Act>, years: seq<int>)
    requires AllStandard(ps)
    ensures var a := Run(Position(Fresh(setup), 0), ps, acts);
            var r := Run(a, ps, Passes(years));
            Since(a.s, r.s) && (SomeKept(setup.opt, ps, a.k, r.k) ==> Settled(a.s, r.s))
  {
    StandardIsUsable(ps);
    hide Run, AllStandard, Announced, Since, Settled;
    var a := Run(Position(Fresh(setup), 0), ps, acts);
    Reached(setup, ps, acts);
    SinceItself(a.s);
    PassesSettle(a.s, a, ps, years);
  }

  /** Reachable states announce the current SRI. */
  lemma Reached(setup: Setup, ps: seq<Packet>, acts: seq<Act>)
    requires AllStandard(ps)
    ensures Ready(Position(Fresh(setup), 0), ps) && SriInv(Run(Position(Fresh(setup), 0), ps, acts).s)
  {
    RunAnnounces(Position(Fresh(setup), 0), ps, acts);
    hide Run;
  }

  lemma SinceItself(s: Proc)
    ensures Since(s, s)
  {
    hide Latest;
  }

  /** Does this SRI carry what was set upstream, the sample period and the mode if upstream decides those? */
  predicate TakenFrom(u: Upstream, x: Sri, decides: bool) {
    && x.streamId == u.sri.streamId && x.meta == u.asStored && x.extra == u.sri.extra
    && (decides ==> x.xdelta == u.sri.xdelta && x.mode == u.sri.mode)
  }

  /** Is the upstream SRI one that will be taken? */
  predicate Differs(u: Upstream, sri: Sri) {
    u.sri.meta != sri.meta || u.sri.streamId != sri.streamId
  }

  /** Does every payload written after state `a` go out under u, in the order it declares? */
  ghost predicate GoOutUnder(u: Upstream, a: Proc, log: seq<Event>) {
    var decides := a.ctl.use || u.priority;
    && a.out.log <= log
    && forall i :: |a.out.log| <= i < |log| && log[i].Write? ==>
         && Latest(log[..i]).Some? && TakenFrom(u, Latest(log[..i]).value, decides)
         && log[i].w.order == (if u.order.Some? then u.order.value else a.ctl.endian)
         && (!decides ==> HeaderAgrees(log[i].w.h, Latest(log[..i]).value, log[i].w.nonConforming))
  }

  /** Is u the current SRI and the one announced, on streams opened anew if its identifier is new? */
  ghost predicate NowTaken(u: Upstream, a: Proc, s: Proc) {
    var decides, n, log := a.ctl.use || u.priority, |a.out.log|, s.out.log;
    && TakenFrom(u, s.sri, decides) && s.ctl.use == decides
    && Latest(log).Some? && TakenFrom(u, Latest(log).value, decides)
    && if !a.out.streams || u.sri.streamId != a.sri.streamId then
         exists j: nat :: OpensAt(log, n, a.out.streams, j) && TakenFrom(u, log[j].sri, decides)
       else StaysOpen(log, n)
  }

  /**
    Setting an upstream SRI that differs: until the next event every payload goes out under it, in
    the byte order it declares, at its sample period and mode if upstream decides those and else at
    the header's. A new identifier opens the streams anew. Once a packet has been delivered it is
    the current SRI.
   */
  lemma SetIsTaken(setup: Setup, ps: seq<Packet>, acts: seq<Act>, u: Upstream, years: seq<int>)
    requires AllStandard(ps)
    requires Differs(u, Run(Position(Fresh(setup), 0), ps, acts).s.sri)
    ensures var a := Run(Position(Fresh(setup), 0), ps, acts);
            var r := Run(Next(a, ps, Upcall(SetUpstream(u))), ps, Passes(years));
            && GoOutUnder(u, a.s, r.s.out.log)
            && (SomeKept(setup.opt, ps, a.k, r.k) ==> NowTaken(u, a.s, r.s))
  {
    hide Run, AllStandard, HeaderAgrees, Latest, OpensAt, StaysOpen;
    var a := Run(Position(Fresh(setup), 0), ps, acts);
    var b := Next(a, ps, Upcall(SetUpstream(u)));
    StandardIsUsable(ps);
    Reached(setup, ps, acts);
    SinceItself(b.s);
    PassesSettle(b.s, b, ps, years);
  }

  /**
    One that does not differ in what is compared is ignored, whatever period, mode, byte order or
    priority it has: nothing changes but what the headers change.
   */
  lemma SetIsIgnored(setup: Setup, ps: seq<Packet>, acts: seq<Act>, u: Upstream, years: seq<int>)
    requires AllStandard(ps)
    requires !Differs(u, Run(Position(Fresh(setup), 0), ps, acts).s.sri)
    ensures var a := Run(Position(Fresh(setup), 0), ps, acts);
            var r := Run(Next(a, ps, Upcall(SetUpstream(u))), ps, Passes(years));
            var n, log := |a.s.out.log|, r.s.out.log;
            && r.s.ctl.use == a.s.ctl.use && r.s.ctl.endian == a.s.ctl.endian
            && r.s.sri == a.s.sri.(xdelta := r.s.sri.xdelta, mode := r.s.sri.mode)
            && (a.s.ctl.use ==> r.s.sri == a.s.sri)
            && (a.s.out.streams ==> StaysOpen(log, n))
            && a.s.out.log <= log
            && forall i :: n <= i < |log| && log[i].Write? ==>
                 && log[i].w.order == a.s.ctl.endian && Latest(log[..i]).Some?
                 && (!a.s.ctl.use ==> HeaderAgrees(log[i].w.h, Latest(log[..i]).value, log[i].w.nonConforming))
  {
    hide Run, AllStandard, HeaderAgrees, Latest, OpensAt;
    var a := Run(Position(Fresh(setup), 0), ps, acts);
    var b := Next(a, ps, Upcall(SetUpstream(u)));
    StandardIsUsable(ps);
    Reached(setup, ps, acts);
    SinceItself(b.s);
    PassesSettle(b.s, b, ps, years);
  }

  // ---- After an unset -----------------------------------------------------------------------------

  /** No upstream SRI counts. */
  predicate HeaderAlone(s: Proc) {
    !s.ctl.isSet && !s.ctl.use && s.ctl.endian.Big? && s.sri.streamId == DEFAULT_STREAM_ID
  }

  /** Was the payload converted from the byte order on the wire, and does the header confirm the SRI? */
  predicate AsHeaderSays(x: Sri, w: Written) {
    w.order.Big? && HeaderAgrees(w.h, x, w.nonConforming)
  }

  ghost predicate NoneSet(acts: seq<Act>) {
    forall i :: 0 <= i < |acts| && acts[i].Upcall? ==> acts[i].e.UnsetUpstream?
  }

  ghost predicate ByHeader(s: Proc, log: seq<Event>, streams: bool) {
    && HeaderAlone(s) && log <= s.out.log && WritesUnder(s.out.log, |log|, AsHeaderSays)
    && (streams ==> s.out.streams && StaysOpen(s.out.log, |log|))
  }

  lemma JoinUnder(a: Proc, s: Proc, log: seq<Event>)
    requires log <= a.out.log <= s.out.log && HeaderAlone(a)
    requires WritesUnder(a.out.log, |log|, AsHeaderSays) && WritesUnder(s.out.log, |a.out.log|, Going(a))
    ensures WritesUnder(s.out.log, |log|, AsHeaderSays)
  {
    hide Latest, Announces, HeaderAgrees;
    var all := s.out.log;
    forall i | |log| <= i < |all| && all[i].Write?
      ensures Latest(all[..i]).Some? && AsHeaderSays(Latest(all[..i]).value, all[i].w)
    {
      if i < |a.out.log| {
        assert all[..i] == a.out.log[..i] && all[i] == a.out.log[i];
      } else {
        assert GoesUnder(a, Latest(all[..i]).value, all[i].w);
      }
    }
  }

  lemma PassByHeader(s: Proc, p: Packet, clockYear: int, log: seq<Event>, streams: bool)
    requires SriInv(s) && UsableBps(s.trk.bps) && Usable(p) && StandardBps(BitsPerSample(p.h))
    requires ByHeader(s, log, streams)
    ensures ByHeader(Offer(s, p, clockYear).s, log, streams)
  {
    var r := Offer(s, p, clockYear).s;
    SinceItself(s);
    PassSettles(s, s, p, clockYear);
    hide Offer, WritesUnder, Latest, HeaderAgrees, Proper, Announces, Usable, FlagsRise, Announced;
    JoinUnder(s, r, log);
    if streams {
      StayOpenOn(s, r, log);
    }
    hide Going, Opening, Flushes, StaysOpen;
  }

  lemma StayOpenOn(a: Proc, s: Proc, log: seq<Event>)
    requires HeaderAlone(a) && log <= a.out.log && a.out.streams && StaysOpen(a.out.log, |log|)
    requires Untouched(a, s) || Settled(a, s)
    ensures s.out.streams && StaysOpen(s.out.log, |log|)
  {
    hide Latest, Announces, Carries;
    var all := s.out.log;
    forall i | |log| <= i < |all|
      ensures !all[i].Open? && !all[i].Close?
    {
      if i < |a.out.log| {
        assert all[i] == a.out.log[i];
      }
    }
  }

  lemma {:induction false} RunByHeader(at: Position, ps: seq<Packet>, acts: seq<Act>, log: seq<Event>, streams: bool)
    requires Ready(at, ps) && AllStandard(ps) && SriInv(at.s) && NoneSet(acts) && ByHeader(at.s, log, streams)
    ensures ByHeader(Run(at, ps, acts).s, log, streams)
    decreases |acts|
  {
    hide Offer, WritesUnder, StaysOpen, Proper, FlagsRise, Announced;
    if acts != [] {
      if acts[0].Pass? && at.k < |ps| {
        StandardAt(ps, at.k);
        PassByHeader(at.s, ps[at.k], acts[0].clockYear, log, streams);
      }
      RunAnnounces(at, ps, acts[..1]);
      assert acts[..1][1..] == [];
      RunByHeader(Next(at, ps, acts[0]), ps, acts[1..], log, streams);
    }
  }

  /**
    Since state `a`, is every payload converted from the order on the wire, and does its header
    confirm the SRI announced? And will no zero rate be used that is not skipped?
   */
  ghost predicate HeaderDecides(opt: Options, a: Proc, s: Proc) {
    var n, log := |a.out.log|, s.out.log;
    && a.out.log <= log && s.sri.streamId == DEFAULT_STREAM_ID
    && (forall i :: n <= i < |log| && log[i].Write? ==>
          && log[i].w.order == Big && Latest(log[..i]).Some?
          && HeaderAgrees(log[i].w.h, Latest(log[..i]).value, log[i].w.nonConforming))
    && (a.out.streams ==> StaysOpen(log, n))
    && UsableBps(s.trk.bps)
    && forall p :: Usable(p) ==>
         (Livelock.Starves(s, p) <==> p.h.freq == 0 && !(opt.waitForTtv && !p.h.ttv))
  }

  /**
    Once the upstream SRI is unset, and until one is set again, the headers decide, whatever
    upstream had decided before: payloads are converted from the byte order on the wire and go out
    under an SRI their headers confirm, the identifier is the default one, though open streams keep
    theirs, and a packet of rate zero that is not skipped is held back for ever.
   */
  lemma UnsetReturnsToHeader(setup: Setup, ps: seq<Packet>, acts: seq<Act>, more: seq<Act>)
    requires AllStandard(ps) && NoneSet(more)
    ensures var a := Run(Position(Fresh(setup), 0), ps, acts);
            var r := Run(Next(a, ps, Upcall(UnsetUpstream)), ps, more);
            HeaderDecides(setup.opt, a.s, r.s)
  {
    StandardIsUsable(ps);
    hide Run, AllStandard, HeaderAgrees, Latest, Rate;
    var at := Position(Fresh(setup), 0);
    var a := Run(at, ps, acts);
    Reached(setup, ps, acts);
    var b := Next(a, ps, Upcall(UnsetUpstream));
    hide Announced, FlagsRise;
    assert SriInv(b.s) by { RunAnnounces(a, ps, [Upcall(UnsetUpstream)]); OneAct(a, ps, UnsetUpstream); }
    RunByHeader(b, ps, more, a.s.out.log, a.s.out.streams);
    var r := Run(b, ps, more);
    forall p | Usable(p)
      ensures Livelock.Starves(r.s, p) <==> p.h.freq == 0 && !(setup.opt.waitForTtv && !p.h.ttv)
    {
      Livelock.StarvesIff(r.s, p);
    }
  }

  lemma OneAct(at: Position, ps: seq<Packet>, e: UpstreamEvent)
    requires Ready(at, ps)
    ensures Run(at, ps, [Upcall(e)]) == Next(at, ps, Upcall(e))
  {
    assert [Upcall(e)][1..] == [];
  }
}
