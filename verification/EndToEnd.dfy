/**
  The properties of processor runs, carried over to runs of the whole component: any interleaving
  of the reader, the kernel, the processor and the callers that set the upstream SRI.
 */
module EndToEnd {

  import SlipDetector
  import opened SddsPackets
  import opened Processor
  import opened PoolProtocol
  import opened Streaming
  import Segments
  import Sequences
  import Payloads
  import Positions
  import Drops
  import HalfRate
  import Announcements
  import OwnStreams
  import Slips
  import UpstreamSris

  lemma AsProcessorRun(cfg: Config, blank: Packet, setup: Setup, moves: seq<Move>)
    returns (acts: seq<Act>)
    requires cfg.Valid() && CanRun(cfg, Begin(cfg, blank, setup), moves)
    ensures var s := RunTo(cfg, Begin(cfg, blank, setup), moves);
            && AllUsable(s.pool.received)
            && |s.pool.consumed| <= |s.pool.received|
            && s.pool.consumed == s.pool.received[..|s.pool.consumed|]
            && Run(Position(Fresh(setup), 0), s.pool.received, acts) == Position(s.proc, |s.pool.consumed|)
    ensures From(acts, moves)
  {
    var b := Begin(cfg, blank, setup);
    acts := ActsOf(cfg, b, moves);
    var s := RunTo(cfg, b, moves);
    assert PositionOf(b) == Position(Fresh(setup), 0);
    SystemRunIsProcessorRun(cfg, b, moves, s.pool.received);
    ConsumedWereReceived(cfg, s);
    ActsWereMoves(cfg, b, moves);
    hide Run, RunTo, ActsOf, CanRun;
  }

  /** The move that an act of the processor was. */
  function MoveOf(a: Act): Move {
    match a
    case Pass(year) => ProcessorPass(year)
    case Upcall(e) => UpstreamMove(e)
  }

  /** Did all of these acts come from these moves? */
  ghost predicate From(acts: seq<Act>, moves: seq<Move>) {
    forall i :: 0 <= i < |acts| ==> MoveOf(acts[i]) in moves
  }

  lemma {:induction false} ActsWereMoves(cfg: Config, s: System, moves: seq<Move>)
    requires cfg.Valid() && SysInv(cfg, s) && CanRun(cfg, s, moves)
    ensures From(ActsOf(cfg, s, moves), moves)
    decreases |moves|
  {
    hide SysInv, MoveTo, CanMove;
    if moves != [] {
      MoveKeepsSysInv(cfg, s, moves[0]);
      var t := MoveTo(cfg, s, moves[0]);
      ActsWereMoves(cfg, t, moves[1..]);
      FromConcat(s, moves[0], ActsOf(cfg, t, moves[1..]), moves[1..]);
      assert moves == [moves[0]] + moves[1..];
    }
  }

  lemma FromConcat(s: System, m: Move, rest: seq<Act>, moves: seq<Move>)
    requires From(rest, moves)
    ensures From(ActOf(s, m) + rest, [m] + moves)
  {
  }

  /**
    From the wire to the streams: the payloads written are those of the packets received so far
    and consumed, in the order received, each once, less the packets that wait-on-TTV skips, at the
    width of the packet that began their sequence, with the samples the sender declared at that
    width and the time it stamped, in the year the component was set up with or one that the clock
    has said.
   */
  lemma ReceivedPacketsAreWritten(cfg: Config, blank: Packet, setup: Setup, moves: seq<Move>, years: set<int>)
    requires cfg.Valid() && CanRun(cfg, Begin(cfg, blank, setup), moves)
    requires AllStandard(RunTo(cfg, Begin(cfg, blank, setup), moves).pool.received)
    requires setup.year in years && forall y :: ProcessorPass(y) in moves ==> y in years
    ensures var s := RunTo(cfg, Begin(cfg, blank, setup), moves);
            && |s.pool.consumed| <= |s.pool.received|
            && Payloads.AllRecorded(
                 Payloads.Writes(s.proc.out.log), setup.opt, s.pool.received, |s.pool.consumed|, years)
  {
    var acts := AsProcessorRun(cfg, blank, setup, moves);
    var s := RunTo(cfg, Begin(cfg, blank, setup), moves);
    var at := Position(Fresh(setup), 0);
    assert Payloads.Writes(at.s.out.log) == [];
    Payloads.PayloadsWritten(at, s.pool.received, acts, years);
    hide Run, RunTo, CanRun, Payloads.Writes, Payloads.Kept;
  }

  /** When that width is the packet's own. */
  lemma ComponentWidthsIff(cfg: Config, blank: Packet, setup: Setup, moves: seq<Move>)
    requires cfg.Valid() && CanRun(cfg, Begin(cfg, blank, setup), moves)
    requires AllStandard(RunTo(cfg, Begin(cfg, blank, setup), moves).pool.received)
    ensures var s := RunTo(cfg, Begin(cfg, blank, setup), moves);
            && |s.pool.consumed| <= |s.pool.received|
            && (Payloads.AtOwnWidth(Payloads.Writes(s.proc.out.log)) <==>
                  Sequences.WidthsHold(setup.opt, s.pool.received, |s.pool.consumed|))
  {
    var acts := AsProcessorRun(cfg, blank, setup, moves);
    Payloads.OwnWidthsIff(setup, RunTo(cfg, Begin(cfg, blank, setup), moves).pool.received, acts);
    hide Run, RunTo, CanRun, Payloads.AtOwnWidth, Sequences.WidthsHold;
  }

  /** With packet times that do not go backwards, all in the year it was set up with. */
  lemma ComponentStampsInOneYear(cfg: Config, blank: Packet, setup: Setup, moves: seq<Move>)
    requires cfg.Valid() && CanRun(cfg, Begin(cfg, blank, setup), moves)
    requires var ps := RunTo(cfg, Begin(cfg, blank, setup), moves).pool.received;
             AllStandard(ps) && Payloads.TimesForward(ps)
    ensures Payloads.AllInYear(Payloads.Writes(RunTo(cfg, Begin(cfg, blank, setup), moves).proc.out.log), setup.year)
  {
    var acts := AsProcessorRun(cfg, blank, setup, moves);
    var at := Position(Fresh(setup), 0);
    assert Payloads.Writes(at.s.out.log) == [];
    Payloads.StampedInOneYear(at, RunTo(cfg, Begin(cfg, blank, setup), moves).pool.received, acts, setup.year);
    hide Run, RunTo, CanRun;
  }

  /** Segment integrity of the component's output. */
  lemma OutputSegmentsIntact(cfg: Config, blank: Packet, setup: Setup, moves: seq<Move>)
    requires cfg.Valid() && CanRun(cfg, Begin(cfg, blank, setup), moves)
    ensures Segments.SegmentsIntact(setup.opt, RunTo(cfg, Begin(cfg, blank, setup), moves).proc.out.log)
  {
    var acts := AsProcessorRun(cfg, blank, setup, moves);
    var s := RunTo(cfg, Begin(cfg, blank, setup), moves);
    Segments.SegmentIntegrity(setup, s.pool.received, acts);
    hide Run, RunTo, CanRun;
  }

  /** The component's drop counter, on a channel that only loses packets. */
  lemma ComponentDrops(cfg: Config, blank: Packet, setup: Setup, moves: seq<Move>, idx: seq<nat>)
    requires cfg.Valid() && CanRun(cfg, Begin(cfg, blank, setup), moves)
    requires var ps := RunTo(cfg, Begin(cfg, blank, setup), moves).pool.received;
             Positions.Numbered(ps, idx) && Drops.ShortGaps(setup.opt, ps, idx)
    ensures var s := RunTo(cfg, Begin(cfg, blank, setup), moves);
            var ps := s.pool.received; var k := |s.pool.consumed|;
            && k <= |ps|
            && (|| Drops.Counts(s.proc.trk.dropped, Drops.Total(setup.opt, ps, idx, k))
                || (k < |ps| && Drops.Counts(s.proc.trk.dropped, Drops.Total(setup.opt, ps, idx, k + 1))))
  {
    var acts := AsProcessorRun(cfg, blank, setup, moves);
    var ps := RunTo(cfg, Begin(cfg, blank, setup), moves).pool.received;
    Drops.DropAccounting(setup, ps, idx, acts);
    hide Run, RunTo, CanRun, Drops.Total;
  }

  /**
    What the component's drop counter holds in the end: the packets missing and the parity slots
    among them, if and only if every gap is shorter than a cycle.
   */
  lemma ComponentDropsIff(cfg: Config, blank: Packet, setup: Setup, moves: seq<Move>, idx: seq<nat>)
    requires cfg.Valid() && CanRun(cfg, Begin(cfg, blank, setup), moves)
    requires var s := RunTo(cfg, Begin(cfg, blank, setup), moves);
             && |s.pool.consumed| == |s.pool.received|
             && Positions.Numbered(s.pool.received, idx)
             && Drops.Total(setup.opt, s.pool.received, idx, |idx|) < 0x1_0000_0000_0000_0000
    ensures var s := RunTo(cfg, Begin(cfg, blank, setup), moves);
            var ps := s.pool.received;
            s.proc.trk.dropped
              == Drops.TotalMissing(setup.opt, ps, idx, |ps|) + Drops.TotalParity(setup.opt, ps, idx, |ps|)
            <==> Drops.ShortGaps(setup.opt, ps, idx)
  {
    var acts := AsProcessorRun(cfg, blank, setup, moves);
    var ps := RunTo(cfg, Begin(cfg, blank, setup), moves).pool.received;
    Drops.DropsAccountedIff(setup, ps, idx, acts);
    Drops.TotalCountsPacketsAndParity(setup.opt, ps, idx, |ps|);
    hide Run, RunTo, CanRun, Drops.Total, Drops.TotalMissing, Drops.TotalParity, Drops.ShortGaps;
  }

  /** The component's slip counter, on a tight stream at the header's step or half of it. */
  lemma ComponentCountsNoSlips(
      cfg: Config, blank: Packet, setup: Setup, moves: seq<Move>,
      idx: seq<nat>, rate: real, bps: nat, cx: bool, half: bool)
    requires cfg.Valid() && CanRun(cfg, Begin(cfg, blank, setup), moves)
    requires var ps := RunTo(cfg, Begin(cfg, blank, setup), moves).pool.received;
             HalfRate.Steady(setup.opt, ps, idx, rate, bps, cx, half) && HalfRate.AllTight(setup.opt, ps, idx, half)
    ensures var d := RunTo(cfg, Begin(cfg, blank, setup), moves).proc.det;
            d.slips == 0 && (d.nonConforming ==> half)
  {
    var acts := AsProcessorRun(cfg, blank, setup, moves);
    var ps := RunTo(cfg, Begin(cfg, blank, setup), moves).pool.received;
    HalfRate.SteadyCountsNoSlips(setup, ps, idx, rate, bps, cx, half, acts);
    hide Run, RunTo, CanRun, HalfRate.Steady, HalfRate.AllTight;
  }

  /** Does no upstream SRI arrive? */
  ghost predicate Undisturbed(moves: seq<Move>) {
    forall m :: m in moves ==> !m.UpstreamMove?
  }

  /** Then the processor's run is one of passes alone. */
  lemma AsPasses(cfg: Config, blank: Packet, setup: Setup, moves: seq<Move>) returns (years: seq<int>)
    requires cfg.Valid() && CanRun(cfg, Begin(cfg, blank, setup), moves) && Undisturbed(moves)
    ensures var s := RunTo(cfg, Begin(cfg, blank, setup), moves);
            && AllUsable(s.pool.received)
            && |s.pool.consumed| <= |s.pool.received|
            && Run(Position(Fresh(setup), 0), s.pool.received, Passes(years)) == Position(s.proc, |s.pool.consumed|)
  {
    var acts := AsProcessorRun(cfg, blank, setup, moves);
    OnlyPasses(acts, moves);
    hide Run, RunTo, CanRun;
    years := AllPasses(acts);
  }

  lemma {:induction false} AllPasses(acts: seq<Act>) returns (years: seq<int>)
    requires forall i :: 0 <= i < |acts| ==> acts[i].Pass?
    ensures Passes(years) == acts
    decreases |acts|
  {
    years := [];
    if acts != [] {
      var rest := AllPasses(acts[1..]);
      years := [acts[0].clockYear] + rest;
    }
  }

  /** The slips of a component to which no upstream SRI is given. */
  lemma ComponentSlips(
      cfg: Config, blank: Packet, setup: Setup, moves: seq<Move>,
      idx: seq<nat>, rate: real, bps: nat, cx: bool, half: bool)
    requires cfg.Valid() && CanRun(cfg, Begin(cfg, blank, setup), moves) && Undisturbed(moves)
    requires HalfRate.Steady(
               setup.opt, RunTo(cfg, Begin(cfg, blank, setup), moves).pool.received, idx, rate, bps, cx, half)
    ensures var s := RunTo(cfg, Begin(cfg, blank, setup), moves);
            var ps, k := s.pool.received, |s.pool.consumed|;
            && k <= |ps| == |idx|
            && s.proc.det.slips == Slips.CostCount(setup.opt, ps, idx, rate, half, k)
            && (s.proc.det.slips == 0 <==> Slips.NoneCosts(setup.opt, ps, idx, rate, half, k))
  {
    var years := AsPasses(cfg, blank, setup, moves);
    var ps := RunTo(cfg, Begin(cfg, blank, setup), moves).pool.received;
    Slips.SlipsAreCosts(setup, ps, idx, rate, bps, cx, half, years);
    Slips.SlipsIff(setup, ps, idx, rate, bps, cx, half, years);
    hide Run, RunTo, CanRun, Slips.NoneCosts, Slips.CostCount;
  }

  /** The component's slip counter under a constant error. */
  lemma ComponentDriftSlips(
      cfg: Config, blank: Packet, setup: Setup, moves: seq<Move>,
      idx: seq<nat>, rate: real, bps: nat, cx: bool, error: real)
    requires cfg.Valid() && CanRun(cfg, Begin(cfg, blank, setup), moves) && Undisturbed(moves)
    requires Slips.Drifting(
               setup.opt, RunTo(cfg, Begin(cfg, blank, setup), moves).pool.received, idx, rate, bps, cx, error)
    ensures var s := RunTo(cfg, Begin(cfg, blank, setup), moves);
            var ps, k := s.pool.received, |s.pool.consumed|;
            && k <= |ps| == |idx| && error != 0.0
            && var p := SlipDetector.DriftPeriod(error);
               s.proc.det.slips ==
                 Slips.SlipsBefore(setup.opt, ps, idx, p, k)
                 + Slips.Periods(Slips.Stretch(setup.opt, ps, idx, k), p)
  {
    var years := AsPasses(cfg, blank, setup, moves);
    var ps := RunTo(cfg, Begin(cfg, blank, setup), moves).pool.received;
    Slips.DriftSlips(setup, ps, idx, rate, bps, cx, error, years);
    hide Run, RunTo, CanRun, Slips.SlipsBefore, Slips.Stretch, Slips.Drifting;
  }

  /** When the component's data goes out under the SRI of its own stream. */
  lemma ComponentOwnStreamsIff(cfg: Config, blank: Packet, setup: Setup, moves: seq<Move>)
    requires cfg.Valid() && CanRun(cfg, Begin(cfg, blank, setup), moves) && Undisturbed(moves)
    requires var ps := RunTo(cfg, Begin(cfg, blank, setup), moves).pool.received;
             AllStandard(ps) && OwnStreams.Separated(setup.opt, ps)
    ensures var s := RunTo(cfg, Begin(cfg, blank, setup), moves);
            && |s.pool.consumed| <= |s.pool.received|
            && (Announcements.GovernedOnOwn(s.proc.out.log) <==>
                  OwnStreams.NoneStale(setup.opt, s.pool.received, |s.pool.consumed|))
  {
    var years := AsPasses(cfg, blank, setup, moves);
    OwnStreams.OwnStreamsCurrentIff(setup, RunTo(cfg, Begin(cfg, blank, setup), moves).pool.received, years);
    hide Run, RunTo, CanRun, Announcements.GovernedOnOwn, OwnStreams.NoneStale, OwnStreams.Separated;
  }

  /**
    The component uses its streams properly, and unless an upstream SRI takes priority, every
    payload goes out under an announced sample period and mode that its own header confirms.
   */
  lemma ComponentSriGovernsData(cfg: Config, blank: Packet, setup: Setup, moves: seq<Move>)
    requires cfg.Valid() && CanRun(cfg, Begin(cfg, blank, setup), moves)
    requires AllStandard(RunTo(cfg, Begin(cfg, blank, setup), moves).pool.received)
    ensures var s := RunTo(cfg, Begin(cfg, blank, setup), moves).proc;
            && Announcements.Proper(s.out.log)
            && Announcements.FlagsRise(s.out.log, s.det.nonConforming)
            && ((forall u :: UpstreamMove(SetUpstream(u)) in moves ==> !u.priority) ==>
                  Announcements.Governed(s.out.log))
  {
    var acts := AsProcessorRun(cfg, blank, setup, moves);
    Announcements.SriGovernsData(setup, RunTo(cfg, Begin(cfg, blank, setup), moves).pool.received, acts);
    hide Run, RunTo, CanRun;
  }

  /**
    The component writes a stream of one width at that width, from the byte order it was set up with
    unless upstream says otherwise.
   */
  lemma ComponentWritesAsDeclared(
      cfg: Config, blank: Packet, setup: Setup, moves: seq<Move>, bps: nat)
    requires cfg.Valid() && CanRun(cfg, Begin(cfg, blank, setup), moves)
    requires OfWidth(RunTo(cfg, Begin(cfg, blank, setup), moves).pool.received, bps) && StandardBps(bps)
    requires forall e :: UpstreamMove(e) in moves ==> Payloads.KeepsOrder(e, setup.order)
    ensures Payloads.AllAs(Payloads.Writes(RunTo(cfg, Begin(cfg, blank, setup), moves).proc.out.log), bps, setup.order)
  {
    var acts := AsProcessorRun(cfg, blank, setup, moves);
    var at := Position(Fresh(setup), 0);
    assert Payloads.Writes(at.s.out.log) == [];
    Payloads.WrittenAsDeclared(at, RunTo(cfg, Begin(cfg, blank, setup), moves).pool.received, acts, bps, setup.order);
    hide Run, RunTo, CanRun;
  }

  // ---- Upstream SRIs ------------------------------------------------------------------------------

  /** The component after an upstream event. */
  ghost function AfterEvent(cfg: Config, s: System, e: UpstreamEvent): (t: System)
    requires cfg.Valid() && SysInv(cfg, s)
    ensures SysInv(cfg, t)
  {
    MoveKeepsSysInv(cfg, s, UpstreamMove(e));
    MoveTo(cfg, s, UpstreamMove(e))
  }

  /** A run, an event, and another run, as the processor's acts on all that is received. */
  lemma AsEventInRun(
      cfg: Config, blank: Packet, setup: Setup, before: seq<Move>, e: UpstreamEvent, after: seq<Move>)
    returns (acts: seq<Act>, more: seq<Act>)
    requires cfg.Valid() && CanRun(cfg, Begin(cfg, blank, setup), before)
    requires CanRun(cfg, AfterEvent(cfg, RunTo(cfg, Begin(cfg, blank, setup), before), e), after)
    ensures var s := RunTo(cfg, Begin(cfg, blank, setup), before);
            var t := RunTo(cfg, AfterEvent(cfg, s, e), after);
            var a := PositionOf(s);
            && AllUsable(t.pool.received) && Processor.Ready(a, t.pool.received)
            && |t.pool.consumed| <= |t.pool.received|
            && Run(Position(Fresh(setup), 0), t.pool.received, acts) == a
            && Run(Next(a, t.pool.received, Upcall(e)), t.pool.received, more) == PositionOf(t)
    ensures From(more, after)
  {
    var b := Begin(cfg, blank, setup);
    var s := RunTo(cfg, b, before);
    var m := AfterEvent(cfg, s, e);
    var t := RunTo(cfg, m, after);
    assert PositionOf(b) == Position(Fresh(setup), 0);
    RunReceives(cfg, m, after);
    acts, more := ActsOf(cfg, b, before), ActsOf(cfg, m, after);
    SystemRunIsProcessorRun(cfg, b, before, t.pool.received);
    SystemRunIsProcessorRun(cfg, m, after, t.pool.received);
    ConsumedWereReceived(cfg, t);
    ActsWereMoves(cfg, m, after);
    hide Run, RunTo, ActsOf, CanRun, SysInv;
  }

  /** What the component makes of an upstream SRI that differs, until the next event. */
  lemma ComponentSetIsTaken(
      cfg: Config, blank: Packet, setup: Setup, before: seq<Move>, u: Upstream, after: seq<Move>)
    requires cfg.Valid() && CanRun(cfg, Begin(cfg, blank, setup), before) && Undisturbed(after)
    requires var s := RunTo(cfg, Begin(cfg, blank, setup), before);
             && UpstreamSris.Differs(u, s.proc.sri)
             && CanRun(cfg, AfterEvent(cfg, s, SetUpstream(u)), after)
             && AllStandard(RunTo(cfg, AfterEvent(cfg, s, SetUpstream(u)), after).pool.received)
    ensures var s := RunTo(cfg, Begin(cfg, blank, setup), before);
            var t := RunTo(cfg, AfterEvent(cfg, s, SetUpstream(u)), after);
            var k, n := |s.pool.consumed|, |t.pool.consumed|;
            && n <= |t.pool.received|
            && UpstreamSris.GoOutUnder(u, s.proc, t.proc.out.log)
            && (UpstreamSris.SomeKept(setup.opt, t.pool.received, k, n) ==>
                  UpstreamSris.NowTaken(u, s.proc, t.proc))
  {
    var acts, more := AsEventInRun(cfg, blank, setup, before, SetUpstream(u), after);
    OnlyPasses(more, after);
    hide Run, RunTo, CanRun, UpstreamSris.GoOutUnder, UpstreamSris.NowTaken, UpstreamSris.SomeKept, AfterEvent;
    var years := AllPasses(more);
    var s := RunTo(cfg, Begin(cfg, blank, setup), before);
    UpstreamSris.SetIsTaken(
      setup, RunTo(cfg, AfterEvent(cfg, s, SetUpstream(u)), after).pool.received, acts, u, years);
  }

  lemma OnlyPasses(acts: seq<Act>, moves: seq<Move>)
    requires From(acts, moves) && Undisturbed(moves)
    ensures forall i :: 0 <= i < |acts| ==> acts[i].Pass?
  {
    forall i | 0 <= i < |acts| ensures acts[i].Pass? {
      assert MoveOf(acts[i]) in moves;
    }
  }

  /** What it does once that is unset, until another one is set. */
  lemma ComponentUnset(cfg: Config, blank: Packet, setup: Setup, before: seq<Move>, after: seq<Move>)
    requires cfg.Valid() && CanRun(cfg, Begin(cfg, blank, setup), before)
    requires forall u :: UpstreamMove(SetUpstream(u)) !in after
    requires var s := RunTo(cfg, Begin(cfg, blank, setup), before);
             && CanRun(cfg, AfterEvent(cfg, s, UnsetUpstream), after)
             && AllStandard(RunTo(cfg, AfterEvent(cfg, s, UnsetUpstream), after).pool.received)
    ensures var s := RunTo(cfg, Begin(cfg, blank, setup), before);
            var t := RunTo(cfg, AfterEvent(cfg, s, UnsetUpstream), after);
            UpstreamSris.HeaderDecides(setup.opt, s.proc, t.proc)
  {
    var acts, more := AsEventInRun(cfg, blank, setup, before, UnsetUpstream, after);
    assert UpstreamSris.NoneSet(more) by {
      forall i | 0 <= i < |more| && more[i].Upcall? ensures more[i].e.UnsetUpstream? {
        assert MoveOf(more[i]) in after;
      }
    }
    hide Run, RunTo, CanRun, UpstreamSris.HeaderDecides, AfterEvent;
    var s := RunTo(cfg, Begin(cfg, blank, setup), before);
    UpstreamSris.UnsetReturnsToHeader(
      setup, RunTo(cfg, AfterEvent(cfg, s, UnsetUpstream), after).pool.received, acts, more);
  }
}
