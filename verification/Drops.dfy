/** The drop counter over whole runs. */
module Drops {

  import opened SddsPackets
  import opened SequenceCounter
  import opened SlipDetector
  import opened Processor
  import opened Positions

  /** Is the run of missing packets before position k shorter than a cycle? */
  predicate ShortGap(opt: Options, ps: seq<Packet>, idx: seq<nat>, k: nat)
    requires k < |ps| == |idx|
  {
    Skips(opt, ps[k].h) || Missing(opt, ps, idx, k) < CYCLE
  }

  ghost predicate ShortGapsUpTo(opt: Options, ps: seq<Packet>, idx: seq<nat>, k: nat)
    requires k <= |ps| == |idx|
  {
    forall j: nat :: j < k ==> ShortGap(opt, ps, idx, j)
  }

  /** Every run of missing packets is shorter than a cycle. */
  ghost predicate ShortGaps(opt: Options, ps: seq<Packet>, idx: seq<nat>)
    requires |ps| == |idx|
  {
    ShortGapsUpTo(opt, ps, idx, |ps|)
  }

  /** Frame numbers missing before the packet at position k: packets, and parity slots among them. */
  function GapBefore(opt: Options, ps: seq<Packet>, idx: seq<nat>, k: nat): int
    requires k < |ps| == |idx|
  {
    var last := LastKept(opt, ps, k);
    if Skips(opt, ps[k].h) || last.None? then 0 else Gap(idx[last.value] + 1, idx[k])
  }

  /** The gaps before the first k packets, each once. */
  function Total(opt: Options, ps: seq<Packet>, idx: seq<nat>, k: nat): int
    requires k <= |ps| == |idx|
  {
    if k == 0 then 0 else Total(opt, ps, idx, k - 1) + GapBefore(opt, ps, idx, k - 1)
  }

  /** The 16-bit difference the receiver finds before the packet at position k. */
  function ReportedBefore(opt: Options, ps: seq<Packet>, idx: seq<nat>, k: nat): nat
    requires k < |ps| == |idx|
  {
    var last := LastKept(opt, ps, k);
    if Skips(opt, ps[k].h) || last.None? then 0 else DropsReported(Wire(idx[last.value] + 1), Wire(idx[k]))
  }

  /** These differences before the first k packets, each once. */
  function Reported(opt: Options, ps: seq<Packet>, idx: seq<nat>, k: nat): nat
    requires k <= |ps| == |idx|
  {
    if k == 0 then 0 else Reported(opt, ps, idx, k - 1) + ReportedBefore(opt, ps, idx, k - 1)
  }

  /** Packets missing before the first k packets. */
  function TotalMissing(opt: Options, ps: seq<Packet>, idx: seq<nat>, k: nat): int
    requires k <= |ps| == |idx|
  {
    if k == 0 then 0
    else TotalMissing(opt, ps, idx, k - 1)
         + if Skips(opt, ps[k - 1].h) then 0 else Missing(opt, ps, idx, k - 1)
  }

  /** Parity slots in the gaps before the first k packets. */
  function TotalParity(opt: Options, ps: seq<Packet>, idx: seq<nat>, k: nat): nat
    requires k <= |ps| && Numbered(ps, idx)
  {
    if k == 0 then 0 else TotalParity(opt, ps, idx, k - 1) + ParityBefore(opt, ps, idx, k - 1)
  }

  /** Parity slots missing before the packet at position k. */
  function ParityBefore(opt: Options, ps: seq<Packet>, idx: seq<nat>, k: nat): nat
    requires k < |ps| && Numbered(ps, idx)
  {
    var last := LastKept(opt, ps, k);
    if Skips(opt, ps[k].h) || last.None? then 0
    else
      SlotMonotone(idx[last.value] + 1, idx[k]);
      ParitySlots(Slot(idx[last.value] + 1), Slot(idx[k]))
  }

  /** The total is the packets missing, lost or skipped, plus the parity slots inside the gaps. */
  lemma {:induction false} TotalCountsPacketsAndParity(opt: Options, ps: seq<Packet>, idx: seq<nat>, k: nat)
    requires k <= |ps| && Numbered(ps, idx)
    ensures Total(opt, ps, idx, k) == TotalMissing(opt, ps, idx, k) + TotalParity(opt, ps, idx, k)
  {
    if k > 0 {
      TotalCountsPacketsAndParity(opt, ps, idx, k - 1);
      GapBeforeCounts(opt, ps, idx, k - 1);
      hide GapBefore, ParityBefore, Missing;
    }
  }

  lemma GapBeforeCounts(opt: Options, ps: seq<Packet>, idx: seq<nat>, k: nat)
    requires k < |ps| && Numbered(ps, idx)
    ensures GapBefore(opt, ps, idx, k)
            == (if Skips(opt, ps[k].h) then 0 else Missing(opt, ps, idx, k)) + ParityBefore(opt, ps, idx, k)
  {
    var last := LastKept(opt, ps, k);
    if last.Some? {
      GapCountsPacketsAndParity(idx[last.value] + 1, idx[k]);
    }
  }

  predicate Counts(dropped: int, total: int) {
    dropped == total % 0x1_0000_0000_0000_0000
  }

  /** What is found before the front packet is in the counter exactly from the moment it was found. */
  predicate DropInv(opt: Options, t: Tracker, ps: seq<Packet>, idx: seq<nat>, k: nat)
    requires k <= |ps| == |idx|
  {
    || ((Idle(opt, t, ps, k) || Following(opt, t, ps, idx, k)) && Counts(t.dropped, Reported(opt, ps, idx, k)))
    || ((Resyncing(opt, t, ps, k) || AtFront(opt, t, ps, k)) && Counts(t.dropped, Reported(opt, ps, idx, k + 1)))
  }

  lemma PassKeepsDrops(s: Proc, ps: seq<Packet>, idx: seq<nat>, k: nat, year: int)
    requires UsableBps(s.trk.bps) && AllUsable(ps) && Numbered(ps, idx) && k < |ps|
    requires DropInv(s.opt, s.trk, ps, idx, k)
    ensures var r := Offer(s, ps[k], year);
            DropInv(s.opt, r.s.trk, ps, idx, if r.consumed then k + 1 else k)
  {
    hide Offer, Reported, LastKept, Counts;
    if Skips(s.opt, ps[k].h) {
      OfferMoves(s, ps[k], year);
      hide CheckOrder, Check, ExpectHeader;
      SkipIsNotCounted(s.opt, s.trk, ps, idx, k);
    } else if s.trk.first || s.trk.expected == ps[k].h.seqNo {
      FrontIsCounted(s.opt, s.trk, ps, idx, k);
      PassAtFront(s, ps, idx, k, year);
    } else {
      PassOverGap(s, ps, k, year);
      GapIsCounted(s.opt, s.trk, ps, idx, k);
    }
  }

  /** A skipped packet leaves the tracker and the count alone. */
  lemma SkipIsNotCounted(opt: Options, t: Tracker, ps: seq<Packet>, idx: seq<nat>, k: nat)
    requires k < |ps| == |idx| && Skips(opt, ps[k].h) && DropInv(opt, t, ps, idx, k)
    ensures DropInv(opt, t, ps, idx, k + 1)
  {
    hide Counts;
    assert Reported(opt, ps, idx, k + 1) == Reported(opt, ps, idx, k);
    assert LastKept(opt, ps, k + 1) == LastKept(opt, ps, k);
  }

  /** If the front packet is expected, or taken as the first, what is found before it is in the counter. */
  lemma FrontIsCounted(opt: Options, t: Tracker, ps: seq<Packet>, idx: seq<nat>, k: nat)
    requires Numbered(ps, idx) && k < |ps| && !Skips(opt, ps[k].h)
    requires DropInv(opt, t, ps, idx, k)
    requires t.first || t.expected == ps[k].h.seqNo
    ensures Counts(t.dropped, Reported(opt, ps, idx, k + 1))
  {
    hide Counts, Wire, LastKept;
    if Idle(opt, t, ps, k) || Following(opt, t, ps, idx, k) {
      assert ReportedBefore(opt, ps, idx, k) == 0;
    }
  }

  /** Otherwise it has not been counted, and finding it counts it. */
  lemma GapIsCounted(opt: Options, t: Tracker, ps: seq<Packet>, idx: seq<nat>, k: nat)
    requires Numbered(ps, idx) && k < |ps| && !Skips(opt, ps[k].h)
    requires DropInv(opt, t, ps, idx, k)
    requires !t.first && t.expected != ps[k].h.seqNo
    ensures LastKept(opt, ps, k).Some?
    ensures Counts((t.dropped + DropsReported(t.expected, ps[k].h.seqNo)) % 0x1_0000_0000_0000_0000,
                   Reported(opt, ps, idx, k + 1))
  {
    hide Counts, Wire, LastKept, DropsReported;
    assert Following(opt, t, ps, idx, k);
    AddModulo(t.dropped, Reported(opt, ps, idx, k), ReportedBefore(opt, ps, idx, k));
  }

  lemma AddModulo(a: int, t: int, g: int)
    requires Counts(a, t)
    ensures Counts((a + g) % 0x1_0000_0000_0000_0000, t + g)
  {
  }

  lemma {:induction false} RunKeepsDrops(at: Position, ps: seq<Packet>, idx: seq<nat>, acts: seq<Act>)
    requires Ready(at, ps) && Numbered(ps, idx)
    requires DropInv(at.s.opt, at.s.trk, ps, idx, at.k)
    ensures var r := Run(at, ps, acts); DropInv(at.s.opt, r.s.trk, ps, idx, r.k)
    decreases |acts|
  {
    if acts != [] {
      if acts[0].Pass? && at.k < |ps| {
        PassKeepsDrops(at.s, ps, idx, at.k, acts[0].clockYear);
      }
      hide Offer, DropInv;
      RunKeepsDrops(Next(at, ps, acts[0]), ps, idx, acts[1..]);
    }
  }

  /**
    Whatever is lost, the counter holds the 16-bit differences found so far, each once, early
    returns and SRI updates notwithstanding.
   */
  lemma CounterIsReported(setup: Setup, ps: seq<Packet>, idx: seq<nat>, acts: seq<Act>)
    requires AllUsable(ps) && Numbered(ps, idx)
    ensures var r := Run(Position(Fresh(setup), 0), ps, acts);
            || Counts(r.s.trk.dropped, Reported(setup.opt, ps, idx, r.k))
            || (r.k < |ps| && Counts(r.s.trk.dropped, Reported(setup.opt, ps, idx, r.k + 1)))
  {
    hide DropInv, Reported, Counts, Run, AllUsable, Wire;
    var at := Position(Fresh(setup), 0);
    FreshDrops(setup, ps, idx);
    RunKeepsDrops(at, ps, idx, acts);
    var r := Run(at, ps, acts);
    DropInvCounts(setup.opt, r.s.trk, ps, idx, r.k);
  }

  lemma DropInvCounts(opt: Options, t: Tracker, ps: seq<Packet>, idx: seq<nat>, k: nat)
    requires k <= |ps| == |idx| && DropInv(opt, t, ps, idx, k)
    ensures || Counts(t.dropped, Reported(opt, ps, idx, k))
            || (k < |ps| && Counts(t.dropped, Reported(opt, ps, idx, k + 1)))
  {
    hide Idle, Following, LastKept, Reported, Counts;
  }

  lemma FreshDrops(setup: Setup, ps: seq<Packet>, idx: seq<nat>)
    requires Numbered(ps, idx)
    ensures Fresh(setup).opt == setup.opt && DropInv(setup.opt, Fresh(setup).trk, ps, idx, 0)
  {
  }

  /** What is found before a packet is at most the gap, and all of it exactly if the gap is short. */
  lemma GapFoundIff(opt: Options, ps: seq<Packet>, idx: seq<nat>, k: nat)
    requires k < |ps| && Numbered(ps, idx)
    ensures ReportedBefore(opt, ps, idx, k) <= GapBefore(opt, ps, idx, k)
    ensures ReportedBefore(opt, ps, idx, k) == GapBefore(opt, ps, idx, k) <==> ShortGap(opt, ps, idx, k)
  {
    hide Wire, Gap, DropsReported;
    var last := LastKept(opt, ps, k);
    if last.Some? {
      GapReportedIff(idx[last.value] + 1, idx[k]);
    }
  }

  lemma {:induction false} ReportedIff(opt: Options, ps: seq<Packet>, idx: seq<nat>, k: nat)
    requires k <= |ps| && Numbered(ps, idx)
    ensures Reported(opt, ps, idx, k) <= Total(opt, ps, idx, k)
    ensures Reported(opt, ps, idx, k) == Total(opt, ps, idx, k) <==> ShortGapsUpTo(opt, ps, idx, k)
  {
    hide ReportedBefore, GapBefore, ShortGap, Wire;
    if k > 0 {
      ReportedIff(opt, ps, idx, k - 1);
      GapFoundIff(opt, ps, idx, k - 1);
      assert ShortGapsUpTo(opt, ps, idx, k) <==> ShortGapsUpTo(opt, ps, idx, k - 1) && ShortGap(opt, ps, idx, k - 1);
    }
  }

  lemma ShortGapsReported(opt: Options, ps: seq<Packet>, idx: seq<nat>, k: nat)
    requires k <= |ps| && Numbered(ps, idx) && ShortGaps(opt, ps, idx)
    ensures Reported(opt, ps, idx, k) == Total(opt, ps, idx, k)
  {
    ReportedIff(opt, ps, idx, k);
    hide ShortGap, Reported, Total, Wire;
  }

  /**
    Drop accounting: with gaps shorter than a cycle every gap is counted exactly once, from the
    moment its far side is at the front; once all packets have been consumed the counter holds the
    packets missing and the parity slots among them.
   */
  lemma DropAccounting(setup: Setup, ps: seq<Packet>, idx: seq<nat>, acts: seq<Act>)
    requires AllUsable(ps) && Numbered(ps, idx) && ShortGaps(setup.opt, ps, idx)
    ensures var opt := setup.opt;
            var r := Run(Position(Fresh(setup), 0), ps, acts);
            && (|| Counts(r.s.trk.dropped, Total(opt, ps, idx, r.k))
                || (r.k < |ps| && Counts(r.s.trk.dropped, Total(opt, ps, idx, r.k + 1))))
            && (r.k == |ps| ==>
                  Counts(r.s.trk.dropped, TotalMissing(opt, ps, idx, r.k) + TotalParity(opt, ps, idx, r.k)))
  {
    hide AllUsable, ShortGaps, Wire, Total, TotalMissing, TotalParity, Counts, Run, Reported;
    CounterIsReported(setup, ps, idx, acts);
    var r := Run(Position(Fresh(setup), 0), ps, acts);
    ShortGapsReported(setup.opt, ps, idx, r.k);
    if r.k < |ps| {
      ShortGapsReported(setup.opt, ps, idx, r.k + 1);
    }
    TotalCountsPacketsAndParity(setup.opt, ps, idx, r.k);
  }

  /**
    And only then: once all packets have been consumed the counter holds their number if and only
    if every gap is shorter than a cycle.
   */
  lemma DropsAccountedIff(setup: Setup, ps: seq<Packet>, idx: seq<nat>, acts: seq<Act>)
    requires AllUsable(ps) && Numbered(ps, idx)
    requires Total(setup.opt, ps, idx, |ps|) < 0x1_0000_0000_0000_0000
    requires Run(Position(Fresh(setup), 0), ps, acts).k == |ps|
    ensures Run(Position(Fresh(setup), 0), ps, acts).s.trk.dropped == Total(setup.opt, ps, idx, |ps|)
            <==> ShortGaps(setup.opt, ps, idx)
  {
    hide AllUsable, Total, Run, Reported, Wire;
    CounterIsReported(setup, ps, idx, acts);
    ReportedIff(setup.opt, ps, idx, |ps|);
    hide ShortGapsUpTo;
  }

  /** Nothing lost and nothing skipped: indices follow one another. */
  ghost predicate Lossless(opt: Options, ps: seq<Packet>, idx: seq<nat>) {
    && Numbered(ps, idx)
    && (forall i :: 0 <= i < |ps| ==> !Skips(opt, ps[i].h))
    && forall i :: 0 <= i < |ps| ==> idx[i] == idx[0] + i
  }

  lemma {:induction false} LosslessReported(opt: Options, ps: seq<Packet>, idx: seq<nat>, k: nat)
    requires k <= |ps| && Lossless(opt, ps, idx)
    ensures Reported(opt, ps, idx, k) == 0
  {
    hide Wire;
    if k > 0 {
      LosslessReported(opt, ps, idx, k - 1);
      if k > 1 {
        assert LastKept(opt, ps, k - 1) == Some(k - 2) && idx[k - 1] == idx[k - 2] + 1;
      }
      assert ReportedBefore(opt, ps, idx, k - 1) == 0;
    }
  }

  /** Lockstep: a stream that arrives complete never reports a drop, across any number of wraps. */
  lemma LosslessReportsNothing(setup: Setup, ps: seq<Packet>, idx: seq<nat>, acts: seq<Act>)
    requires AllUsable(ps) && Lossless(setup.opt, ps, idx)
    ensures Run(Position(Fresh(setup), 0), ps, acts).s.trk.dropped == 0
  {
    hide AllUsable, Run, Reported, Wire;
    CounterIsReported(setup, ps, idx, acts);
    var r := Run(Position(Fresh(setup), 0), ps, acts);
    LosslessReported(setup.opt, ps, idx, r.k);
    if r.k < |ps| {
      LosslessReported(setup.opt, ps, idx, r.k + 1);
    }
  }
}
