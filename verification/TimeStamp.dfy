/** The BulkIO time stamp of a packet: whole seconds since the epoch and a fraction. */
module TimeStamps {

  import opened SddsTimes

  datatype Stamp = Stamp(valid: bool, twsec: real, tfsec: real)

  /** Whole seconds in a time. */
  function WholeSeconds(t: SddsTime): nat {
    t.ps / TICKS_PER_SECOND
  }

  /**
    `getBulkIOTimeStamp`. Time running backwards means the year has rolled over, and the start of
    the year is read again from the clock, which says `clockYear`.
   */
  function StampOf(t: SddsTime, ttv: bool, last: SddsTime, startOfYear: int, clockYear: int): (r: (Stamp, int)) {
    var fracInt := t.ps % TICKS_PER_SECOND;
    var secsInt := t.ps - fracInt;
    var fracFlt := fracInt as real / 4_000_000_000.0;
    var secsFlt := secsInt as real / 4_000_000_000.0;
    var extFlt := InSeconds(t.pf);
    var year := if t.Less(last) then clockYear else startOfYear;
    (Stamp(ttv, secsFlt + year as real, fracFlt + extFlt), year)
  }

  /**
    The whole part is a whole number of seconds after the start of the year, the fraction is
    below one second, and nothing is lost between them.
   */
  lemma StampIsExact(t: SddsTime, ttv: bool, last: SddsTime, startOfYear: int, clockYear: int)
    ensures var (s, year) := StampOf(t, ttv, last, startOfYear, clockYear);
            && s.twsec - year as real == WholeSeconds(t) as real
            && 0.0 <= s.tfsec < 1.0
            && (s.twsec - year as real) + s.tfsec == t.Seconds()
            && year == (if t.Less(last) then clockYear else startOfYear)
            && s.valid == ttv
  {
    var whole, frac := t.ps / TICKS_PER_SECOND, t.ps % TICKS_PER_SECOND;
    assert t.ps - frac == whole * TICKS_PER_SECOND;
    assert (whole * TICKS_PER_SECOND) as real / 4_000_000_000.0 == whole as real;
    FractionBelowOne(frac, t.pf);
    assert t.Units() == whole * 17_179_869_184_000_000_000 + (frac * 0x1_0000_0000 + t.pf);
    SplitSeconds(whole, frac * 0x1_0000_0000 + t.pf);
  }

  lemma FractionBelowOne(frac: nat, pf: u32)
    requires frac < TICKS_PER_SECOND
    ensures var f := frac as real / 4_000_000_000.0 + InSeconds(pf);
            f == InSeconds(frac * 0x1_0000_0000 + pf) && 0.0 <= f < 1.0
  {
  }

  lemma SplitSeconds(whole: nat, units: nat)
    ensures InSeconds(whole * 17_179_869_184_000_000_000 + units) == whole as real + InSeconds(units)
  {
  }

  predicate Earlier(a: Stamp, b: Stamp) {
    a.twsec < b.twsec || (a.twsec == b.twsec && a.tfsec < b.tfsec)
  }

  /** Within one year stamps are ordered exactly as the packet times are. */
  lemma StampsKeepOrder(a: SddsTime, b: SddsTime, ttvA: bool, ttvB: bool, year: int)
    ensures Earlier(StampOf(a, ttvA, ZERO, year, year).0, StampOf(b, ttvB, ZERO, year, year).0) <==> a.Less(b)
  {
    StampIsExact(a, ttvA, ZERO, year, year);
    StampIsExact(b, ttvB, ZERO, year, year);
    LessIsNumeric(a, b);
    var x, y := StampOf(a, ttvA, ZERO, year, year).0, StampOf(b, ttvB, ZERO, year, year).0;
    if x.twsec < y.twsec {
      assert WholeSeconds(a) + 1 <= WholeSeconds(b);
    } else if x.twsec > y.twsec {
      assert WholeSeconds(b) + 1 <= WholeSeconds(a);
    }
  }
}
