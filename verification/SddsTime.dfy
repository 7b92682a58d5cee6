/**
  SDDS time: 96-bit fixed point, whole 250 ps ticks in 64 bits and a fraction of a tick in 32.
  The C++ operators work on the two words with explicit carry and borrow.
 */
module SddsTimes {

  type u32 = x: int | 0 <= x < 0x1_0000_0000
  type u64 = x: int | 0 <= x < 0x1_0000_0000_0000_0000

  const TICKS_PER_SECOND := 4_000_000_000

  datatype SddsTime = SddsTime(ps: u64, pf: u32) {

    /** The 96-bit number the two words stand for. */
    function Units(): (v: int)
      ensures 0 <= v < 0x1_0000_0000_0000_0000_0000_0000
    {
      ps * 0x1_0000_0000 + pf
    }

    /** `seconds()`, over the reals. */
    function Seconds(): (s: real)
      ensures s >= 0.0 && (s == 0.0 <==> Units() == 0)
    {
      InSeconds(Units())
    }

    /** `operator<`. */
    predicate Less(t: SddsTime) {
      if ps == t.ps then pf < t.pf else ps < t.ps
    }

    /** `operator+`. */
    function Plus(t: SddsTime): SddsTime {
      var frac := pf + t.pf;
      SddsTime((ps + (t.ps + frac / 0x1_0000_0000)) % 0x1_0000_0000_0000_0000, frac % 0x1_0000_0000)
    }

    /** `operator-`. */
    function Minus(t: SddsTime): SddsTime {
      if pf >= t.pf then
        SddsTime((ps - t.ps) % 0x1_0000_0000_0000_0000, pf - t.pf)
      else
        SddsTime((ps - (t.ps + 1)) % 0x1_0000_0000_0000_0000, (pf - t.pf) % 0x1_0000_0000)
    }
  }

  /** Units of the last place in seconds: there are 4 000 000 000 * 2^32 of them in one. */
  function InSeconds(units: int): real {
    units as real / 17_179_869_184_000_000_000.0
  }

  const ZERO := SddsTime(0, 0)

  /** Reads a 96-bit number back into its two words. */
  function FromUnits(v: int): SddsTime
    requires 0 <= v < 0x1_0000_0000_0000_0000_0000_0000
  {
    SddsTime(v / 0x1_0000_0000, v % 0x1_0000_0000)
  }

  /** The two words and the number they stand for determine each other. */
  lemma UnitsDetermineTime(a: SddsTime, b: SddsTime)
    ensures a.Units() == b.Units() ==> a == b
    ensures FromUnits(a.Units()) == a
  {
  }

  /** `+` adds modulo 2^96: the carry out of the fraction is neither lost nor counted twice. */
  lemma PlusAddsModulo(a: SddsTime, b: SddsTime)
    ensures a.Plus(b).Units() == (a.Units() + b.Units()) % 0x1_0000_0000_0000_0000_0000_0000
  {
    var carry := if a.pf + b.pf >= 0x1_0000_0000 then 1 else 0;
    var low := a.pf + b.pf - carry * 0x1_0000_0000;
    var whole := a.ps + b.ps + carry;
    var over := if whole >= 0x1_0000_0000_0000_0000 then 1 else 0;
    var high := whole - over * 0x1_0000_0000_0000_0000;
    assert a.Plus(b) == SddsTime(high, low);
    ModuloUnique(a.Units() + b.Units(), over, high * 0x1_0000_0000 + low);
  }

  /** `-` subtracts modulo 2^96: the borrow out of the fraction is neither lost nor taken twice. */
  lemma MinusSubtractsModulo(a: SddsTime, b: SddsTime)
    ensures a.Minus(b).Units() == (a.Units() - b.Units()) % 0x1_0000_0000_0000_0000_0000_0000
  {
    var borrow := if a.pf >= b.pf then 0 else 1;
    var low := a.pf - b.pf + borrow * 0x1_0000_0000;
    var whole := a.ps - b.ps - borrow;
    var over := if whole < 0 then -1 else 0;
    var high := whole - over * 0x1_0000_0000_0000_0000;
    assert a.Minus(b) == SddsTime(high, low);
    ModuloUnique(a.Units() - b.Units(), over, high * 0x1_0000_0000 + low);
  }

  lemma ModuloUnique(x: int, k: int, r: int)
    requires x == k * 0x1_0000_0000_0000_0000_0000_0000 + r
    requires 0 <= r < 0x1_0000_0000_0000_0000_0000_0000
    ensures x % 0x1_0000_0000_0000_0000_0000_0000 == r
  {
  }

  /** Subtraction undoes addition for every pair, overflow included. */
  lemma PlusThenMinus(a: SddsTime, b: SddsTime)
    ensures a.Plus(b).Minus(b) == a
  {
    var sum := a.Plus(b);
    var back := sum.Minus(b);
    PlusAddsModulo(a, b);
    MinusSubtractsModulo(sum, b);
    ModuloRestore(a.Units(), -b.Units(), sum.Units());
    UnitsDetermineTime(back, a);
  }

  /** Addition undoes subtraction, also where the difference is negative. */
  lemma MinusThenPlus(a: SddsTime, b: SddsTime)
    ensures a.Minus(b).Plus(b) == a
  {
    var difference := a.Minus(b);
    var back := difference.Plus(b);
    MinusSubtractsModulo(a, b);
    PlusAddsModulo(difference, b);
    ModuloRestore(a.Units(), b.Units(), difference.Units());
    UnitsDetermineTime(back, a);
  }

  lemma ModuloRestore(x: int, y: int, z: int)
    requires 0 <= x < 0x1_0000_0000_0000_0000_0000_0000
    requires -0x1_0000_0000_0000_0000_0000_0000 < y < 0x1_0000_0000_0000_0000_0000_0000
    requires z == (x - y) % 0x1_0000_0000_0000_0000_0000_0000
    ensures (z + y) % 0x1_0000_0000_0000_0000_0000_0000 == x
  {
    var k := if x - y >= 0x1_0000_0000_0000_0000_0000_0000 then 1 else if x - y < 0 then -1 else 0;
    ModuloUnique(x - y, k, x - y - k * 0x1_0000_0000_0000_0000_0000_0000);
    ModuloUnique(z + y, -k, x);
  }

  /** The order on words is the order on the numbers, hence on seconds. */
  lemma LessIsNumeric(a: SddsTime, b: SddsTime)
    ensures a.Less(b) <==> a.Units() < b.Units()
    ensures a.Less(b) <==> a.Seconds() < b.Seconds()
  {
    var u, v := a.Units(), b.Units();
    assert a.Less(b) <==> u < v;
    if u < v {
      SecondsMonotone(u, v);
    } else if v < u {
      SecondsMonotone(v, u);
    }
  }

  lemma SecondsMonotone(u: int, v: int)
    requires u < v
    ensures InSeconds(u) < InSeconds(v)
  {
  }

  /** The in-place operators, on an object whose two words are updated one after the other. */
  class TimeCell {
    var ps: u64
    var pf: u32

    constructor (t: SddsTime)
      ensures Value() == t
    {
      ps, pf := t.ps, t.pf;
    }

    function Value(): SddsTime
      reads this
    {
      SddsTime(ps, pf)
    }

    /** `operator+=`; the operand may be the object itself. */
    method AddInPlace(other: TimeCell)
      modifies this
      ensures Value() == old(Value()).Plus(old(other.Value()))
    {
      var frac := pf + other.pf;
      ps := (ps + (other.ps + frac / 0x1_0000_0000)) % 0x1_0000_0000_0000_0000;
      pf := frac % 0x1_0000_0000;
    }

    /** `operator-=`; the operand may be the object itself. */
    method SubtractInPlace(other: TimeCell)
      modifies this
      ensures Value() == old(Value()).Minus(old(other.Value()))
    {
      if pf >= other.pf {
        pf := pf - other.pf;
        ps := (ps - other.ps) % 0x1_0000_0000_0000_0000;
      } else {
        pf := (pf - other.pf) % 0x1_0000_0000;
        ps := (ps - (other.ps + 1)) % 0x1_0000_0000_0000_0000;
      }
    }
  }
}
