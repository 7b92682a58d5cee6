/**
  CPU affinity masks: a hexadecimal string names a 64-bit mask, and the mask a set of processors.
  The source visits every index the processor set can hold and asks a wrapping power of two for
  the bit, which is why indices past the mask's width contribute nothing.
 */
module Affinity {

  import opened Arithmetic
  import opened Bits
  import opened SddsTimes
  import opened Processor

  const WRAP := 0x1_0000_0000_0000_0000
  const CPU_SETSIZE := 1024

  // ---- Powers modulo 2^64 -----------------------------------------------------------------------

  lemma {:induction false} ReduceBase(b: nat, e: nat, m: nat)
    requires m > 0
    ensures Pow(b % m, e) % m == Pow(b, e) % m
  {
    if e > 0 {
      ReduceBase(b, e - 1, m);
      ReduceStep(b, Pow(b % m, e - 1), Pow(b, e - 1), m);
    }
  }

  lemma ReduceStep(b: nat, p: nat, q: nat, m: nat)
    requires m > 0 && p % m == q % m
    ensures (b % m) * p % m == b * q % m
  {
    ReduceFactor(b, p, m);
    ReduceFactor(p, b, m);
    ReduceFactor(q, b, m);
    assert p * b == b * p && q * b == b * q;
  }

  lemma {:induction false} PowOfSquare(b: nat, e: nat)
    ensures Pow(b * b, e) == Pow(b, 2 * e)
  {
    if e > 0 {
      PowOfSquare(b, e - 1);
      assert Pow(b, 2 * e) == b * (b * Pow(b, 2 * (e - 1)));
    }
  }

  /** One round of square and multiply, with both products wrapped. */
  lemma SquareAndMultiply(result: nat, b: nat, e: nat, m: nat)
    requires e > 0 && m > 0
    ensures var r := if e % 2 == 1 then result * b % m else result;
            r * Pow(b * b % m, e / 2) % m == result * Pow(b, e) % m
  {
    var h := e / 2;
    var x := if e % 2 == 1 then result * b else result;
    var p, q := Pow(b * b % m, h), Pow(b * b, h);
    PowOfSquare(b, h);
    ReduceBase(b * b, h, m);
    assert e % 2 == 1 ==> Pow(b, e) == b * q;
    hide Pow;
    OddFactor(result, b, q);
    WrappedProduct(x, p, q, m);
    assert x % m * p % m == x * p % m by { ReduceFactor(x, p, m); }
  }

  lemma OddFactor(result: nat, b: nat, q: nat)
    ensures (result * b) * q == result * (b * q)
  {
  }

  lemma WrappedProduct(x: nat, p: nat, q: nat, m: nat)
    requires m > 0 && p % m == q % m
    ensures x * p % m == x * q % m
  {
    ReduceFactor(p, x, m);
    ReduceFactor(q, x, m);
  }

  /** `ipow`: the power, modulo 2^64. */
  method IPow(base: u64, exp: u64) returns (result: u64)
    ensures result == Pow(base, exp) % WRAP
  {
    result := 1;
    var b: u64, e: u64 := base, exp;
    while e != 0
      invariant result * Pow(b, e) % WRAP == Pow(base, exp) % WRAP
      decreases e
    {
      SquareAndMultiply(result, b, e, WRAP);
      if e % 2 == 1 {
        result := result * b % WRAP;
      }
      e := e / 2;
      b := b * b % WRAP;
    }
  }

  lemma WordSize()
    ensures Pow(2, 64) == WRAP
  {
    assert Pow(2, 8) == 256;
    PowersMultiply(8, 8);
    PowersMultiply(16, 16);
    PowersMultiply(32, 32);
  }

  /** A wrapped power of two is the power inside the word and nothing outside it. */
  lemma WrappedPower(j: nat)
    ensures Pow(2, j) % WRAP == if j < 64 then Pow(2, j) else 0
  {
    WordSize();
    hide Pow;
    if j < 64 {
      PowersGrow(j, 64);
    } else {
      PowersMultiply(64, j - 64);
      RemainderOf(Pow(2, j - 64), 0, WRAP);
      assert Pow(2, j - 64) * WRAP + 0 == Pow(2, j);
    }
  }

  // ---- Masks and processor sets -----------------------------------------------------------------

  /** The processors a mask names. */
  function Cpus(mask: u64): set<nat> {
    set j: nat | j < 64 && Bit(mask, j)
  }

  /** The loop of `setAffinity`, over all indices of the processor set. */
  method CpusOf(mask: u64) returns (cpus: set<nat>)
    ensures cpus == Cpus(mask)
  {
    cpus := {};
    for j := 0 to CPU_SETSIZE
      invariant cpus == set i: nat | i < j && i < 64 && Bit(mask, i)
    {
      var p := IPow(2, j);
      WrappedPower(j);
      AndPower(j, mask);
      if And(p, mask) != 0 {
        cpus := cpus + {j};
      }
    }
  }

  /** The loop of `getAffinity`: processors past the mask's width are lost. */
  method MaskOf(cpus: set<nat>) returns (mask: u64)
    ensures Cpus(mask) == set j | j in cpus && j < 64
  {
    mask := 0;
    forall i: nat ensures !Bit(0, i) {
      NoBits(i);
    }
    for j := 0 to CPU_SETSIZE
      invariant forall i: nat :: Bit(mask, i) <==> i < j && i < 64 && i in cpus
    {
      if j in cpus {
        var p := IPow(2, j);
        mask := WithPower(mask, j, p);
      }
    }
  }

  /** The mask with bit j set, if it has one. */
  function WithPower(mask: u64, j: nat, p: u64): (r: u64)
    requires p == Pow(2, j) % WRAP
    ensures forall i: nat :: Bit(r, i) <==> Bit(mask, i) || (i == j && j < 64)
  {
    OrPower(mask, j);
    Or(mask, p)
  }

  lemma OrPower(mask: u64, j: nat)
    ensures var r := Or(mask, Pow(2, j) % WRAP);
            r < WRAP && forall i: nat :: Bit(r, i) <==> Bit(mask, i) || (i == j && j < 64)
  {
    var p := Pow(2, j) % WRAP;
    WordSize();
    OrBelow(mask, p, 64);
    WrappedPower(j);
    forall i: nat
      ensures Bit(Or(mask, p), i) <==> Bit(mask, i) || (i == j && j < 64)
    {
      OrBits(mask, p, i);
      PowerBit(j, i);
      NoBits(i);
    }
  }

  /** Masks and sets of the first 64 processors correspond one to one, so rebuilding the mask returns it. */
  lemma MaskIsItsCpus(a: u64, b: u64)
    ensures Cpus(a) == Cpus(b) <==> a == b
  {
    if Cpus(a) == Cpus(b) {
      WordSize();
      forall j: nat | j < 64
        ensures Bit(a, j) <==> Bit(b, j)
      {
        assert j in Cpus(a) <==> j in Cpus(b);
      }
      BitsDetermine(a, b, 64);
    }
  }

  // ---- Hexadecimal ------------------------------------------------------------------------------

  predicate IsHexDigit(c: char) {
    '0' <= c <= '9' || 'a' <= c <= 'f' || 'A' <= c <= 'F'
  }

  function DigitValue(c: char): (v: nat)
    requires IsHexDigit(c)
    ensures v < 16
  {
    if c <= '9' then c as int - '0' as int
    else if c <= 'F' then c as int - 'A' as int + 10
    else c as int - 'a' as int + 10
  }

  predicate AllHex(s: string) {
    forall i :: 0 <= i < |s| ==> IsHexDigit(s[i])
  }

  function HexValue(s: string): nat
    requires AllHex(s)
  {
    if s == [] then 0 else 16 * HexValue(s[..|s| - 1]) + DigitValue(s[|s| - 1])
  }

  /** `ConvertString<uint64_t>`: no prefix, no sign, no space, and nothing that does not fit. */
  method ConvertString(data: string) returns (success: bool, value: u64)
    ensures success <==> data != [] && AllHex(data) && HexValue(data) < WRAP
    ensures value == if success then HexValue(data) else 0
  {
    if data == [] {
      return false, 0;
    }
    for i := 0 to |data|
      invariant AllHex(data[..i])
    {
      if !IsHexDigit(data[i]) {
        return false, 0;
      }
    }
    assert data[..|data|] == data;
    var ret := HexValue(data);
    if ret >= WRAP {
      return false, 0;
    }
    return true, ret;
  }

  function UpperDigit(v: nat): (c: char)
    requires v < 16
    ensures IsHexDigit(c) && DigitValue(c) == v && !('a' <= c <= 'f')
  {
    "0123456789ABCDEF"[v]
  }

  /** `std::uppercase << std::hex`. */
  function Hex(x: nat): (s: string) {
    if x < 16 then [UpperDigit(x)] else Hex(x / 16) + [UpperDigit(x % 16)]
  }

  /** Upper-case digits without leading zeros, as the stream writes them. */
  predicate Canonical(s: string) {
    s != [] && AllHex(s) && (forall i :: 0 <= i < |s| ==> !('a' <= s[i] <= 'f')) && (s[0] == '0' ==> |s| == 1)
  }

  /** Reading what was written gives the number back, and what is written is canonical. */
  lemma {:induction false} HexRoundTrip(x: nat)
    ensures Canonical(Hex(x)) && HexValue(Hex(x)) == x
    ensures x > 0 ==> Hex(x)[0] != '0'
  {
    if x < 16 {
      assert Hex(x)[..0] == [];
      assert HexValue([]) == 0;
    } else {
      HexRoundTrip(x / 16);
      assert Hex(x)[..|Hex(x)| - 1] == Hex(x / 16);
    }
  }

  lemma {:induction false} ValuePositive(s: string)
    requires s != [] && AllHex(s) && s[0] != '0'
    ensures HexValue(s) > 0
    decreases |s|
  {
    if |s| > 1 {
      ValuePositive(s[..|s| - 1]);
    }
  }

  lemma {:induction false} WriteCanonical(s: string)
    requires Canonical(s)
    ensures Hex(HexValue(s)) == s
    decreases |s|
  {
    hide Hex, HexValue, Canonical;
    assert AllHex(s) && s != [] by { CanonicalIsHex(s); }
    if |s| == 1 {
      WriteDigit(s);
    } else {
      var n := |s| - 1;
      CanonicalFront(s);
      ValuePositive(s[..n]);
      WriteCanonical(s[..n]);
      HexAppend(HexValue(s[..n]), DigitValue(s[n]));
      LastDigit(s);
      assert s == s[..n] + [s[n]];
    }
  }

  lemma CanonicalIsHex(s: string)
    requires Canonical(s)
    ensures AllHex(s) && s != []
  {
  }

  lemma LastDigit(s: string)
    requires s != [] && AllHex(s)
    ensures HexValue(s) == 16 * HexValue(s[..|s| - 1]) + DigitValue(s[|s| - 1])
  {
  }

  lemma WriteDigit(s: string)
    requires Canonical(s) && |s| == 1
    ensures Hex(HexValue(s)) == s
  {
    assert s[..0] == [] && s == [s[0]];
  }

  lemma CanonicalFront(s: string)
    requires Canonical(s) && |s| > 1
    ensures var n := |s| - 1;
            && Canonical(s[..n]) && s[..n][0] != '0'
            && IsHexDigit(s[n]) && UpperDigit(DigitValue(s[n])) == s[n]
  {
  }

  lemma HexAppend(v: nat, digit: nat)
    requires v > 0 && digit < 16
    ensures Hex(16 * v + digit) == Hex(v) + [UpperDigit(digit)]
  {
    assert (16 * v + digit) / 16 == v && (16 * v + digit) % 16 == digit;
  }

  /** Writing what was read gives the string back exactly if it is canonical. */
  lemma ReadThenWrite(s: string)
    requires s != [] && AllHex(s)
    ensures Hex(HexValue(s)) == s <==> Canonical(s)
  {
    HexRoundTrip(HexValue(s));
    if Canonical(s) {
      WriteCanonical(s);
    }
  }

  /** A digit in upper case. */
  function UpperCase(c: char): char {
    if 'a' <= c <= 'f' then c - 'a' + 'A' else c
  }

  function UpperCased(s: string): (r: string)
    ensures |r| == |s| && forall i :: 0 <= i < |s| ==> r[i] == UpperCase(s[i])
  {
    seq(|s|, i requires 0 <= i < |s| => UpperCase(s[i]))
  }

  /** Without leading zeros, but with one digit left. */
  function Trimmed(s: string): (r: string)
    ensures |r| > 0 <==> |s| > 0
  {
    if |s| > 1 && s[0] == '0' then Trimmed(s[1..]) else s
  }

  /** Case makes no difference, neither to what is a number nor to its value. */
  lemma {:induction false} CaseIsIgnored(s: string)
    ensures AllHex(s) <==> AllHex(UpperCased(s))
    ensures AllHex(s) ==> HexValue(UpperCased(s)) == HexValue(s)
  {
    forall i | 0 <= i < |s|
      ensures IsHexDigit(s[i]) <==> IsHexDigit(UpperCased(s)[i])
    {
    }
    if s != [] && AllHex(s) {
      var front := s[..|s| - 1];
      CaseIsIgnored(front);
      assert UpperCased(s)[..|s| - 1] == UpperCased(front);
    }
  }

  /** Nor does a zero in front. */
  lemma {:induction false} ZeroInFront(s: string)
    requires AllHex(s) && s != [] && s[0] == '0'
    ensures AllHex(s[1..]) && HexValue(s[1..]) == HexValue(s)
    decreases |s|
  {
    if |s| > 1 {
      var front := s[..|s| - 1];
      ZeroInFront(front);
      assert front[1..] == s[1..][..|s| - 2];
    } else {
      assert s[..0] == [] && s[1..] == [];
    }
  }

  lemma {:induction false} TrimmedIsCanonical(s: string)
    requires s != [] && AllHex(s) && forall i :: 0 <= i < |s| ==> !('a' <= s[i] <= 'f')
    ensures Canonical(Trimmed(s)) && HexValue(Trimmed(s)) == HexValue(s)
    decreases |s|
  {
    if |s| > 1 && s[0] == '0' {
      ZeroInFront(s);
      TrimmedIsCanonical(s[1..]);
    }
  }

  /** What is written for what was read is the same in upper case and without leading zeros. */
  lemma ReadThenWritten(s: string)
    requires s != [] && AllHex(s)
    ensures Hex(HexValue(s)) == Trimmed(UpperCased(s))
  {
    CaseIsIgnored(s);
    TrimmedIsCanonical(UpperCased(s));
    WriteCanonical(Trimmed(UpperCased(s)));
  }

  /** `setAffinity`: the set asked of the system, unless the string is refused. */
  method SetAffinity(strMask: string) returns (cpus: Option<set<nat>>)
    ensures cpus ==
              if strMask != [] && AllHex(strMask) && HexValue(strMask) < WRAP then Some(Cpus(HexValue(strMask)))
              else None
  {
    var success, mask := ConvertString(strMask);
    if !success {
      return None;
    }
    var named := CpusOf(mask);
    return Some(named);
  }

  /** `getAffinity`: the string for the set the system reports. */
  method GetAffinity(cpus: set<nat>) returns (s: string)
    ensures exists mask: u64 :: s == Hex(mask) && Cpus(mask) == set j | j in cpus && j < 64
  {
    var mask := MaskOf(cpus);
    return Hex(mask);
  }

  /**
    What `getAffinity` reports for what a string asked for is that string in upper case without
    leading zeros, so the string itself if it is canonical.
   */
  lemma AffinityRoundTrip(asked: string, mask: u64)
    requires asked != [] && AllHex(asked) && HexValue(asked) < WRAP
    requires Cpus(mask) == set j | j in Cpus(HexValue(asked)) && j < 64
    ensures Hex(mask) == Trimmed(UpperCased(asked))
    ensures Hex(mask) == asked <==> Canonical(asked)
    ensures AllHex(Hex(mask)) && HexValue(Hex(mask)) == HexValue(asked)
  {
    assert Cpus(mask) == Cpus(HexValue(asked));
    MaskIsItsCpus(mask, HexValue(asked));
    ReadThenWrite(asked);
    ReadThenWritten(asked);
    HexRoundTrip(mask);
  }
}
