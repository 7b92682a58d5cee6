/**
  The SDDS packet: the header fields the component reads, the payload, and the accessors that
  convert between network byte order in the buffer and host values.
 */
module SddsPackets {

  import opened ByteOrder
  import opened SddsTimes
  import opened SequenceCounter

  const PAYLOAD := 1024

  /** The header as the accessors report it. `freq` is the clock field in units of 125 MHz / 2^63. */
  datatype Header = Header(seqNo: u16, ttv: bool, time: SddsTime, bps: nat, cx: bool, vw: bool, freq: u64)

  datatype Packet = Packet(h: Header, d: seq<byte>)

  ghost predicate WellFormed(p: Packet) {
    p.h.bps < 32 && |p.d| == PAYLOAD
  }

  /** `getBps`: the five-bit field cannot hold 32, so 31 stands for it. */
  function BitsPerSample(h: Header): nat {
    if h.bps == 31 then 32 else h.bps
  }

  const FREQ_UNIT: real := 125_000_000.0 / 9_223_372_036_854_775_808.0

  /** `get_rate`, over the reals. */
  function Rate(h: Header): (r: real)
    ensures r >= 0.0 && (r == 0.0 <==> h.freq == 0)
  {
    h.freq as real * FREQ_UNIT * (if h.vw then 16.0 else 1.0) * (if h.cx then 0.5 else 1.0)
  }

  /**
    What fixes the rate: it is proportional to the clock field, 2^63 is 125 MHz for real samples,
    wide headers count sixteen times as much, and complex ones half.
   */
  lemma RateLaws(h: Header, f: u64)
    ensures Rate(Header(h.seqNo, h.ttv, h.time, h.bps, false, false, 0x8000_0000_0000_0000)) == 125_000_000.0
    ensures Rate(h.(freq := f)) * h.freq as real == Rate(h) * f as real
    ensures Rate(h.(vw := true)) == 16.0 * Rate(h.(vw := false))
    ensures 2.0 * Rate(h.(cx := true)) == Rate(h.(cx := false))
  {
    assert 9_223_372_036_854_775_808.0 * FREQ_UNIT == 125_000_000.0;
  }

  /** Twice the rate of a complex stream is what the clock field has to hold. */
  function ClockFor(h: Header, val: real): real {
    if h.cx then val * 2.0 else val
  }

  /** The header after `set_rate(val)`. */
  function WithRate(h: Header, val: real): Header
    requires 0.0 <= ClockFor(h, val) < 4_000_000_000.0
  {
    var w := ClockFor(h, val);
    var vw := !(w < 125_000_000.0);
    h.(vw := vw, freq := FreqField(if vw then w * 0.0625 else w))
  }

  /** The clock field for a clock below 250 MHz. */
  function FreqField(w: real): (f: u64)
    requires 0.0 <= w < 250_000_000.0
    ensures f as real * FREQ_UNIT <= w < (f + 1) as real * FREQ_UNIT
    ensures f < 0x8000_0000_0000_0000 <==> w < 125_000_000.0
  {
    var x := w / FREQ_UNIT;
    assert x * FREQ_UNIT == w;
    assert x < 0x1_0000_0000_0000_0000 as real;
    x.Floor
  }

  /**
    Reading a rate back gives it rounded down to the resolution of the field, which is sixteen
    times coarser at 125 MHz and above and twice as fine for complex data. The field fits in
    63 bits exactly below 2 GHz.
   */
  lemma RateRoundTrip(h: Header, val: real)
    requires 0.0 <= ClockFor(h, val) < 4_000_000_000.0
    ensures var r := WithRate(h, val);
            && r.cx == h.cx
            && (r.vw <==> ClockFor(h, val) >= 125_000_000.0)
            && Rate(r) <= val < Rate(r) + FREQ_UNIT * (if r.vw then 16.0 else 1.0) * (if r.cx then 0.5 else 1.0)
            && (r.freq < 0x8000_0000_0000_0000 <==> ClockFor(h, val) < 2_000_000_000.0)
  {
    var r := WithRate(h, val);
    var f := r.freq as real;
    assert (r.freq + 1) as real * FREQ_UNIT == f * FREQ_UNIT + FREQ_UNIT;
  }

  /** `ntohs` and `htons`, `ntohl` and `htonl`, `swap8`: what lies in network order as the host reads it, and back. */
  function Net16(x: u16): (r: u16)
    ensures Swap(r, 2) == x && r == Spelled(ToMemory(x, 2))
  {
    SwapSpells(x, 2);
    WordSizes();
    SwapInvolution(x, 2);
    Swap(x, 2)
  }

  function Net32(x: u32): (r: u32)
    ensures Swap(r, 4) == x && r == Spelled(ToMemory(x, 4))
  {
    SwapSpells(x, 4);
    WordSizes();
    SwapInvolution(x, 4);
    Swap(x, 4)
  }

  function Swap8(x: u64): (r: u64)
    ensures Swap(r, 8) == x && r == Spelled(ToMemory(x, 8))
  {
    SwapSpells(x, 8);
    WordSizes();
    SwapInvolution(x, 8);
    Swap(x, 8)
  }

  /** The bytes in the buffer are those of the value in reverse. */
  lemma NetReverses(x: u16, y: u32, z: u64)
    ensures ToMemory(Net16(x), 2) == Reversed(ToMemory(x, 2))
    ensures ToMemory(Net32(y), 4) == Reversed(ToMemory(y, 4))
    ensures ToMemory(Swap8(z), 8) == Reversed(ToMemory(z, 8))
  {
    WordSizes();
    SwapInvolution(x, 2);
    SwapInvolution(y, 4);
    SwapInvolution(z, 8);
    hide Swap, ToMemory, Pow256;
  }

  /** The time-tag-valid bit of the raw flag word. */
  predicate TtvBit(word: u16) {
    word / 64 % 2 == 1
  }

  /** The flag word with the time-tag-valid bit set or cleared and every other bit kept. */
  function WithTtv(word: u16, flag: bool): (r: u16)
    ensures TtvBit(r) == flag
    ensures r % 64 == word % 64 && r / 128 == word / 128
  {
    var high, low := word / 128, word % 64;
    var r := 128 * high + (if flag then 64 + low else low);
    assert r / 128 == high && r / 64 == 2 * high + (if flag then 1 else 0);
    r
  }

  /** A packet buffer: raw fields in network byte order and the payload bytes. */
  class SddsPacket {
    var seqRaw: u16
    var msptr: u16
    var ttag: u64
    var ttage: u32
    var freqRaw: u64
    var bps: nat
    var cx: bool
    var vw: bool
    const d: array<byte>

    constructor ()
      ensures d.Length == PAYLOAD && fresh(d)
    {
      d := new byte[PAYLOAD](_ => 0);
      seqRaw, msptr, ttag, ttage, freqRaw, bps, cx, vw := 0, 0, 0, 0, 0, 0, false, false;
    }

    function GetHeader(): Header
      reads this
    {
      Header(Net16(seqRaw), TtvBit(msptr), SddsTime(Swap8(ttag), Net32(ttage)), bps, cx, vw, Swap8(freqRaw))
    }

    /** Each number in the header is what the bytes of its field spell, the most significant one first. */
    lemma HeaderSpells()
      ensures var h := GetHeader();
              && h.seqNo == Spelled(ToMemory(seqRaw, 2)) && h.freq == Spelled(ToMemory(freqRaw, 8))
              && h.time.ps == Spelled(ToMemory(ttag, 8)) && h.time.pf == Spelled(ToMemory(ttage, 4))
    {
      hide Spelled, ToMemory;
    }

    function Contents(): Packet
      reads this, d
    {
      Packet(GetHeader(), d[..])
    }

    method SetSeq(val: u16)
      modifies this
      ensures GetHeader() == old(GetHeader()).(seqNo := val)
    {
      seqRaw := Net16(val);
    }

    method SetTtv(flag: bool)
      modifies this
      ensures GetHeader() == old(GetHeader()).(ttv := flag)
      ensures msptr % 64 == old(msptr) % 64 && msptr / 128 == old(msptr) / 128
    {
      msptr := WithTtv(msptr, flag);
    }

    method SetTime(t: SddsTime)
      modifies this
      ensures GetHeader() == old(GetHeader()).(time := t)
    {
      ttag := Swap8(t.ps);
      ttage := Net32(t.pf);
    }

    method SetRate(val: real)
      requires 0.0 <= ClockFor(GetHeader(), val) < 4_000_000_000.0
      modifies this
      ensures GetHeader() == WithRate(old(GetHeader()), val)
    {
      hide Net16, Net32;
      var w := val;
      if cx {
        w := w * 2.0;
      }
      if w < 125_000_000.0 {
        vw := false;
      } else {
        vw := true;
        w := w * 0.0625;
      }
      freqRaw := Swap8(FreqField(w));
    }
  }

  /** Real samples, no time tag: a header of which only the number, the width and the rate matter. */
  function Plain(seqNo: u16, bps: nat, freq: u64): Header {
    Header(seqNo, false, ZERO, bps, false, false, freq)
  }

  /** 7.45 Hz and twice that, in units of the clock field. */
  const SLOW: u64 := 0x80_0000_0000
  const FAST: u64 := 0x100_0000_0000
}
