/**
  The 16-bit SDDS frame sequence counter. It counts 0, 1, ..., 30, 32, ...: every value equal
  to 31 modulo 32 is reserved for a parity packet that is never sent. The receiver keeps the
  number it expects next; the sender in `sddsShooter.c` generates the numbers. Packets are
  identified here by their index 0, 1, 2, ... in the order the sender emits them.
 */
module SequenceCounter {

  type u16 = x: int | 0 <= x < 0x1_0000

  /** How many distinct sequence numbers there are: 65536 less one in every thirty-two. */
  const CYCLE: nat := 63488

  /** The unwrapped number of the packet with the given index: a slot is skipped every 31 packets. */
  function Slot(n: nat): nat {
    n + n / 31
  }

  /** The number on the wire of the packet with the given index. */
  function Wire(n: nat): u16 {
    Slot(n) % 0x1_0000
  }

  /** What the receiver does to its expected number once a packet is done with. */
  function Successor(q: u16): u16 {
    var next := (q + 1) % 0x1_0000;
    if next != 0 && next % 32 == 31 then (next + 1) % 0x1_0000 else next
  }

  /** The index below CYCLE that carries the given number. */
  function IndexOf(v: u16): nat {
    v - v / 32
  }

  /** What is added to the drop counter when `received` arrives in place of `expected`. */
  function DropsReported(expected: u16, received: u16): u16 {
    (received - expected) % 0x1_0000
  }

  /** Unwrapped slots from index h up to index g. */
  function Gap(h: nat, g: nat): int {
    (g - h) + (g / 31 - h / 31)
  }

  /** The slots in [lo, hi) that are reserved for a parity packet. */
  function ParitySlots(lo: nat, hi: nat): nat
    requires lo <= hi
  {
    if lo == hi then 0 else ParitySlots(lo, hi - 1) + if (hi - 1) % 32 == 31 then 1 else 0
  }

  lemma SlotForm(n: nat)
    ensures Slot(n) == 32 * (n / 31) + n % 31
    ensures Slot(n) / 32 == n / 31 && Slot(n) % 32 == n % 31
    ensures Wire(n) == 32 * ((n / 31) % 2048) + n % 31
    ensures Wire(n) % 32 == n % 31 && Wire(n) / 32 == (n / 31) % 2048
  {
    var q, r := n / 31, n % 31;
    assert Slot(n) == 32 * q + r;
    Remainder(32 * q + r, q / 2048, 32 * (q % 2048) + r, 0x1_0000);
  }

  lemma Remainder(x: int, k: int, r: int, m: int)
    requires m in {0x1_0000, 63488} && x == k * m + r && 0 <= r < m
    ensures x % m == r
  {
  }

  lemma SuccessorDigits(block: nat, r: nat)
    requires block < 2048 && r <= 30
    ensures Successor(32 * block + r) ==
            if r < 30 then 32 * block + r + 1 else if block == 2047 then 0 else 32 * (block + 1)
  {
  }

  /** The counter steps from the number of one packet to the number of the next, across wraps. */
  lemma SuccessorOfWire(n: nat)
    ensures Successor(Wire(n)) == Wire(n + 1)
  {
    hide Wire, Slot, Successor;
    SlotForm(n);
    SlotForm(n + 1);
    SuccessorDigits((n / 31) % 2048, n % 31);
    NextIndex(n);
    NextBlock(n / 31);
  }

  lemma NextIndex(n: nat)
    ensures (n + 1) / 31 == n / 31 + (if n % 31 == 30 then 1 else 0)
    ensures (n + 1) % 31 == if n % 31 == 30 then 0 else n % 31 + 1
  {
  }

  lemma NextBlock(q: nat)
    ensures (q + 1) % 2048 == if q % 2048 == 2047 then 0 else q % 2048 + 1
  {
  }

  /** The expected number after k packets in a row. */
  function Advance(q: u16, k: nat): u16 {
    if k == 0 then q else Successor(Advance(q, k - 1))
  }

  /** After k in-order packets starting at index j the expected number is that of index j + k. */
  lemma {:induction false} InOrderClosedForm(j: nat, k: nat)
    ensures Advance(Wire(j), k) == Wire(j + k)
  {
    if k > 0 {
      InOrderClosedForm(j, k - 1);
      SuccessorOfWire(j + k - 1);
    }
  }

  lemma SlotPeriod(n: nat, k: nat)
    ensures Slot(n + k * CYCLE) == Slot(n) + k * 0x1_0000
  {
    assert k * CYCLE == 31 * (2048 * k);
    assert (n + 31 * (2048 * k)) / 31 == n / 31 + 2048 * k;
  }

  /** Two indices share a number exactly when they differ by whole cycles. */
  lemma WireCollision(m: nat, n: nat)
    ensures Wire(m) == Wire(n) <==> m % CYCLE == n % CYCLE
  {
    SlotForm(m);
    SlotForm(n);
    CycleForm(m);
    CycleForm(n);
  }

  lemma CycleForm(n: nat)
    ensures n % CYCLE == 31 * ((n / 31) % 2048) + n % 31
  {
    var q, r := n / 31, n % 31;
    var c, d := q / 2048, q % 2048;
    Remainder(n, c, 31 * d + r, CYCLE);
  }

  /** Indices below CYCLE and numbers that are not 31 modulo 32 correspond one to one. */
  lemma WireBijection(n: nat, v: u16)
    ensures Wire(n) % 32 != 31
    ensures IndexOf(Wire(n)) == n % CYCLE
    ensures v % 32 != 31 ==> IndexOf(v) < CYCLE && Wire(IndexOf(v)) == v
  {
    hide Wire, Slot, IndexOf;
    IndexOfNumber(n);
    if v % 32 != 31 {
      NumberOfIndex(v);
    }
  }

  lemma IndexOfNumber(n: nat)
    ensures Wire(n) % 32 != 31 && IndexOf(Wire(n)) == n % CYCLE
  {
    hide Wire, Slot, IndexOf;
    SlotForm(n);
    CycleForm(n);
    IndexDigits(Wire(n));
  }

  lemma NumberOfIndex(v: u16)
    requires v % 32 != 31
    ensures IndexOf(v) < CYCLE && Wire(IndexOf(v)) == v
  {
    hide Wire, Slot, IndexOf;
    IndexDigits(v);
    SlotForm(IndexOf(v));
  }

  lemma IndexDigits(v: u16)
    requires v % 32 != 31
    ensures IndexOf(v) == 31 * (v / 32) + v % 32 < CYCLE
    ensures IndexOf(v) / 31 == v / 32 && IndexOf(v) % 31 == v % 32
  {
    var block, r := v / 32, v % 32;
    assert v - v / 32 == 31 * block + r;
  }

  lemma CongruentModulo(x: int, y: int, k: int)
    requires y == x + k * 0x1_0000
    ensures x % 0x1_0000 == y % 0x1_0000
  {
  }

  lemma GapIsSlots(h: nat, g: nat)
    ensures Gap(h, g) == Slot(g) - Slot(h)
    ensures h <= g ==> Gap(h, g) >= g - h
    ensures DropsReported(Wire(h), Wire(g)) == Gap(h, g) % 0x1_0000
  {
    DifferenceModulo(Slot(g), Slot(h));
    if h <= g {
      assert h / 31 <= g / 31;
    }
  }

  lemma DifferenceModulo(a: nat, b: nat)
    ensures (a % 0x1_0000 - b % 0x1_0000) % 0x1_0000 == (a - b) % 0x1_0000
  {
    CongruentModulo(a % 0x1_0000 - b % 0x1_0000, a - b, a / 0x1_0000 - b / 0x1_0000);
  }

  /**
    A gap is reported in full exactly when fewer than a whole cycle of packets is missing;
    16-bit subtraction takes care of the wrap.
   */
  lemma GapReportedIff(h: nat, g: nat)
    requires h <= g
    ensures DropsReported(Wire(h), Wire(g)) <= Gap(h, g)
    ensures DropsReported(Wire(h), Wire(g)) == Gap(h, g) <==> g - h < CYCLE
  {
    GapIsSlots(h, g);
    SlotPeriod(h, 1);
    SlotMonotone(g, h + CYCLE);
    SlotMonotone(h + CYCLE, g);
    SlotMonotone(h, g);
    hide Slot, Wire, Gap, DropsReported;
    WholeModulo(Gap(h, g), 0x1_0000);
  }

  lemma WholeModulo(x: nat, m: nat)
    requires m > 0
    ensures x % m <= x && (x % m == x <==> x < m)
  {
  }

  lemma SlotMonotone(m: nat, n: nat)
    ensures m < n ==> Slot(m) < Slot(n)
    ensures m <= n ==> Slot(m) <= Slot(n)
  {
    if m <= n {
      assert m / 31 <= n / 31;
    }
  }

  /** A gap counts the missing packets plus the parity slots that lie among them. */
  lemma GapCountsPacketsAndParity(h: nat, g: nat)
    requires h <= g
    ensures Slot(h) <= Slot(g)
    ensures Gap(h, g) == (g - h) + ParitySlots(Slot(h), Slot(g))
  {
    SlotMonotone(h, g);
    ParityClosedForm(Slot(h), Slot(g));
    SlotForm(h);
    SlotForm(g);
  }

  lemma {:induction false} ParityClosedForm(lo: nat, hi: nat)
    requires lo <= hi
    ensures ParitySlots(lo, hi) == hi / 32 - lo / 32
    decreases hi - lo
  {
    if lo < hi {
      ParityClosedForm(lo, hi - 1);
    }
  }

  /** The send loop: the first packet carries 0, and the counter skips after each send. */
  method Send(count: nat) returns (wire: seq<u16>)
    ensures |wire| == count
    ensures forall k :: 0 <= k < count ==> wire[k] == Wire(k)
  {
    wire := [];
    var counter: u16 := 0;
    var header: u16 := 0;
    while |wire| < count
      invariant |wire| <= count
      invariant forall k :: 0 <= k < |wire| ==> wire[k] == Wire(k)
      invariant header == counter == Wire(|wire|)
    {
      SuccessorOfWire(|wire|);
      wire := wire + [header];
      counter := (counter + 1) % 0x1_0000;
      if counter != 0 && counter % 32 == 31 {
        counter := (counter + 1) % 0x1_0000;
      }
      header := counter;
    }
  }
}
