/**
  Bytes in memory and the integers read from them in either byte order. The host is
  little-endian: a word lies in memory with its least significant byte first.
 */
module ByteOrder {

  import opened Arithmetic

  type byte = x: int | 0 <= x < 256

  datatype Endian = Big | Little

  function Pow256(n: nat): (p: nat)
    ensures p > 0
  {
    if n == 0 then 1 else 256 * Pow256(n - 1)
  }

  /** The first n bytes of a word as they lie in host memory. */
  function ToMemory(x: nat, n: nat): (s: seq<byte>)
    ensures |s| == n
  {
    if n == 0 then [] else [x % 256] + ToMemory(x / 256, n - 1)
  }

  /** Byte i in memory is the digit worth 256 to the i. */
  lemma {:induction false} MemoryDigit(x: nat, n: nat, i: nat)
    requires i < n
    ensures ToMemory(x, n)[i] == x / Pow256(i) % 256
    decreases n
  {
    if i > 0 {
      MemoryDigit(x / 256, n - 1, i - 1);
      DivideTwice(x, 256, Pow256(i - 1));
    }
  }

  /** The word the host reads from memory. */
  function FromLittle(s: seq<byte>): nat {
    if s == [] then 0 else s[0] + 256 * FromLittle(s[1..])
  }

  function Reversed(s: seq<byte>): (r: seq<byte>)
    ensures |r| == |s|
    ensures forall i :: 0 <= i < |s| ==> r[i] == s[|s| - 1 - i]
  {
    seq(|s|, i requires 0 <= i < |s| => s[|s| - 1 - i])
  }

  /** The word that memory holds when its most significant byte comes first. */
  function FromBig(s: seq<byte>): nat {
    FromLittle(Reversed(s))
  }

  function FromOrder(order: Endian, s: seq<byte>): nat {
    if order.Big? then FromBig(s) else FromLittle(s)
  }

  lemma {:induction false} MemoryRoundTrip(x: nat, n: nat)
    requires x < Pow256(n)
    ensures FromLittle(ToMemory(x, n)) == x
  {
    if n > 0 {
      MemoryRoundTrip(x / 256, n - 1);
      assert ToMemory(x, n)[1..] == ToMemory(x / 256, n - 1);
    }
  }

  lemma {:induction false} WordRoundTrip(s: seq<byte>)
    ensures FromLittle(s) < Pow256(|s|)
    ensures ToMemory(FromLittle(s), |s|) == s
  {
    if s != [] {
      WordRoundTrip(s[1..]);
      assert s == [s[0]] + s[1..];
    }
  }

  /** `swap8`, `htonl` and `htons`: the n-byte word whose memory image is read most significant byte first. */
  function Swap(x: nat, n: nat): nat {
    FromBig(ToMemory(x, n))
  }

  /** Swapping stays within the word, reverses its bytes in memory, and so undoes itself. */
  lemma SwapInvolution(x: nat, n: nat)
    requires x < Pow256(n)
    ensures Swap(x, n) < Pow256(n)
    ensures ToMemory(Swap(x, n), n) == Reversed(ToMemory(x, n))
    ensures Swap(Swap(x, n), n) == x
  {
    var m := ToMemory(x, n);
    WordRoundTrip(Reversed(m));
    assert Reversed(Reversed(m)) == m;
    MemoryRoundTrip(x, n);
  }

  /** The number that bytes spell, the most significant one first. */
  function Spelled(s: seq<byte>): nat {
    if s == [] then 0 else 256 * Spelled(s[..|s| - 1]) + s[|s| - 1]
  }

  /** A swapped word is what its memory spells. */
  lemma SwapSpells(x: nat, n: nat)
    ensures Swap(x, n) == Spelled(ToMemory(x, n))
  {
    BigSpells(ToMemory(x, n));
  }

  lemma {:induction false} BigSpells(s: seq<byte>)
    ensures FromBig(s) == Spelled(s)
  {
    if s != [] {
      BigSpells(s[..|s| - 1]);
      assert Reversed(s)[1..] == Reversed(s[..|s| - 1]);
    }
  }

  lemma WordSizes()
    ensures Pow256(2) == 0x1_0000
    ensures Pow256(4) == 0x1_0000_0000
    ensures Pow256(8) == 0x1_0000_0000_0000_0000
  {
    assert Pow256(4) == 256 * (256 * Pow256(2));
    assert Pow256(8) == 256 * (256 * (256 * (256 * Pow256(4))));
  }

  /** The position that mirrors i within its group of w. */
  function Mirror(w: nat, i: nat): (j: nat)
    requires w in {2, 4}
    ensures j / w == i / w && j % w == w - 1 - i % w
    ensures j < i / w * w + w
  {
    i / w * w + (w - 1 - i % w)
  }

  lemma MirrorInside(w: nat, i: nat, n: nat)
    requires w in {2, 4} && i < n && n % w == 0
    ensures Mirror(w, i) < n
    ensures Mirror(w, Mirror(w, i)) == i
  {
    if w == 2 {
    } else {
    }
  }

  lemma MirrorOfWord(i: nat)
    ensures Mirror(4, 4 * i) == 4 * i + 3 && Mirror(4, 4 * i + 1) == 4 * i + 2
    ensures Mirror(4, 4 * i + 2) == 4 * i + 1 && Mirror(4, 4 * i + 3) == 4 * i
  {
  }

  /** Every group of w bytes reversed. */
  function Swapped(w: nat, d: seq<byte>): (r: seq<byte>)
    requires w in {2, 4} && |d| % w == 0
    ensures |r| == |d|
    ensures forall i :: 0 <= i < |d| ==> Mirror(w, i) < |d| && r[i] == d[Mirror(w, i)]
  {
    hide Mirror;
    AllMirrored(w, |d|);
    seq(|d|, i requires 0 <= i < |d| => d[Mirror(w, i)])
  }

  lemma AllMirrored(w: nat, n: nat)
    requires w in {2, 4} && n % w == 0
    ensures forall i :: 0 <= i < n ==> Mirror(w, i) < n
  {
    forall i | 0 <= i < n
      ensures Mirror(w, i) < n
    {
      MirrorInside(w, i, n);
    }
  }

  /** The k-th group of w bytes. */
  function Group(w: nat, d: seq<byte>, k: nat): (g: seq<byte>)
    requires w in {1, 2, 4} && k < |d| / w
    ensures |g| == w
  {
    if w == 1 then [d[k]] else if w == 2 then d[2 * k..2 * k + 2] else d[4 * k..4 * k + 4]
  }

  /** The w-byte samples in a payload of the given byte order. */
  function Samples(order: Endian, w: nat, d: seq<byte>): (r: seq<nat>)
    requires w in {1, 2, 4} && |d| % w == 0
    ensures |r| == |d| / w
  {
    seq(|d| / w, k requires 0 <= k < |d| / w => FromOrder(order, Group(w, d, k)))
  }

  /** Sample k is what its own w bytes spell, the most significant one first or last. */
  lemma SampleSpells(w: nat, d: seq<byte>, k: nat)
    requires w in {1, 2, 4} && |d| % w == 0 && k < |d| / w
    ensures w * k + w <= |d|
    ensures Samples(Big, w, d)[k] == Spelled(d[w * k..w * k + w])
    ensures Samples(Little, w, d)[k] == Spelled(Reversed(d[w * k..w * k + w]))
  {
    assert Group(w, d, k) == d[w * k..w * k + w];
    BigSpells(d[w * k..w * k + w]);
    BigSpells(Reversed(d[w * k..w * k + w]));
    assert Reversed(Reversed(d[w * k..w * k + w])) == d[w * k..w * k + w];
  }

  /** What the host reads from a swapped payload is what the sender wrote most significant byte first. */
  lemma SwappedSamples(w: nat, d: seq<byte>)
    requires w in {2, 4} && |d| % w == 0
    ensures Samples(Little, w, Swapped(w, d)) == Samples(Big, w, d)
  {
    forall k | 0 <= k < |d| / w
      ensures Group(w, Swapped(w, d), k) == Reversed(Group(w, d, k))
    {
      SwappedGroup(w, d, k);
    }
  }

  lemma SwappedGroup(w: nat, d: seq<byte>, k: nat)
    requires w in {2, 4} && |d| % w == 0 && k < |d| / w
    ensures Group(w, Swapped(w, d), k) == Reversed(Group(w, d, k))
  {
    if w == 2 {
      SwappedPair(d, k);
    } else {
      SwappedWord(d, k);
    }
  }

  lemma SwappedPair(d: seq<byte>, k: nat)
    requires |d| % 2 == 0 && k < |d| / 2
    ensures Group(2, Swapped(2, d), k) == Reversed(Group(2, d, k))
  {
    MirrorOfPair(k);
    hide Mirror, Swapped;
    assert 2 * k + 2 <= |d|;
    assert Group(2, Swapped(2, d), k) == [d[2 * k + 1], d[2 * k]];
    assert Group(2, d, k) == [d[2 * k], d[2 * k + 1]];
  }

  lemma SwappedWord(d: seq<byte>, k: nat)
    requires |d| % 4 == 0 && k < |d| / 4
    ensures Group(4, Swapped(4, d), k) == Reversed(Group(4, d, k))
  {
    MirrorOfWord(k);
    hide Mirror, Swapped;
    assert 4 * k + 4 <= |d|;
    assert Group(4, Swapped(4, d), k) == [d[4 * k + 3], d[4 * k + 2], d[4 * k + 1], d[4 * k]];
    assert Group(4, d, k) == [d[4 * k], d[4 * k + 1], d[4 * k + 2], d[4 * k + 3]];
  }

  lemma MirrorOfPair(i: nat)
    ensures Mirror(2, 2 * i) == 2 * i + 1 && Mirror(2, 2 * i + 1) == 2 * i
  {
  }

  /** Swapping a payload twice is the identity. */
  lemma SwappedTwice(w: nat, d: seq<byte>)
    requires w in {2, 4} && |d| % w == 0
    ensures Swapped(w, Swapped(w, d)) == d
  {
    forall i | 0 <= i < |d|
      ensures Swapped(w, Swapped(w, d))[i] == d[i]
    {
      MirrorInside(w, i, |d|);
    }
  }

  /** Bytes need no conversion. */
  lemma ByteSamples(d: seq<byte>)
    ensures Samples(Little, 1, d) == Samples(Big, 1, d)
  {
    forall k | 0 <= k < |d|
      ensures Reversed(Group(1, d, k)) == Group(1, d, k)
    {
    }
  }

  /** `swab` over a whole payload, in place. */
  method SwapShorts(d: array<byte>)
    requires d.Length % 2 == 0
    modifies d
    ensures d[..] == Swapped(2, old(d[..]))
  {
    ghost var was := d[..];
    hide Mirror;
    for i := 0 to d.Length / 2
      invariant forall k :: 0 <= k < 2 * i ==> d[k] == Swapped(2, was)[k]
      invariant forall k :: 2 * i <= k < d.Length ==> d[k] == was[k]
    {
      MirrorOfPair(i);
      d[2 * i], d[2 * i + 1] := d[2 * i + 1], d[2 * i];
    }
  }

  /** The loop over the payload's 32-bit words, each rewritten with its bytes reversed. */
  method SwapWords(d: array<byte>)
    requires d.Length % 4 == 0
    modifies d
    ensures d[..] == Swapped(4, old(d[..]))
  {
    ghost var was := d[..];
    hide Mirror;
    for i := 0 to d.Length / 4
      invariant forall k :: 0 <= k < 4 * i ==> d[k] == Swapped(4, was)[k]
      invariant forall k :: 4 * i <= k < d.Length ==> d[k] == was[k]
    {
      SwapWord(d, i, was);
    }
  }

  /** `buf[i] = __builtin_bswap32(buf[i])`, on the four bytes of the word. */
  method SwapWord(d: array<byte>, i: nat, ghost was: seq<byte>)
    requires 4 * i + 4 <= d.Length == |was| && d.Length % 4 == 0
    requires forall k :: 4 * i <= k < 4 * i + 4 ==> d[k] == was[k]
    modifies d
    ensures forall k :: 0 <= k < d.Length && !(4 * i <= k < 4 * i + 4) ==> d[k] == old(d[k])
    ensures forall k :: 4 * i <= k < 4 * i + 4 ==> d[k] == Swapped(4, was)[k]
  {
    MirrorOfWord(i);
    hide Mirror;
    d[4 * i], d[4 * i + 1], d[4 * i + 2], d[4 * i + 3] :=
      d[4 * i + 3], d[4 * i + 2], d[4 * i + 1], d[4 * i];
  }
}
