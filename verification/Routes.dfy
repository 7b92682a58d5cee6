/**
  The choice of a multicast interface from the routing table. Addresses and masks are 32-bit
  words in network byte order, read on a little-endian host, so the code compares masks whose
  bytes are in reverse.
 */
module Routes {

  import opened ByteOrder
  import opened Arithmetic
  import opened Bits
  import opened SddsTimes
  import opened SddsPackets

  /** A row of the table. */
  datatype Route = Route(iface: string, dest: u32, mask: u32)

  predicate Matches(r: Route, group: u32) {
    r.dest == And(group, r.mask)
  }

  /** Row k matches, no matching row has a greater mask, and no later one has as great a mask. */
  ghost predicate IsChoice(routes: seq<Route>, group: u32, k: nat) {
    && k < |routes| && Matches(routes[k], group)
    && forall j :: 0 <= j < |routes| && Matches(routes[j], group) ==>
         routes[j].mask <= routes[k].mask && (j > k ==> routes[j].mask < routes[k].mask)
  }

  /** Is this the interface of the chosen row, or empty if there is none? */
  ghost predicate IsSelected(routes: seq<Route>, group: u32, iface: string) {
    if exists j :: 0 <= j < |routes| && Matches(routes[j], group) then
      exists k: nat :: IsChoice(routes, group, k) && iface == routes[k].iface
    else iface == ""
  }

  /** The selection loop of `getMcastIfaceFromRoutes`. */
  method Select(routes: seq<Route>, group: u32) returns (iface: string)
    ensures IsSelected(routes, group, iface)
  {
    iface := "";
    var mask: u32 := 0;
    ghost var choice: int := -1;
    for i := 0 to |routes|
      invariant choice == -1 ==>
                  iface == "" && mask == 0 && forall j :: 0 <= j < i ==> !Matches(routes[j], group)
      invariant choice != -1 ==>
                  && 0 <= choice < i && IsChoice(routes[..i], group, choice)
                  && iface == routes[choice].iface && mask == routes[choice].mask
    {
      var r := routes[i];
      assert routes[..i + 1] == routes[..i] + [r];
      if r.mask >= mask && r.dest == And(group, r.mask) {
        iface := r.iface;
        mask := r.mask;
        choice := i;
      }
    }
    assert routes[..|routes|] == routes;
  }

  // ---- What the choice means --------------------------------------------------------------------

  /** A netmask of n ones, as a number. */
  function Netmask(n: nat): (m: u32)
    requires n <= 32
    ensures m == 0x1_0000_0000 - Pow(2, 32 - n)
  {
    InWord(32 - n);
    0x1_0000_0000 - Pow(2, 32 - n)
  }

  lemma Sizes()
    ensures Pow(2, 8) == 256 && Pow(2, 32) == Pow256(4) == 0x1_0000_0000
  {
    assert Pow(2, 8) == 256;
    PowersMultiply(8, 8);
    PowersMultiply(16, 16);
    WordSizes();
  }

  lemma InWord(j: nat)
    requires j <= 32
    ensures 0 < Pow(2, j) <= 0x1_0000_0000
  {
    Sizes();
    hide Pow, Pow256;
    PowersGrow(j, 32);
    AndRounds(0, 32, j);
  }

  function AndByte(x: byte, y: byte): (r: byte)
    ensures r == And(x, y)
  {
    AndAtMost(x, y);
    And(x, y)
  }

  function AndBytes(s: seq<byte>, t: seq<byte>): (r: seq<byte>)
    requires |s| == |t|
    ensures |r| == |s|
    ensures forall i :: 0 <= i < |s| ==> r[i] == And(s[i], t[i])
  {
    seq(|s|, i requires 0 <= i < |s| => AndByte(s[i], t[i]))
  }

  lemma {:induction false} AndWords(s: seq<byte>, t: seq<byte>)
    requires |s| == |t|
    ensures And(FromLittle(s), FromLittle(t)) == FromLittle(AndBytes(s, t))
  {
    hide And, Joined, Pow, Pow256;
    var r := AndBytes(s, t);
    if s == [] {
      AndAtMost(0, 0);
    } else {
      AndWords(s[1..], t[1..]);
      assert r[1..] == AndBytes(s[1..], t[1..]);
      Sizes();
      LittleIsJoined(s);
      LittleIsJoined(t);
      LittleIsJoined(r);
      hide FromLittle;
      AndSplits(8, s[0], t[0], FromLittle(s[1..]), FromLittle(t[1..]));
    }
  }

  lemma LittleIsJoined(s: seq<byte>)
    requires s != []
    ensures FromLittle(s) == Joined(8, s[0], FromLittle(s[1..]))
  {
    hide Joined, Pow, Pow256;
    Sizes();
  }

  /** Masking commutes with swapping the bytes. */
  lemma AndSwapped(a: nat, b: nat, n: nat)
    requires a < Pow256(n) && b < Pow256(n)
    ensures And(Swap(a, n), Swap(b, n)) == Swap(And(a, b), n)
  {
    var s, t := ToMemory(a, n), ToMemory(b, n);
    MemoryRoundTrip(a, n);
    MemoryRoundTrip(b, n);
    AndWords(s, t);
    WordRoundTrip(AndBytes(s, t));
    AndWords(Reversed(s), Reversed(t));
    assert Reversed(AndBytes(s, t)) == AndBytes(Reversed(s), Reversed(t));
  }

  /** A shorter netmask is what a longer one and it have in common. */
  lemma ShorterIsContained(n: nat, m: nat)
    requires n <= m <= 32
    ensures And(Netmask(m), Netmask(n)) == Netmask(n)
    ensures n < m ==> Netmask(n) < Netmask(m)
  {
    hide Pow, Pow256, And, Leading, Netmask;
    Sizes();
    InWord(32 - n);
    InWord(32 - m);
    PowersGrow(32 - m, 32 - n);
    PowersGrow(n, n);
    LeadingRounds(Netmask(m), n);
    LeadingIsMasked(Netmask(m), n);
    var k, p, q := Pow(2, n), Pow(2, 32 - n), Pow(2, 32 - m);
    assert p * k == 0x1_0000_0000 by { PowersMultiply(32 - n, n); }
    RoundsDown(k, p, q);
  }

  lemma LeadingRounds(x: u32, n: nat)
    requires n <= 32
    ensures Pow(2, 32 - n) > 0 && Leading(x, n) == x / Pow(2, 32 - n) * Pow(2, 32 - n)
  {
    InWord(32 - n);
    RoundedDown(x, Pow(2, 32 - n));
  }

  lemma RoundsDown(k: nat, p: nat, q: nat)
    requires k > 0 && 0 < q <= p
    ensures (p * k - q) / p * p == p * k - p
  {
    assert p * k - q == (k - 1) * p + (p - q);
    DivModUnique(p * k - q, k - 1, p - q, p);
  }

  /** Byte-swapped netmasks are ordered as their lengths are. */
  lemma SwappedMasksKeepOrder(n: nat, m: nat)
    requires n <= 32 && m <= 32
    ensures Net32(Netmask(n)) < Net32(Netmask(m)) <==> n < m
    ensures Net32(Netmask(n)) == Net32(Netmask(m)) <==> n == m
  {
    var a, b := if n <= m then n else m, if n <= m then m else n;
    ShorterIsContained(a, b);
    Sizes();
    AndSwapped(Netmask(b), Netmask(a), 4);
    AndAtMost(Net32(Netmask(b)), Net32(Netmask(a)));
    hide Netmask, Pow, Pow256, Swap, And;
    assert Swap(Net32(Netmask(a)), 4) == Netmask(a) && Swap(Net32(Netmask(b)), 4) == Netmask(b);
  }

  /** A route for a prefix: the leading n bits of its address, and its mask the netmask of length n. */
  ghost predicate IsPrefixRoute(r: Route, n: nat) {
    n <= 32 && r.mask == Net32(Netmask(n))
  }

  /** Is the destination the group's address with all but the first n bits cleared? */
  ghost predicate Covers(r: Route, n: nat, group: u32)
    requires n <= 32
  {
    Net32(r.dest) == Leading(Net32(group), n)
  }

  /** The first n bits of a word, the others cleared. */
  function Leading(x: u32, n: nat): (r: u32)
    requires n <= 32
  {
    InWord(32 - n);
    RoundedDown(x, Pow(2, 32 - n));
    x - x % Pow(2, 32 - n)
  }

  lemma LeadingIsMasked(x: u32, n: nat)
    requires n <= 32
    ensures Leading(x, n) == And(x, Netmask(n))
  {
    hide And, Pow, Pow256, Netmask;
    Sizes();
    InWord(32 - n);
    AndRounds(x, 32, 32 - n);
    RoundedDown(x, Pow(2, 32 - n));
  }

  lemma RoundedDown(x: nat, p: nat)
    requires p > 0
    ensures x / p * p == x - x % p && 0 <= x % p <= x
  {
  }

  lemma MatchesIsCovers(r: Route, n: nat, group: u32)
    requires IsPrefixRoute(r, n)
    ensures Matches(r, group) <==> Covers(r, n, group)
  {
    Sizes();
    var g, m, c := Net32(group), Netmask(n), Leading(Net32(group), n);
    AndSwapped(g, m, 4);
    LeadingIsMasked(g, n);
    hide Leading, Netmask, Pow, Pow256, Swap, And;
    assert And(group, r.mask) == Net32(c);
    assert Net32(Net32(r.dest)) == r.dest && Net32(Net32(c)) == c;
  }

  /** A table of prefix routes, with their lengths. */
  ghost predicate PrefixTable(routes: seq<Route>, lengths: seq<nat>) {
    |lengths| == |routes| && forall i :: 0 <= i < |routes| ==> IsPrefixRoute(routes[i], lengths[i])
  }

  /** Row k covers the group, and is the last of the longest prefixes that do. */
  ghost predicate LongestPrefix(routes: seq<Route>, lengths: seq<nat>, group: u32, k: nat)
    requires PrefixTable(routes, lengths)
  {
    && k < |routes| && Covers(routes[k], lengths[k], group)
    && forall j :: 0 <= j < |routes| && Covers(routes[j], lengths[j], group) ==>
         lengths[j] <= lengths[k] && (j > k ==> lengths[j] < lengths[k])
  }

  /** The choice is the longest-prefix match, and there is at most one. */
  lemma ChoiceIsLongestPrefix(routes: seq<Route>, lengths: seq<nat>, group: u32, k: nat)
    requires PrefixTable(routes, lengths)
    ensures IsChoice(routes, group, k) <==> LongestPrefix(routes, lengths, group, k)
    ensures forall j: nat :: IsChoice(routes, group, j) && IsChoice(routes, group, k) ==> j == k
  {
    forall j | 0 <= j < |routes|
      ensures Matches(routes[j], group) <==> Covers(routes[j], lengths[j], group)
    {
      MatchesIsCovers(routes[j], lengths[j], group);
    }
    if k < |routes| {
      forall j | 0 <= j < |routes|
        ensures routes[j].mask < routes[k].mask <==> lengths[j] < lengths[k]
        ensures routes[j].mask == routes[k].mask <==> lengths[j] == lengths[k]
      {
        SwappedMasksKeepOrder(lengths[j], lengths[k]);
      }
    }
    hide Matches, Covers, Netmask, Net32;
  }

  /**
    On a table of prefix routes the interface selected is that of the last of the longest prefixes
    that cover the group, and it is empty exactly if none does, given that no interface is nameless.
   */
  lemma SelectedIsLongestPrefix(routes: seq<Route>, lengths: seq<nat>, group: u32, iface: string)
    requires PrefixTable(routes, lengths) && IsSelected(routes, group, iface)
    requires forall i :: 0 <= i < |routes| ==> routes[i].iface != ""
    ensures (exists j :: 0 <= j < |routes| && Covers(routes[j], lengths[j], group)) ==>
              exists k: nat :: LongestPrefix(routes, lengths, group, k) && iface == routes[k].iface
    ensures iface == "" <==> forall j :: 0 <= j < |routes| ==> !Covers(routes[j], lengths[j], group)
  {
    hide Matches, Covers, Netmask, Net32;
    forall j | 0 <= j < |routes|
      ensures Matches(routes[j], group) <==> Covers(routes[j], lengths[j], group)
    {
      MatchesIsCovers(routes[j], lengths[j], group);
    }
    if j :| 0 <= j < |routes| && Matches(routes[j], group) {
      var k: nat :| IsChoice(routes, group, k) && iface == routes[k].iface;
      ChoiceIsLongestPrefix(routes, lengths, group, k);
    }
  }
}
