/** Route selection: the longest matching prefix, then the smallest metric, then the lowest index. */
module Routes {
  import opened Bytes
  import opened Options

  // ----- what the best route is -----

  datatype Route<A> = Route(dest: A, mask: nat, metric: int)

  /** Route `j` is not to be preferred to route `b`. */
  ghost predicate NoBetter<A>(rs: seq<Route<A>>, j: int, b: int)
    requires 0 <= j < |rs| && 0 <= b < |rs|
  {
    || rs[j].mask < rs[b].mask
    || (rs[j].mask == rs[b].mask && rs[j].metric > rs[b].metric)
    || (rs[j].mask == rs[b].mask && rs[j].metric == rs[b].metric && j >= b)
  }

  /** The best of the first `n` routes, of which `hits` match, or -1 when none does. */
  ghost predicate Best<A>(rs: seq<Route<A>>, hits: set<int>, n: nat, b: int)
    requires n <= |rs|
  {
    if b == -1 then forall j | 0 <= j < n :: j !in hits
    else 0 <= b < n && b in hits && forall j | 0 <= j < n && j in hits :: NoBetter(rs, j, b)
  }

  /** There is one best route. */
  lemma BestUnique<A>(rs: seq<Route<A>>, hits: set<int>, b: int, c: int)
    requires Best(rs, hits, |rs|, b) && Best(rs, hits, |rs|, c)
    ensures b == c
  {
    if b != -1 && c != -1 { assert NoBetter(rs, b, c) && NoBetter(rs, c, b); }
  }

  /** The update of the best match by route `i`. */
  method Consider<A>(rs: seq<Route<A>>, ghost hits: set<int>, i: nat, best: int) returns (b: int)
    requires i < |rs| && i in hits && Best(rs, hits, i, best)
    ensures Best(rs, hits, i + 1, b)
  {
    b := best;
    if best == -1 {
      b := i;
    } else if rs[i].mask > rs[best].mask {
      b := i;
    } else if rs[i].mask == rs[best].mask && rs[i].metric < rs[best].metric {
      b := i;
    }
  }

  // ----- IPv6: masks from prefix lengths -----

  /** The bits of a byte, the most significant first. */
  predicate BitOf(b: byte, i: nat)
    requires i < 8
  {
    if i == 0 then b & 0x80 != 0 else if i == 1 then b & 0x40 != 0
    else if i == 2 then b & 0x20 != 0 else if i == 3 then b & 0x10 != 0
    else if i == 4 then b & 0x08 != 0 else if i == 5 then b & 0x04 != 0
    else if i == 6 then b & 0x02 != 0 else b & 0x01 != 0
  }

  predicate Bit(a: seq<byte>, k: nat)
    requires k < 8 * |a|
  {
    BitOf(a[k / 8], k % 8)
  }

  lemma TopBits(i: nat, k: nat)
    requires 0 < i < 8 && k < 8
    ensures BitOf((0xff as bv8) << (8 - i), k) <==> k < i
  {
    if i == 1 {} else if i == 2 {} else if i == 3 {} else if i == 4 {} else if i == 5 {} else if i == 6 {} else {}
  }

  lemma SameBits(x: byte, y: byte)
    requires forall i: nat | i < 8 :: BitOf(x, i) == BitOf(y, i)
    ensures x == y
  {
    assert BitOf(x, 0) == BitOf(y, 0) && BitOf(x, 1) == BitOf(y, 1) && BitOf(x, 2) == BitOf(y, 2)
        && BitOf(x, 3) == BitOf(y, 3) && BitOf(x, 4) == BitOf(y, 4) && BitOf(x, 5) == BitOf(y, 5)
        && BitOf(x, 6) == BitOf(y, 6) && BitOf(x, 7) == BitOf(y, 7);
  }

  const ADDRESS_BYTES := 16

  /** The mask of a prefix length: its bits are the first `prefix` ones. */
  ghost predicate IsMask(mask: seq<byte>, prefix: nat) {
    |mask| == ADDRESS_BYTES && forall k: nat | k < 8 * |mask| :: Bit(mask, k) <==> k < prefix
  }

  lemma FullByte(k: nat)
    requires k < 8
    ensures BitOf(0xff, k) && !BitOf(0, k)
  {
  }

  /** Byte `j` of the mask under construction. */
  ghost predicate MaskByte(b: byte, j: nat, prefix: nat) {
    forall k: nat | k < 8 :: BitOf(b, k) <==> 8 * j + k < prefix
  }

  /** ipv6_prefix_to_mask. */
  method PrefixToMask(prefix: nat) returns (r: Option<seq<byte>>)
    ensures r.None? <==> prefix > 128
    ensures r.Some? ==> IsMask(r.value, prefix)
  {
    hide BitOf;
    if prefix > 128 { return None; }
    var mask := new byte[ADDRESS_BYTES](_ => 0);
    var i, j := prefix as int, 0;
    while i > 0
      invariant i == prefix - 8 * j && 0 <= j <= ADDRESS_BYTES
      invariant forall n: nat | n < j :: MaskByte(mask[n], n, prefix)
      invariant forall n: nat | j <= n < ADDRESS_BYTES :: mask[n] == 0
    {
      if i >= 8 {
        mask[j] := 0xff;
        forall k: nat | k < 8 ensures BitOf(mask[j], k) { FullByte(k); }
      } else {
        mask[j] := 0xff << (8 - i);
        forall k: nat | k < 8 ensures BitOf(mask[j], k) <==> k < i { TopBits(i, k); }
      }
      assert MaskByte(mask[j], j, prefix);
      i, j := i - 8, j + 1;
    }
    forall n: nat | j <= n < ADDRESS_BYTES ensures MaskByte(mask[n], n, prefix) {
      forall k: nat | k < 8 ensures !BitOf(mask[n], k) { FullByte(k); }
    }
    BytesMakeMask(mask[..], prefix);
    return Some(mask[..]);
  }

  lemma BytesMakeMask(mask: seq<byte>, prefix: nat)
    requires |mask| == ADDRESS_BYTES && forall n: nat | n < |mask| :: MaskByte(mask[n], n, prefix)
    ensures IsMask(mask, prefix)
  {
    hide BitOf;
    forall k: nat | k < 8 * |mask| ensures Bit(mask, k) <==> k < prefix {
      assert MaskByte(mask[k / 8], k / 8, prefix) && k == 8 * (k / 8) + k % 8;
    }
  }

  // ----- IPv6: matching and selection -----

  function And(a: seq<byte>, b: seq<byte>): (r: seq<byte>)
    requires |a| == |b|
    ensures |r| == |a|
  {
    seq(|a|, k requires 0 <= k < |a| => a[k] & b[k])
  }

  /** The first `prefix` bits agree, and the route's address has no others. */
  ghost predicate Covers(dest: seq<byte>, addr: seq<byte>, prefix: nat)
    requires |dest| == |addr|
  {
    forall k: nat | k < 8 * |dest| :: Bit(dest, k) == (Bit(addr, k) && k < prefix)
  }

  lemma AndBit(a: seq<byte>, b: seq<byte>, k: nat)
    requires |a| == |b| && k < 8 * |a|
    ensures Bit(And(a, b), k) == (Bit(a, k) && Bit(b, k))
  {
    AndBitOf(a[k / 8], b[k / 8], k % 8);
  }

  lemma AndBitOf(x: byte, y: byte, i: nat)
    requires i < 8
    ensures BitOf(x & y, i) == (BitOf(x, i) && BitOf(y, i))
  {
  }

  lemma BitsDetermine(a: seq<byte>, b: seq<byte>)
    requires |a| == |b| && forall k: nat | k < 8 * |a| :: Bit(a, k) == Bit(b, k)
    ensures a == b
  {
    hide BitOf;
    forall n: nat | n < |a| ensures a[n] == b[n] {
      forall i: nat | i < 8 ensures BitOf(a[n], i) == BitOf(b[n], i) {
        var k := 8 * n + i;
        assert k / 8 == n && k % 8 == i;
        assert Bit(a, k) == Bit(b, k);
      }
      SameBits(a[n], b[n]);
    }
  }

  /** Comparing the masked address with the route's is comparing prefixes. */
  lemma MaskedIffCovers(addr: seq<byte>, mask: seq<byte>, dest: seq<byte>, prefix: nat)
    requires |addr| == |dest| == ADDRESS_BYTES && IsMask(mask, prefix)
    ensures And(addr, mask) == dest <==> Covers(dest, addr, prefix)
  {
    hide Bit, And;
    forall k: nat | k < 8 * |addr| ensures Bit(And(addr, mask), k) == (Bit(addr, k) && k < prefix) {
      AndBit(addr, mask, k);
    }
    if Covers(dest, addr, prefix) { BitsDetermine(And(addr, mask), dest); }
  }

  /** The routes whose prefix covers an address. */
  ghost function Covering(rs: seq<Route<seq<byte>>>, addr: seq<byte>): set<int>
    requires |addr| == ADDRESS_BYTES && forall r | r in rs :: |r.dest| == ADDRESS_BYTES
  {
    set i | 0 <= i < |rs| && Covers(rs[i].dest, addr, rs[i].mask)
  }

  /** The selection loop of v6_routethrough; a prefix above 128 is an error. */
  method SelectV6(rs: seq<Route<seq<byte>>>, addr: seq<byte>) returns (r: Option<int>)
    requires |addr| == ADDRESS_BYTES && forall r | r in rs :: |r.dest| == ADDRESS_BYTES
    ensures r.None? <==> exists i | 0 <= i < |rs| :: rs[i].mask > 128
    ensures r.Some? ==> Best(rs, Covering(rs, addr), |rs|, r.value)
  {
    hide Best, Covers, And;
    var best := -1;
    ghost var hits := Covering(rs, addr);
    NoneYet(rs, hits);
    for i := 0 to |rs|
      invariant Best(rs, hits, i, best) && forall j | 0 <= j < i :: rs[j].mask <= 128
    {
      var mask := PrefixToMask(rs[i].mask);
      if mask.None? { return None; }
      assert rs[i] in rs;
      MaskedIffCovers(addr, mask.value, rs[i].dest, rs[i].mask);
      if And(addr, mask.value) == rs[i].dest {
        best := Consider(rs, hits, i, best);
      } else {
        Skip(rs, hits, i, best);
      }
    }
    return Some(best);
  }

  lemma NoneYet<A>(rs: seq<Route<A>>, hits: set<int>)
    ensures Best(rs, hits, 0, -1)
  {
  }

  lemma Skip<A>(rs: seq<Route<A>>, hits: set<int>, i: nat, b: int)
    requires i < |rs| && i !in hits && Best(rs, hits, i, b)
    ensures Best(rs, hits, i + 1, b)
  {
  }

  // ----- IPv4: numbers and their bits -----

  /** Bit `i` of a number, the least significant first. */
  predicate BitAt(n: nat, i: nat) {
    if i == 0 then n % 2 == 1 else BitAt(n / 2, i - 1)
  }

  /** Bitwise and of numbers. */
  function AndNat(a: nat, b: nat): nat {
    if a == 0 || b == 0 then 0 else a % 2 * (b % 2) + 2 * AndNat(a / 2, b / 2)
  }

  function Pow2(n: nat): (p: nat)
    ensures p > 0
  {
    if n == 0 then 1 else 2 * Pow2(n - 1)
  }

  lemma {:induction false} NoBits(i: nat)
    ensures !BitAt(0, i)
  {
    if i > 0 { NoBits(i - 1); }
  }

  lemma {:induction false} AndNatBit(a: nat, b: nat, i: nat)
    ensures BitAt(AndNat(a, b), i) <==> BitAt(a, i) && BitAt(b, i)
  {
    if a == 0 || b == 0 {
      NoBits(i);
    } else {
      AndNatHalf(a, b);
      if i > 0 { AndNatBit(a / 2, b / 2, i - 1); }
    }
  }

  lemma AndNatHalf(a: nat, b: nat)
    requires a > 0 && b > 0
    ensures AndNat(a, b) / 2 == AndNat(a / 2, b / 2)
    ensures AndNat(a, b) % 2 == 1 <==> a % 2 == 1 && b % 2 == 1
  {
    var x, y := a % 2, b % 2;
    assert x * y == if x == 1 && y == 1 then 1 else 0;
  }

  lemma {:induction false} AndNatLess(a: nat, b: nat)
    ensures AndNat(a, b) <= a
  {
    if a > 0 && b > 0 {
      AndNatLess(a / 2, b / 2);
      var x, y := a % 2, b % 2;
      assert x * y <= x;
    }
  }

  /** Numbers of `n` bits with the same bits are equal. */
  lemma {:induction false} SameNumber(a: nat, b: nat, n: nat)
    requires a < Pow2(n) && b < Pow2(n) && forall i: nat | i < n :: BitAt(a, i) == BitAt(b, i)
    ensures a == b
  {
    if n > 0 {
      assert BitAt(a, 0) == BitAt(b, 0);
      forall i: nat | i < n - 1 ensures BitAt(a / 2, i) == BitAt(b / 2, i) {
        assert BitAt(a, i + 1) == BitAt(b, i + 1);
      }
      SameNumber(a / 2, b / 2, n - 1);
    }
  }

  /** Adding a power of two sets a bit that is not set, and no other. */
  lemma {:induction false} SetBit(n: nat, i: nat, j: nat)
    requires !BitAt(n, i)
    ensures BitAt(n + Pow2(i), j) <==> BitAt(n, j) || j == i
  {
    if i == 0 {
      assert (n + 1) / 2 == n / 2;
    } else {
      var q := Pow2(i - 1);
      assert (n + 2 * q) % 2 == n % 2 && (n + 2 * q) / 2 == n / 2 + q;
      if j > 0 { SetBit(n / 2, i - 1, j - 1); }
    }
  }

  lemma {:induction false} SetBitBound(n: nat, i: nat, m: nat)
    requires !BitAt(n, i) && n < Pow2(m) && i < m
    ensures n + Pow2(i) < Pow2(m)
  {
    if i == 0 {
      assert Pow2(m) == 2 * Pow2(m - 1);
    } else {
      SetBitBound(n / 2, i - 1, m - 1);
    }
  }

  // ----- IPv4: masks -----

  const WORD_BITS := 32

  /** Where bit `k` of an address in network order stands in the number read from memory. */
  function Place(k: nat, bigEndian: bool): (i: nat)
    requires k < WORD_BITS
    ensures i < WORD_BITS
  {
    if bigEndian then 31 - k else 8 * (k / 8) + 7 - k % 8
  }

  lemma PlaceTwice(k: nat, bigEndian: bool)
    requires k < WORD_BITS
    ensures Place(Place(k, bigEndian), bigEndian) == k
  {
  }

  /** The mask of a prefix length, by its bits in network order. */
  ghost predicate IsNetmask(m: nat, prefix: nat, bigEndian: bool) {
    m < Pow2(WORD_BITS) && forall k: nat | k < WORD_BITS :: BitAt(m, Place(k, bigEndian)) <==> k < prefix
  }

  /** That mask as a number. */
  function MaskOf(prefix: nat, bigEndian: bool): nat
    requires prefix <= WORD_BITS
  {
    if prefix == 0 then 0 else MaskOf(prefix - 1, bigEndian) + Pow2(Place(prefix - 1, bigEndian))
  }

  lemma {:induction false} MaskOfIsNetmask(p: nat, bigEndian: bool)
    requires p <= WORD_BITS
    ensures IsNetmask(MaskOf(p, bigEndian), p, bigEndian)
  {
    hide BitAt, Place;
    if p == 0 {
      forall k: nat | k < WORD_BITS ensures !BitAt(0, Place(k, bigEndian)) { NoBits(Place(k, bigEndian)); }
    } else {
      MaskOfIsNetmask(p - 1, bigEndian);
      var m, i := MaskOf(p - 1, bigEndian), Place(p - 1, bigEndian);
      SetBitBound(m, i, WORD_BITS);
      forall k: nat | k < WORD_BITS ensures BitAt(m + Pow2(i), Place(k, bigEndian)) <==> k < p {
        SetBit(m, i, Place(k, bigEndian));
        PlaceTwice(k, bigEndian);
        PlaceTwice(p - 1, bigEndian);
      }
    }
  }

  /** Two words whose bits agree in network order are equal. */
  lemma SameWord(a: nat, b: nat, bigEndian: bool)
    requires a < Pow2(WORD_BITS) && b < Pow2(WORD_BITS)
    requires forall k: nat | k < WORD_BITS :: BitAt(a, Place(k, bigEndian)) == BitAt(b, Place(k, bigEndian))
    ensures a == b
  {
    hide BitAt, Place, Pow2;
    forall i: nat | i < WORD_BITS ensures BitAt(a, i) == BitAt(b, i) {
      PlaceTwice(i, bigEndian);
      assert BitAt(a, Place(Place(i, bigEndian), bigEndian)) == BitAt(b, Place(Place(i, bigEndian), bigEndian));
    }
    SameNumber(a, b, WORD_BITS);
  }

  lemma NetmaskIs(m: nat, p: nat, bigEndian: bool)
    requires IsNetmask(m, p, bigEndian) && p <= WORD_BITS
    ensures m == MaskOf(p, bigEndian)
  {
    hide BitAt, Place, MaskOf;
    MaskOfIsNetmask(p, bigEndian);
    SameWord(m, MaskOf(p, bigEndian), bigEndian);
  }

  lemma {:induction false} MaskGrows(p: nat, q: nat, bigEndian: bool)
    requires p < q <= WORD_BITS
    ensures MaskOf(p, bigEndian) < MaskOf(q, bigEndian)
  {
    if p < q - 1 { MaskGrows(p, q - 1, bigEndian); }
  }

  /** Contiguous masks are ordered as numbers exactly as by prefix length, in either byte order. */
  lemma MaskOrder(m: nat, p: nat, n: nat, q: nat, bigEndian: bool)
    requires p <= WORD_BITS && q <= WORD_BITS && IsNetmask(m, p, bigEndian) && IsNetmask(n, q, bigEndian)
    ensures (p < q <==> m < n) && (p == q <==> m == n)
  {
    hide IsNetmask, MaskOf;
    NetmaskIs(m, p, bigEndian);
    NetmaskIs(n, q, bigEndian);
    if p < q { MaskGrows(p, q, bigEndian); } else if q < p { MaskGrows(q, p, bigEndian); }
  }

  // ----- IPv4: matching and selection -----

  /** The first `prefix` bits agree, and the route's address has no others. */
  ghost predicate CoversWord(dest: nat, addr: nat, prefix: nat, bigEndian: bool) {
    forall k: nat | k < WORD_BITS ::
      BitAt(dest, Place(k, bigEndian)) == (BitAt(addr, Place(k, bigEndian)) && k < prefix)
  }

  /** Comparing the masked address with the route's is comparing prefixes. */
  lemma MatchIffCovers(addr: nat, mask: nat, dest: nat, p: nat, bigEndian: bool)
    requires addr < Pow2(WORD_BITS) && dest < Pow2(WORD_BITS) && IsNetmask(mask, p, bigEndian)
    ensures AndNat(addr, mask) == dest <==> CoversWord(dest, addr, p, bigEndian)
  {
    hide BitAt, Place, AndNat, Pow2;
    AndNatLess(addr, mask);
    forall k: nat | k < WORD_BITS
      ensures BitAt(AndNat(addr, mask), Place(k, bigEndian)) == (BitAt(addr, Place(k, bigEndian)) && k < p)
    {
      AndNatBit(addr, mask, Place(k, bigEndian));
    }
    if CoversWord(dest, addr, p, bigEndian) { SameWord(AndNat(addr, mask), dest, bigEndian); }
  }

  /** The routes that match an address. */
  ghost function Matching(rs: seq<Route<nat>>, addr: nat): set<int> {
    set i | 0 <= i < |rs| && AndNat(addr, rs[i].mask) == rs[i].dest
  }

  /** The routes whose prefix covers it. */
  ghost function CoveringWords(rs: seq<Route<nat>>, addr: nat, bigEndian: bool): set<int> {
    set i | 0 <= i < |rs| && CoversWord(rs[i].dest, addr, rs[i].mask, bigEndian)
  }

  /** The selection loop of routethrough. */
  method SelectV4(rs: seq<Route<nat>>, addr: nat) returns (best: int)
    ensures Best(rs, Matching(rs, addr), |rs|, best)
  {
    hide Best;
    best := -1;
    ghost var hits := Matching(rs, addr);
    NoneYet(rs, hits);
    for i := 0 to |rs|
      invariant Best(rs, hits, i, best)
    {
      if AndNat(addr, rs[i].mask) == rs[i].dest {
        best := Consider(rs, hits, i, best);
      } else {
        Skip(rs, hits, i, best);
      }
    }
  }

  /** The routes with their prefix lengths in place of their masks. */
  function ByPrefix(rs: seq<Route<nat>>, prefixes: seq<nat>): (r: seq<Route<nat>>)
    requires |prefixes| == |rs|
    ensures |r| == |rs|
  {
    seq(|rs|, i requires 0 <= i < |rs| => rs[i].(mask := prefixes[i]))
  }

  /** A table of words with contiguous masks. */
  ghost predicate Contiguous(rs: seq<Route<nat>>, prefixes: seq<nat>, bigEndian: bool) {
    |prefixes| == |rs| && forall i | 0 <= i < |rs| ::
      prefixes[i] <= WORD_BITS && rs[i].dest < Pow2(WORD_BITS) && IsNetmask(rs[i].mask, prefixes[i], bigEndian)
  }

  /** With contiguous masks the route chosen is the best of those whose prefix covers the address, by
      prefix length, metric and index. */
  lemma LongestPrefixV4(rs: seq<Route<nat>>, prefixes: seq<nat>, bigEndian: bool, addr: nat, best: int)
    requires Contiguous(rs, prefixes, bigEndian) && addr < Pow2(WORD_BITS) && Best(rs, Matching(rs, addr), |rs|, best)
    ensures var ranked := ByPrefix(rs, prefixes); Best(ranked, CoveringWords(ranked, addr, bigEndian), |rs|, best)
  {
    hide AndNat, CoversWord, IsNetmask, Pow2;
    var ranked, hits := ByPrefix(rs, prefixes), Matching(rs, addr);
    forall i | 0 <= i < |rs| ensures i in hits <==> i in CoveringWords(ranked, addr, bigEndian) {
      MatchIffCovers(addr, rs[i].mask, rs[i].dest, prefixes[i], bigEndian);
    }
    if best != -1 {
      forall j | 0 <= j < |rs| && j in hits ensures NoBetter(ranked, j, best) {
        assert NoBetter(rs, j, best);
        MaskOrder(rs[j].mask, prefixes[j], rs[best].mask, prefixes[best], bigEndian);
      }
    }
  }
}
