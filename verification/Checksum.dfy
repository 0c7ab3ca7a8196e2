/** The Internet checksum of the SYN scanner, and that of section 1 of RFC 1071. */
module Checksum {
  import opened Bytes

  type word = n: nat | n < 0x1_0000

  // ----- RFC 1071 -----

  /** Adjacent bytes as 16-bit words, an odd byte filled up with zero. */
  function Words(bytes: seq<octet>, bigEndian: bool): (ws: seq<word>)
    ensures |ws| == (|bytes| + 1) / 2
    decreases |bytes|
  {
    if bytes == [] then [] else
      var b: octet := if |bytes| > 1 then bytes[1] else 0;
      [Word(bytes[0], b, bigEndian)] + Words(if |bytes| > 1 then bytes[2..] else [], bigEndian)
  }

  function Word(first: octet, second: octet, bigEndian: bool): word {
    if bigEndian then 256 * (first as int) + second else first as int + 256 * (second as int)
  }

  /** One's complement addition: the carry comes back in at the low end. */
  function OnesAdd(a: word, b: word): word {
    if a as int + b < 0x1_0000 then a as int + b else a as int + b - 0xffff
  }

  function OnesSum(ws: seq<word>): word {
    if ws == [] then 0 else OnesAdd(ws[0], OnesSum(ws[1..]))
  }

  // ----- the folds -----

  function Sum(ws: seq<word>): nat {
    if ws == [] then 0 else ws[0] + Sum(ws[1..])
  }

  /** The 16-bit value congruent to `s` modulo 65535, zero only for zero. */
  function Ones(s: nat): word { if s == 0 then 0 else (s - 1) % 0xffff + 1 }

  function Fold(s: nat): nat { s / 0x1_0000 + s % 0x1_0000 }

  /** What the program computes from the plain sum. */
  function FoldTwice(s: nat): word {
    var t := Fold(s);
    (t + t / 0x1_0000) % 0x1_0000
  }

  lemma OnesPeriod(s: nat, q: nat)
    requires s > 0
    ensures Ones(s + 0xffff * q) == Ones(s)
  {
    assert (s - 1 + 0xffff * q) % 0xffff == (s - 1) % 0xffff;
  }

  lemma OnesUnique(s: nat, r: nat, q: nat)
    requires s == r + 0xffff * q && 0 < r <= 0xffff
    ensures Ones(s) == r
  {
    OnesPeriod(r, q);
  }

  lemma {:induction false} OnesSumIsOnes(ws: seq<word>)
    ensures OnesSum(ws) == Ones(Sum(ws))
  {
    if ws != [] {
      OnesSumIsOnes(ws[1..]);
      OnesAddIsOnes(ws[0], Sum(ws[1..]));
    }
  }

  lemma OnesAddIsOnes(w: word, s: nat)
    ensures OnesAdd(w, Ones(s)) == Ones(w + s)
  {
    if s > 0 {
      var q, r := (s - 1) / 0xffff, (s - 1) % 0xffff + 1;
      assert s == r + 0xffff * q;
      if r + w < 0x1_0000 {
        OnesUnique(s + w, r + w, q);
      } else {
        OnesUnique(s + w, r + w - 0xffff, q + 1);
      }
    } else if w > 0 {
      OnesUnique(w, w, 0);
    }
  }

  lemma FoldIsOnes(s: nat)
    ensures Ones(Fold(s)) == Ones(s)
  {
    var h, l := s / 0x1_0000, s % 0x1_0000;
    assert s == h + l + 0xffff * h;
    if h + l > 0 { OnesPeriod(h + l, h); }
  }

  /** The two folds are right exactly when the second one leaves no carry of its own. */
  lemma TwoFoldsExact(s: nat)
    requires s < 0x1_0000_0000_0000
    ensures FoldTwice(s) == Ones(s) <==> Fold(Fold(s)) < 0x1_0000
  {
    var t := Fold(s);
    FoldIsOnes(s);
    FoldIsOnes(t);
    var a, b := t / 0x1_0000, t % 0x1_0000;
    assert t == 0x1_0000 * a + b && Fold(t) == a + b;
    assert a <= 0x1_0000;
    if a + b < 0x1_0000 {
      assert (t + a) % 0x1_0000 == a + b;
      if a + b > 0 { OnesUnique(a + b, a + b, 0); }
    } else {
      assert a + b - 0x1_0000 < 0x1_0000 + 1;
      OnesUnique(a + b, a + b - 0xffff, 1);
    }
  }

  lemma {:induction false} SumBound(ws: seq<word>)
    ensures Sum(ws) <= 0xffff * |ws|
  {
    if ws != [] { SumBound(ws[1..]); }
  }

  /** Up to 65538 words the folds give the one's complement sum. */
  lemma FoldsSuffice(ws: seq<word>)
    requires |ws| <= 0x1_0002
    ensures FoldTwice(Sum(ws)) == OnesSum(ws)
  {
    hide Fold, FoldTwice, Ones, Sum, OnesSum;
    SumBound(ws);
    OnesSumIsOnes(ws);
    NoSecondCarry(Sum(ws));
    TwoFoldsExact(Sum(ws));
  }

  lemma NoSecondCarry(s: nat)
    requires s <= 0x1_0000_fffe
    ensures Fold(Fold(s)) < 0x1_0000
  {
    var h, l := s / 0x1_0000, s % 0x1_0000;
    assert h + l <= 0x1_fffe;
    if h + l < 0x1_0000 {
      assert Fold(h + l) == h + l;
    } else {
      assert Fold(h + l) == h + l - 0x1_0000 + 1;
    }
  }

  /** With one word more they need not. */
  lemma FoldsCanFail()
    ensures exists ws: seq<word> :: |ws| == 0x1_0003 && FoldTwice(Sum(ws)) != OnesSum(ws)
  {
    var n: nat :| n == 0x1_0002;
    var full := Repeat(n);
    var ws := [1] + full;
    assert ws[1..] == full;
    assert Sum(ws) == 0x1_0000_ffff;
    OnesSumIsOnes(ws);
    assert FoldTwice(0x1_0000_ffff) == 0 && Ones(0x1_0000_ffff) == 1;
  }

  function Repeat(n: nat): (ws: seq<word>)
    ensures |ws| == n && Sum(ws) == 0xffff * n
  {
    if n == 0 then [] else
      var ws: seq<word> := [0xffff] + Repeat(n - 1);
      assert ws[1..] == Repeat(n - 1);
      ws
  }

  // ----- what a checksum is for -----

  function Complement(w: word): word { 0xffff - w }

  lemma {:induction false} SumUpdate(ws: seq<word>, k: nat, w: word)
    requires k < |ws|
    ensures Sum(ws[k := w]) == Sum(ws) - ws[k] + w
  {
    if k > 0 {
      SumUpdate(ws[1..], k - 1, w);
      assert ws[k := w][1..] == ws[1..][k - 1 := w];
    } else {
      assert ws[k := w][1..] == ws[1..];
    }
  }

  /** Data that carries its own checksum in a field that was zero has checksum zero. */
  lemma StoredChecksumCancels(ws: seq<word>, k: nat)
    requires k < |ws| && ws[k] == 0
    ensures Complement(OnesSum(ws[k := Complement(OnesSum(ws))])) == 0
  {
    var s := Sum(ws);
    var c := Complement(OnesSum(ws));
    OnesSumIsOnes(ws);
    OnesSumIsOnes(ws[k := c]);
    SumUpdate(ws, k, c);
    var q := if s == 0 then 0 else (s - 1) / 0xffff;
    assert s + c == 0xffff + 0xffff * q;
    OnesUnique(s + c, 0xffff, q);
  }

  lemma {:induction false} SumTakeOut(ws: seq<word>, k: nat)
    requires k < |ws|
    ensures Sum(ws) == ws[k] + Sum(ws[..k] + ws[k + 1..])
  {
    if k == 0 {
      assert ws[..0] + ws[1..] == ws[1..];
    } else {
      SumTakeOut(ws[1..], k - 1);
      assert (ws[..k] + ws[k + 1..])[1..] == ws[1..][..k - 1] + ws[1..][k..];
    }
  }

  /** The order of the words does not matter. */
  lemma {:induction false} OrderIrrelevant(a: seq<word>, b: seq<word>)
    requires multiset(a) == multiset(b)
    ensures Sum(a) == Sum(b) && OnesSum(a) == OnesSum(b)
  {
    SameSum(a, b);
    OnesSumIsOnes(a);
    OnesSumIsOnes(b);
  }

  lemma TakeOut(ws: seq<word>, k: nat)
    requires k < |ws|
    ensures multiset(ws[..k] + ws[k + 1..]) == multiset(ws) - multiset{ws[k]}
  {
    assert ws == ws[..k] + [ws[k]] + ws[k + 1..];
  }

  lemma {:induction false} SameSum(a: seq<word>, b: seq<word>)
    requires multiset(a) == multiset(b)
    ensures Sum(a) == Sum(b)
  {
    if a == [] {
      assert |multiset(b)| == 0;
    } else {
      var k := Locate(a, b);
      SumTakeOut(b, k);
      SameSum(a[1..], b[..k] + b[k + 1..]);
    }
  }

  lemma Locate(a: seq<word>, b: seq<word>) returns (k: nat)
    requires multiset(a) == multiset(b) && a != []
    ensures k < |b| && b[k] == a[0] && multiset(a[1..]) == multiset(b[..k] + b[k + 1..])
  {
    assert a[0] in multiset(b);
    k :| 0 <= k < |b| && b[k] == a[0];
    TakeOut(b, k);
    TakeFirst(a);
  }

  lemma TakeFirst(a: seq<word>)
    requires a != []
    ensures multiset(a[1..]) == multiset(a) - multiset{a[0]}
  {
    assert a == [a[0]] + a[1..];
  }

  // ----- byte order -----

  function Swap(w: word): word { w % 256 * 256 + w / 256 }

  lemma WordsSwap(first: octet, second: octet)
    ensures Word(first, second, true) == Swap(Word(first, second, false))
  {
  }

  lemma SwapTimes256(w: word)
    ensures 256 * w == Swap(w) + 0xffff * (w / 256)
  {
  }

  lemma {:induction false} SumSwapped(bytes: seq<octet>) returns (q: nat)
    ensures 256 * Sum(Words(bytes, false)) == Sum(Words(bytes, true)) + 0xffff * q
    ensures Sum(Words(bytes, false)) == 0 <==> Sum(Words(bytes, true)) == 0
    decreases |bytes|
  {
    if bytes == [] {
      q := 0;
    } else {
      var rest := if |bytes| > 1 then bytes[2..] else [];
      var b: octet := if |bytes| > 1 then bytes[1] else 0;
      q := SumSwapped(rest);
      var w := Word(bytes[0], b, false);
      WordsSwap(bytes[0], b);
      SwapTimes256(w);
      q := q + w / 256;
    }
  }

  /** Either byte order stores the same two bytes. */
  lemma ByteOrderIrrelevant(bytes: seq<octet>)
    ensures OnesSum(Words(bytes, true)) == Swap(OnesSum(Words(bytes, false)))
  {
    var s, t := Sum(Words(bytes, false)), Sum(Words(bytes, true));
    OnesSumIsOnes(Words(bytes, false));
    OnesSumIsOnes(Words(bytes, true));
    var q := SumSwapped(bytes);
    if s > 0 {
      var r := Ones(s);
      var k := (s - 1) / 0xffff;
      assert s == r + 0xffff * k;
      SwapTimes256(r);
      assert t + 0xffff * q == Swap(r) + 0xffff * (256 * k + r / 256);
      assert 0 < Swap(r) <= 0xffff;
      OnesUnique(t + 0xffff * q, Swap(r), 256 * k + r / 256);
      OnesPeriod(t, q);
    }
  }

  // ----- the program -----

  /** in_cksum. */
  method InCksum(bytes: seq<octet>, bigEndian: bool) returns (answer: word)
    ensures answer == Complement(FoldTwice(Sum(Words(bytes, bigEndian))))
    ensures |bytes| <= 2 * 0x1_0002 ==> answer == Complement(OnesSum(Words(bytes, bigEndian)))
  {
    hide FoldTwice, OnesSum;
    var sum, n, p := 0, |bytes|, 0;
    while n > 1
      invariant 0 <= n && p + n == |bytes|
      invariant Sum(Words(bytes, bigEndian)) == sum + Sum(Words(bytes[p..], bigEndian))
    {
      assert bytes[p..][2..] == bytes[p + 2..];
      sum := sum + Word(bytes[p], bytes[p + 1], bigEndian);
      p := p + 2;
      n := n - 2;
    }
    if n == 1 {
      sum := sum + Word(bytes[p], 0, bigEndian);
    }
    assert sum == Sum(Words(bytes, bigEndian));
    answer := Complement(FoldTwice(sum));
    if |bytes| <= 2 * 0x1_0002 { FoldsSuffice(Words(bytes, bigEndian)); }
  }

  // ----- a checksum in its packet -----

  /** The bytes of a word in memory. */
  function FirstByte(w: word, bigEndian: bool): octet { if bigEndian then w / 256 else w % 256 }

  function SecondByte(w: word, bigEndian: bool): octet { if bigEndian then w % 256 else w / 256 }

  function WithField(bytes: seq<octet>, at: nat, w: word, bigEndian: bool): (r: seq<octet>)
    requires at + 1 < |bytes|
    ensures |r| == |bytes|
  {
    bytes[at := FirstByte(w, bigEndian)][at + 1 := SecondByte(w, bigEndian)]
  }

  lemma {:induction false} FieldIsWord(bytes: seq<octet>, k: nat, w: word, bigEndian: bool)
    requires 2 * k + 1 < |bytes|
    ensures Words(WithField(bytes, 2 * k, w, bigEndian), bigEndian) == Words(bytes, bigEndian)[k := w]
    decreases k
  {
    var r := WithField(bytes, 2 * k, w, bigEndian);
    if k == 0 {
      assert r[2..] == bytes[2..];
    } else {
      FieldIsWord(bytes[2..], k - 1, w, bigEndian);
      assert r[2..] == WithField(bytes[2..], 2 * (k - 1), w, bigEndian);
      assert r[0] == bytes[0] && r[1] == bytes[1];
    }
  }

  /** A packet whose checksum is stored, in the byte order of the machine, in the field that was zero when it
      was computed has checksum zero. */
  lemma StoredFieldCancels(bytes: seq<octet>, k: nat, bigEndian: bool)
    requires 2 * k + 1 < |bytes| <= 2 * 0x1_0002
    ensures var zeroed := WithField(bytes, 2 * k, 0, bigEndian);
            var c := Complement(FoldTwice(Sum(Words(zeroed, bigEndian))));
            Complement(FoldTwice(Sum(Words(WithField(zeroed, 2 * k, c, bigEndian), bigEndian)))) == 0
  {
    hide FoldTwice, Sum, OnesSum, WithField, Words;
    var zeroed := WithField(bytes, 2 * k, 0, bigEndian);
    var ws := Words(zeroed, bigEndian);
    var c := Complement(FoldTwice(Sum(ws)));
    FieldIsWord(bytes, k, 0, bigEndian);
    FieldIsWord(zeroed, k, c, bigEndian);
    FoldsSuffice(ws);
    FoldsSuffice(ws[k := c]);
    StoredChecksumCancels(ws, k);
  }

  /** The checksum of a packet stored in its field, as mktcp does for the IP header. */
  method StoreCksum(packet: array<octet>, at: nat, bigEndian: bool)
    requires at % 2 == 0 && at + 1 < packet.Length <= 2 * 0x1_0002
    modifies packet
    ensures Complement(FoldTwice(Sum(Words(packet[..], bigEndian)))) == 0
    ensures forall i | 0 <= i < packet.Length && i != at && i != at + 1 :: packet[i] == old(packet[i])
  {
    hide FoldTwice, Sum, OnesSum, Words;
    ghost var bytes := packet[..];
    packet[at], packet[at + 1] := 0, 0;
    assert packet[..] == WithField(bytes, at, 0, bigEndian);
    var c := InCksum(packet[..], bigEndian);
    packet[at], packet[at + 1] := FirstByte(c, bigEndian), SecondByte(c, bigEndian);
    assert packet[..] == WithField(WithField(bytes, at, 0, bigEndian), at, c, bigEndian);
    StoredFieldCancels(bytes, at / 2, bigEndian);
  }
}
