/** MD5: the one-shot algorithm of RFC 1321, and the incremental context of the program. */
module Md5 {
  import opened Bytes
  import opened Md5Block
  import opened Sequences

  /** The effect of one 64-byte block on the chaining words. */
  type BlockFunction = (Chain, seq<byte>) -> Chain

  const INIT := Chain(0x67452301, 0xefcdab89, 0x98badcfe, 0x10325476)
  const WORD := 0x1_0000_0000
  const DWORD := 0x1_0000_0000_0000_0000

  // ----- RFC 1321 -----

  /** The low `k` bytes of `n`, least significant first. */
  function LittleEndian(n: nat, k: nat): (s: seq<byte>)
    ensures |s| == k
  {
    if k == 0 then [] else [(n % 256) as byte] + LittleEndian(n / 256, k - 1)
  }

  function Zeros(k: nat): (s: seq<byte>)
    ensures |s| == k && forall i | 0 <= i < k :: s[i] == 0
  {
    seq(k, _ => 0 as byte)
  }

  /** Sections 3.1 and 3.2: a one bit, zeros up to 56 modulo 64 bytes, the length in bits. */
  function Pad(m: seq<byte>): seq<byte> {
    m + [0x80] + Zeros(Fill(|m| % 64)) + LittleEndian(8 * |m| % DWORD, 8)
  }

  /** The zeros needed when the last block holds `t` message bytes. */
  function Fill(t: nat): nat
    requires t < 64
  {
    if t < 56 then 55 - t else 119 - t
  }

  /** Section 3.4: the blocks in turn; what does not fill a block is ignored. */
  function Absorb(f: BlockFunction, h: Chain, m: seq<byte>): Chain
    decreases |m|
  {
    if |m| < 64 then h else Absorb(f, f(h, m[..64]), m[64..])
  }

  /** Section 3.5. */
  function Output(h: Chain): (s: seq<byte>)
    ensures |s| == 16
  {
    LittleEndian(h.a as int, 4) + LittleEndian(h.b as int, 4) +
    LittleEndian(h.c as int, 4) + LittleEndian(h.d as int, 4)
  }

  function Digest(f: BlockFunction, m: seq<byte>): (s: seq<byte>)
    ensures |s| == 16
  {
    Output(Absorb(f, INIT, Pad(m)))
  }

  // ----- blocks -----

  lemma {:induction false} AbsorbAppend(f: BlockFunction, h: Chain, m: seq<byte>, rest: seq<byte>)
    requires |m| % 64 == 0
    ensures Absorb(f, h, m + rest) == Absorb(f, Absorb(f, h, m), rest)
    decreases |m|
  {
    if |m| == 0 {
      assert m + rest == rest;
    } else {
      assert (m + rest)[..64] == m[..64] && (m + rest)[64..] == m[64..] + rest;
      AbsorbAppend(f, f(h, m[..64]), m[64..], rest);
    }
  }

  /** The next whole block of `m`. */
  lemma AbsorbBlock(f: BlockFunction, h: Chain, m: seq<byte>, k: nat)
    requires k % 64 == 0 && k + 64 <= |m|
    ensures Absorb(f, h, m[..k + 64]) == f(Absorb(f, h, m[..k]), m[k..k + 64])
  {
    assert m[..k + 64] == m[..k] + m[k..k + 64];
    AbsorbAppend(f, h, m[..k], m[k..k + 64]);
    var b := m[k..k + 64];
    assert b[..64] == b && |b[64..]| == 0;
  }

  // ----- the 64-bit count kept in two words -----

  /** Adding the bits of `len` bytes, with the carry found by comparison. */
  function AddBits(lo: nat, hi: nat, len: nat): (nat, nat) {
    var lo' := (lo + len * 8 % WORD) % WORD;
    var carry := if lo' < lo then 1 else 0;
    (lo', ((hi + carry) % WORD + len / 0x2000_0000) % WORD)
  }

  lemma TwoWords(x: nat, y: nat)
    requires y < WORD
    ensures (y + WORD * x) % DWORD == y + WORD * (x % WORD)
  {
    var q, r := x / WORD, x % WORD;
    assert y + WORD * x == DWORD * q + (y + WORD * r);
    assert 0 <= y + WORD * r < DWORD;
  }

  lemma SumModulo(a: nat, b: nat, c: nat)
    requires a == c % DWORD
    ensures (a + b) % DWORD == (c + b) % DWORD
  {
    var q := c / DWORD;
    assert c + b == DWORD * q + (a + b);
  }

  lemma AddAfterModulo(x: nat, y: nat)
    ensures (x % WORD + y) % WORD == (x + y) % WORD
  {
    var q := x / WORD;
    assert x + y == WORD * q + (x % WORD + y);
  }

  lemma Carry(a: nat, b: nat)
    requires a < WORD && b < WORD
    ensures var s := (a + b) % WORD; a + b == s + WORD * (if s < a then 1 else 0)
  {
    if a + b < WORD {
      assert (a + b) % WORD == a + b;
    } else {
      assert (a + b) % WORD == a + b - WORD;
    }
  }

  lemma BitsOf(len: nat)
    ensures len * 8 == len * 8 % WORD + WORD * (len / 0x2000_0000)
  {
    var q, r := len / 0x2000_0000, len % 0x2000_0000;
    assert len * 8 == WORD * q + 8 * r && 8 * r < WORD;
  }

  /** The two words count the bits modulo 2 to the 64, for any number of bytes. */
  lemma AddBitsCounts(lo: nat, hi: nat, len: nat, total: nat)
    requires lo < WORD && hi < WORD && len < WORD && lo + WORD * hi == 8 * total % DWORD
    ensures var (lo', hi') := AddBits(lo, hi, len);
            lo' < WORD && hi' < WORD && lo' + WORD * hi' == 8 * (total + len) % DWORD
  {
    var (lo', hi') := AddBits(lo, hi, len);
    var r, q := len * 8 % WORD, len / 0x2000_0000;
    var carry := if lo' < lo then 1 else 0;
    BitsOf(len);
    Carry(lo, r);
    assert lo + WORD * hi + 8 * len == lo' + WORD * (hi + carry + q);
    TwoWords(hi + carry + q, lo');
    AddAfterModulo(hi + carry, q);
    SumModulo(lo + WORD * hi, 8 * len, 8 * total);
  }

  /** The count modulo 64 bytes can be read off the low word. */
  lemma FillOf(lo: nat, hi: nat, total: nat)
    requires lo < WORD && lo + WORD * hi == 8 * total % DWORD
    ensures lo / 8 % 64 == total % 64
  {
    var q := 8 * total / DWORD;
    var x := 0x80_0000 * hi + 0x80_0000_0000_0000 * q;
    assert 8 * total == lo + WORD * hi + DWORD * q;
    BitsToBlocks(lo, x, total);
  }

  lemma BitsToBlocks(lo: nat, x: nat, total: nat)
    requires 8 * total == lo + 512 * x
    ensures lo / 8 % 64 == total % 64
  {
    assert lo / 8 == total - 64 * x;
    assert total % 64 == (lo / 8 + 64 * x) % 64;
  }

  // ----- padding -----

  function Pow256(k: nat): nat { if k == 0 then 1 else 256 * Pow256(k - 1) }

  lemma LowByte(lo: nat, x: nat)
    ensures (lo + 256 * x) % 256 == lo % 256 && (lo + 256 * x) / 256 == lo / 256 + x
  {
  }

  lemma LittleEndianFirst(n: nat, k: nat)
    requires k > 0
    ensures LittleEndian(n, k) == [(n % 256) as byte] + LittleEndian(n / 256, k - 1)
  {
  }

  /** The low byte of a number whose upper part is scaled by `256 * p`. */
  lemma LowByteScaled(lo: nat, p: nat, hi: nat)
    ensures (lo + (256 * p) * hi) % 256 == lo % 256 && (lo + (256 * p) * hi) / 256 == lo / 256 + p * hi
  {
    assert (256 * p) * hi == 256 * (p * hi);
    LowByte(lo, p * hi);
  }

  lemma {:induction false} LittleEndianAppend(lo: nat, hi: nat, k: nat, j: nat)
    requires lo < Pow256(k)
    ensures LittleEndian(lo + Pow256(k) * hi, k + j) == LittleEndian(lo, k) + LittleEndian(hi, j)
  {
    hide LittleEndian;
    if k == 0 {
      assert LittleEndian(lo, 0) == [];
    } else {
      var n := lo + Pow256(k) * hi;
      LowByteScaled(lo, Pow256(k - 1), hi);
      LittleEndianFirst(n, k + j);
      LittleEndianFirst(lo, k);
      LittleEndianAppend(lo / 256, hi, k - 1, j);
    }
  }

  lemma SplitWords(lo: nat, hi: nat)
    requires lo < WORD
    ensures LittleEndian(lo + WORD * hi, 8) == LittleEndian(lo, 4) + LittleEndian(hi, 4)
  {
    assert Pow256(4) == WORD by { assert Pow256(2) == 0x1_0000; }
    LittleEndianAppend(lo, hi, 4, 4);
  }

  lemma SingleBlock(f: BlockFunction, h: Chain, b: seq<byte>)
    requires |b| == 64
    ensures Absorb(f, h, b) == f(h, b)
  {
    assert b[..64] == b && |b[64..]| == 0;
  }

  lemma Regroup(a: seq<byte>, b: seq<byte>, c: seq<byte>, d: seq<byte>, e: seq<byte>)
    ensures ((a + b) + c + d) + e == a + (b + c + d + e)
  {
  }

  lemma RegroupLong(b: seq<byte>, c: seq<byte>, d: seq<byte>, e: seq<byte>, g: seq<byte>)
    ensures b + c + (d + e) + g == (b + c + d) + (e + g)
  {
  }

  lemma Remainder(n: nat, k: nat)
    requires k % 64 == 0 && k <= n < k + 64
    ensures n % 64 == n - k
  {
  }

  lemma PadRegrouped(m: seq<byte>, k: nat, length: seq<byte>)
    requires k <= |m| && |m| % 64 == |m| - k && length == LittleEndian(8 * |m| % DWORD, 8)
    ensures Pad(m) == m[..k] + (m[k..] + [0x80] + Zeros(Fill(|m| - k)) + length)
  {
    hide LittleEndian, Zeros, Fill;
    var a, b := m[..k], m[k..];
    assert m == a + b;
    Regroup(a, b, [0x80], Zeros(Fill(|m| - k)), length);
  }

  /** The padding fits into the block already begun. */
  lemma OneBlock(f: BlockFunction, m: seq<byte>, k: nat, length: seq<byte>)
    requires k % 64 == 0 && k <= |m| < k + 56 && length == LittleEndian(8 * |m| % DWORD, 8)
    ensures Absorb(f, INIT, Pad(m)) ==
            f(Absorb(f, INIT, m[..k]), m[k..] + [0x80] + Zeros(55 - (|m| - k)) + length)
  {
    hide Absorb, LittleEndian, Zeros, Pad;
    var b := m[k..] + [0x80] + Zeros(55 - (|m| - k)) + length;
    Remainder(|m|, k);
    PadRegrouped(m, k, length);
    AbsorbAppend(f, INIT, m[..k], b);
    SingleBlock(f, Absorb(f, INIT, m[..k]), b);
  }

  lemma ZerosSplit(a: nat, b: nat)
    ensures Zeros(a + b) == Zeros(a) + Zeros(b)
  {
  }

  /** The padding needs a block of its own. */
  lemma TwoBlocks(f: BlockFunction, m: seq<byte>, k: nat, length: seq<byte>)
    requires k % 64 == 0 && k + 56 <= |m| < k + 64 && length == LittleEndian(8 * |m| % DWORD, 8)
    ensures Absorb(f, INIT, Pad(m)) ==
            f(f(Absorb(f, INIT, m[..k]), m[k..] + [0x80] + Zeros(63 - (|m| - k))), Zeros(56) + length)
  {
    hide Absorb, LittleEndian, Zeros, Pad;
    var z := Zeros(63 - (|m| - k));
    var b1, b2 := m[k..] + [0x80] + z, Zeros(56) + length;
    Remainder(|m|, k);
    PadRegrouped(m, k, length);
    ZerosSplit(63 - (|m| - k), 56);
    RegroupLong(m[k..], [0x80], z, Zeros(56), length);
    TwoSteps(f, m[..k], b1, b2);
  }

  lemma TwoSteps(f: BlockFunction, m: seq<byte>, b1: seq<byte>, b2: seq<byte>)
    requires |m| % 64 == 0 && |b1| == |b2| == 64
    ensures Absorb(f, INIT, m + (b1 + b2)) == f(f(Absorb(f, INIT, m), b1), b2)
  {
    hide Absorb;
    var h := Absorb(f, INIT, m);
    AbsorbAppend(f, INIT, m, b1 + b2);
    AbsorbAppend(f, h, b1, b2);
    SingleBlock(f, h, b1);
    SingleBlock(f, f(h, b1), b2);
  }

  /** The block that `more` completes. */
  lemma LastBlock(fed: seq<byte>, more: seq<byte>, k: nat)
    requires k <= |fed| && |fed| - k + |more| == 64
    ensures (fed + more)[k..k + 64] == fed[k..] + more && (fed + more)[..k] == fed[..k]
  {
  }

  // ----- the context -----

  class Context {
    const input: array<byte>
    var h: Chain
    var bits0: nat
    var bits1: nat

    /** What has been fed so far, and how much of it in whole blocks. */
    ghost var fed: seq<byte>
    ghost var done: nat

    ghost predicate Counted()
      reads `bits0, `bits1, `fed
    {
      bits0 < WORD && bits1 < WORD && bits0 + WORD * bits1 == 8 * |fed| % DWORD
    }

    ghost predicate Held()
      reads `h, `fed, `done, input
    {
      && input.Length == 64
      && done % 64 == 0 && done <= |fed| < done + 64
      && h == Absorb(Compress, INIT, fed[..done])
      && input[..|fed| - done] == fed[done..]
    }

    ghost predicate Valid()
      reads this, input
    {
      Counted() && Held()
    }

    constructor ()
      ensures Valid() && fed == [] && fresh(input)
    {
      input := new byte[64](_ => 0);
      h, bits0, bits1, fed, done := INIT, 0, 0, [], 0;
    }

    /** memmove of `data` into the input buffer at `at`. */
    method Put(at: nat, data: seq<byte>)
      requires at + |data| <= input.Length
      modifies input
      ensures input[..at] == old(input[..at])
      ensures input[at..at + |data|] == data
      ensures input[at + |data|..] == old(input[at + |data|..])
    {
      forall i | 0 <= i < |data| { input[at + i] := data[i]; }
    }

    /** Adds `len` bytes to the bit count and returns the fill of the input buffer before. */
    method Count(len: nat) returns (t: nat)
      requires len < WORD && Counted()
      modifies `bits0, `bits1
      ensures bits0 < WORD && bits1 < WORD && bits0 + WORD * bits1 == 8 * (|fed| + len) % DWORD
      ensures t == |fed| % 64
    {
      AddBitsCounts(bits0, bits1, len, |fed|);
      FillOf(bits0, bits1, |fed|);
      t := bits0 / 8 % 64;
      var (lo, hi) := AddBits(bits0, bits1, len);
      bits0, bits1 := lo, hi;
    }

    /** Data that does not complete the block begun in the input buffer. */
    method Store(t: nat, data: seq<byte>)
      requires Held() && t == |fed| - done && t + |data| < 64
      modifies input, `fed
      ensures Held() && fed == old(fed) + data
    {
      hide Compress, Absorb;
      Put(t, data);
      assert input[..t + |data|] == input[..t] + input[t..t + |data|];
      assert (fed + data)[..done] == fed[..done];
      fed := fed + data;
    }

    /** Completes the block begun in the input buffer. */
    method Lead(t: nat, data: seq<byte>) returns (pos: nat)
      requires Held() && 0 < t == |fed| - done && |data| >= 64 - t
      modifies input, `h, `fed, `done
      ensures Held() && pos == 64 - t && fed == old(fed) + data[..pos] && done == |fed|
    {
      hide Compress, Absorb;
      pos := 64 - t;
      ghost var all := fed + data[..pos];
      Put(t, data[..pos]);
      assert input[..] == input[..t] + input[t..t + pos];
      LastBlock(fed, data[..pos], done);
      AbsorbBlock(Compress, INIT, all, done);
      h := Transform(h, input[..]);
      fed, done := all, done + 64;
      assert fed[..done] == fed && fed[done..] == [];
    }

    /** A whole block of the data. */
    method Block(data: seq<byte>)
      requires Held() && done == |fed| && |data| == 64
      modifies input, `h, `fed, `done
      ensures Held() && fed == old(fed) + data && done == |fed|
    {
      hide Compress, Absorb;
      ghost var all := fed + data;
      Put(0, data);
      assert input[..] == data && all[done..done + 64] == data && all[..done] == fed[..done];
      AbsorbBlock(Compress, INIT, all, done);
      assert all[..done + 64] == all;
      h := Transform(h, input[..]);
      fed, done := all, done + 64;
      assert fed[..done] == fed;
    }

    /** MD5Update. */
    method Update(data: seq<byte>)
      requires Valid() && |data| < WORD
      modifies this, input
      ensures Valid() && fed == old(fed) + data
    {
      hide Compress, Absorb, Held;
      HeldFacts();
      var t := Count(|data|);
      if t != 0 && |data| < 64 - t {
        Store(t, data);
        return;
      }
      var pos := 0;
      if t != 0 { pos := Lead(t, data); }
      while |data| - pos >= 64
        invariant 0 <= pos <= |data| && Held() && done == |fed| && fed == old(fed) + data[..pos]
        invariant bits0 < WORD && bits1 < WORD && bits0 + WORD * bits1 == 8 * (|old(fed)| + |data|) % DWORD
      {
        Block(data[pos..pos + 64]);
        assert data[..pos + 64] == data[..pos] + data[pos..pos + 64];
        pos := pos + 64;
      }
      Store(0, data[pos..]);
      assert data == data[..pos] + data[pos..];
    }

    /** A one bit and zeros after the first `t` bytes, up to position `end`. */
    method PadTo(t: nat, end: nat)
      requires input.Length == 64 && t < end <= 64
      modifies input
      ensures input[..end] == old(input[..t]) + [0x80] + Zeros(end - t - 1)
    {
      Put(t, [0x80]);
      assert input[..t + 1] == input[..t] + input[t..t + 1];
      Put(t + 1, Zeros(end - t - 1));
      assert input[..end] == input[..t + 1] + input[t + 1..end];
    }

    /** The length in the last eight bytes. */
    method PutLength()
      requires input.Length == 64
      modifies input
      ensures input[..] == old(input[..56]) + (LittleEndian(bits0, 4) + LittleEndian(bits1, 4))
    {
      hide LittleEndian;
      Put(56, LittleEndian(bits0, 4) + LittleEndian(bits1, 4));
      assert input[..] == input[..56] + input[56..64];
    }

    /** MD5Final: pads in one or two blocks, and clears the context. */
    method Final() returns (digest: seq<byte>)
      requires Valid()
      modifies this, input
      ensures digest == Digest(Compress, old(fed))
      ensures h == Chain(0, 0, 0, 0) && bits0 == bits1 == 0 && input[..] == Zeros(64)
    {
      hide Compress, Absorb, LittleEndian, Zeros, Pad, Fill;
      HeldFacts();
      FillOf(bits0, bits1, |fed|);
      var t := bits0 / 8 % 64;
      ghost var length := LittleEndian(bits0, 4) + LittleEndian(bits1, 4);
      SplitWords(bits0, bits1);
      if 63 - t < 8 {
        TwoBlocks(Compress, fed, done, length);
        PadTo(t, 64);
        assert input[..64] == input[..];
        h := Transform(h, input[..]);
        Put(0, Zeros(56));
        assert input[..56] == input[0..0 + 56];
      } else {
        OneBlock(Compress, fed, done, length);
        PadTo(t, 56);
      }
      PutLength();
      h := Transform(h, input[..]);
      digest := Output(h);
      Put(0, Zeros(64));
      assert input[..] == input[0..0 + 64];
      h, bits0, bits1 := Chain(0, 0, 0, 0), 0, 0;
    }

    lemma HeldFacts()
      requires Held()
      ensures done <= |fed| && |fed| % 64 == |fed| - done && input.Length == 64
    {
    }
  }

  /** MD5 over any split of a message into calls of MD5Update. */
  method Sum(chunks: seq<seq<byte>>) returns (digest: seq<byte>)
    requires forall i | 0 <= i < |chunks| :: |chunks[i]| < WORD
    ensures digest == Digest(Compress, Joined(chunks))
  {
    hide Digest, Compress;
    var ctx := new Context();
    for k := 0 to |chunks|
      invariant ctx.Valid() && ctx.fed == Joined(chunks[..k])
    {
      ctx.Update(chunks[k]);
      assert chunks[..k + 1][..k] == chunks[..k];
    }
    assert chunks[..|chunks|] == chunks;
    digest := ctx.Final();
  }
}
