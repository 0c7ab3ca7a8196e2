module Bytes {
  type byte = bv8

  /** A byte as a number, for tables indexed by bytes and arithmetic modulo 256. */
  type octet = n: nat | n < 256

  function Index(b: byte): octet { b as int }

  function ByteOf(n: octet): byte { n as byte }

  /** Every number below 256 is a byte. */
  lemma {:induction false} SomeByte(n: octet) returns (b: byte)
    ensures Index(b) == n
  {
    if n == 0 { return 0; }
    b := SomeByte(n - 1);
    assert b != 255;
    ByteAfter(b);
    b := b + 1;
  }

  lemma ByteAfter(b: byte)
    requires b < 255
    ensures (b + 1) as int == b as int + 1
  {
  }

  function Xor(a: seq<byte>, b: seq<byte>): (r: seq<byte>)
    requires |a| == |b|
    ensures |r| == |a|
  {
    seq(|a|, k requires 0 <= k < |a| => a[k] ^ b[k])
  }

  lemma XorAppend(a: seq<byte>, b: seq<byte>, s: seq<byte>, t: seq<byte>)
    requires |a| == |s| && |b| == |t|
    ensures Xor(a + b, s + t) == Xor(a, s) + Xor(b, t)
  {
    var l, r := Xor(a + b, s + t), Xor(a, s) + Xor(b, t);
    forall k | 0 <= k < |l| ensures l[k] == r[k] {
      if k >= |a| { assert (a + b)[k] == b[k - |a|] && (s + t)[k] == t[k - |a|]; }
    }
  }
}
