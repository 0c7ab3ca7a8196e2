/** HMAC-MD5 with the key limited to 64 bytes. */
module Hmac {
  import opened Bytes
  import opened Md5
  import opened Md5Block
  import opened Sequences

  /** The key filled up to a block with zeros. */
  function Filled(key: seq<byte>): (k: seq<byte>)
    requires |key| <= 64
    ensures |k| == 64
  {
    key + Zeros(64 - |key|)
  }

  function Masked(k: seq<byte>, mask: byte): (r: seq<byte>)
    ensures |r| == |k|
  {
    seq(|k|, i requires 0 <= i < |k| => k[i] ^ mask)
  }

  /** Section 2 of RFC 2104, over MD5. */
  function Hmac(key: seq<byte>, text: seq<byte>): seq<byte> {
    var k := Filled(if |key| > 64 then Digest(Compress, key) else key);
    Digest(Compress, Masked(k, 0x5c) + Digest(Compress, Masked(k, 0x36) + text))
  }

  function Limited(key: seq<byte>): (k: seq<byte>)
    ensures |k| == (if |key| < 64 then |key| else 64) && k <= key
  {
    if |key| > 64 then key[..64] else key
  }

  /** A zeroed pad with the key copied to its start. */
  method NewPad(key: seq<byte>) returns (pad: array<byte>)
    requires |key| <= 64
    ensures fresh(pad) && pad[..] == Filled(key)
  {
    pad := new byte[64](_ => 0);
    forall j | 0 <= j < |key| { pad[j] := key[j]; }
  }

  /** The key in both pads, masked in place. */
  method MakePads(key: seq<byte>) returns (i: array<byte>, o: array<byte>)
    requires |key| <= 64
    ensures fresh(i) && fresh(o)
    ensures i[..] == Masked(Filled(key), 0x36) && o[..] == Masked(Filled(key), 0x5c)
  {
    hide Filled;
    i := NewPad(key);
    o := NewPad(key);
    ghost var k := Filled(key);
    for j := 0 to 64
      invariant forall n | 0 <= n < 64 :: i[n] == if n < j then k[n] ^ 0x36 else k[n]
      invariant forall n | 0 <= n < 64 :: o[n] == if n < j then k[n] ^ 0x5c else k[n]
    {
      i[j] := i[j] ^ 0x36;
      o[j] := o[j] ^ 0x5c;
    }
  }

  class Context {
    const ipad: array<byte>
    const opad: array<byte>
    const inner: Md5.Context

    ghost var key: seq<byte>
    ghost var text: seq<byte>

    ghost predicate Valid()
      reads this, ipad, opad, inner, inner.input
    {
      && inner.Valid()
      && {ipad, opad} !! {inner.input}
      && |key| <= 64
      && opad[..] == Masked(Filled(key), 0x5c)
      && inner.fed == Masked(Filled(key), 0x36) + text
    }

    /** hmac_md5_init_limK_to_64. */
    constructor (secret: seq<byte>)
      ensures Valid() && fresh(ipad) && fresh(opad) && fresh(inner) && fresh(inner.input)
      ensures key == Limited(secret) && text == []
    {
      hide Filled, Masked, Md5.Context.Valid;
      var k := Limited(secret);
      var i, o := MakePads(k);
      var c := new Md5.Context();
      c.Update(i[..]);
      ipad, opad, inner, key, text := i, o, c, k, [];
      new;
      assert Masked(Filled(key), 0x36) + [] == Masked(Filled(key), 0x36);
    }

    /** hmac_md5_update. */
    method Update(data: seq<byte>)
      requires Valid() && |data| < WORD
      modifies this, inner, inner.input
      ensures Valid() && text == old(text) + data && key == old(key)
    {
      hide Filled, Masked, Md5.Context.Valid;
      inner.Update(data);
      assert Masked(Filled(key), 0x36) + (text + data) == (Masked(Filled(key), 0x36) + text) + data;
      text := text + data;
    }

    /** hmac_md5_final: the outer digest is taken in a context of its own. */
    method Final() returns (digest: seq<byte>)
      requires Valid()
      modifies this, inner, inner.input
      ensures digest == Hmac(old(key), old(text))
    {
      hide Filled, Masked, Md5.Context.Valid, Digest, Compress;
      digest := inner.Final();
      var outer := new Md5.Context();
      outer.Update(opad[..]);
      outer.Update(digest);
      assert outer.fed == Masked(Filled(key), 0x5c) + digest;
      digest := outer.Final();
    }
  }

  /** Any chunking of the text: RFC 2104 on the first 64 bytes of the key. */
  method Mac(key: seq<byte>, chunks: seq<seq<byte>>) returns (digest: seq<byte>)
    requires forall i | 0 <= i < |chunks| :: |chunks[i]| < WORD
    ensures digest == Hmac(Limited(key), Joined(chunks))
    ensures |key| <= 64 ==> digest == Hmac(key, Joined(chunks))
  {
    hide Hmac;
    var ctx := new Context(key);
    for k := 0 to |chunks|
      invariant ctx.Valid() && ctx.key == Limited(key) && ctx.text == Joined(chunks[..k])
      invariant fresh(ctx.inner) && fresh(ctx.inner.input)
    {
      ctx.Update(chunks[k]);
      assert chunks[..k + 1][..k] == chunks[..k];
    }
    assert chunks[..|chunks|] == chunks;
    digest := ctx.Final();
  }
}
