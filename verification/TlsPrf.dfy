/** The pseudorandom functions of TLS, over a keyed hash that is a parameter. */
module TlsPrf {
  import opened Bytes
  import opened Options

  type Mac = (seq<byte>, seq<byte>) -> seq<byte>

  ghost predicate Sized(mac: Mac, size: nat) {
    forall key: seq<byte>, text: seq<byte> :: |mac(key, text)| == size
  }

  // ----- section 5 of RFC 2246 -----

  function A(mac: Mac, secret: seq<byte>, seed: seq<byte>, i: nat): seq<byte> {
    if i == 0 then seed else mac(secret, A(mac, secret, seed, i - 1))
  }

  /** The first `n` blocks of P_hash, each as long as the hash. */
  function Blocks(mac: Mac, secret: seq<byte>, seed: seq<byte>, n: nat): seq<byte> {
    if n == 0 then [] else Blocks(mac, secret, seed, n - 1) + mac(secret, A(mac, secret, seed, n) + seed)
  }

  /** `r` is the beginning of P_hash. */
  ghost predicate Expands(mac: Mac, secret: seq<byte>, seed: seq<byte>, r: seq<byte>) {
    exists n: nat :: r <= Blocks(mac, secret, seed, n)
  }

  lemma {:induction false} BlocksPrefix(mac: Mac, secret: seq<byte>, seed: seq<byte>, m: nat, n: nat)
    requires m <= n
    ensures Blocks(mac, secret, seed, m) <= Blocks(mac, secret, seed, n)
  {
    if m < n { BlocksPrefix(mac, secret, seed, m, n - 1); }
  }

  /** A shorter output is a prefix of a longer one; so the length determines the output. */
  lemma ShorterIsPrefix(mac: Mac, secret: seq<byte>, seed: seq<byte>, r: seq<byte>, s: seq<byte>)
    requires Expands(mac, secret, seed, r) && Expands(mac, secret, seed, s) && |r| <= |s|
    ensures r == s[..|r|]
  {
    var m: nat :| r <= Blocks(mac, secret, seed, m);
    var n: nat :| s <= Blocks(mac, secret, seed, n);
    if m <= n { BlocksPrefix(mac, secret, seed, m, n); } else { BlocksPrefix(mac, secret, seed, n, m); }
  }

  // ----- the program -----

  /** The bytes of a C string. */
  function Terminated(s: seq<byte>): (r: seq<byte>)
    ensures r <= s && 0 !in r && (|r| < |s| ==> s[|r|] == 0)
  {
    if s == [] || s[0] == 0 then [] else [s[0]] + Terminated(s[1..])
  }

  /** tls_prf; `mac` is missing when the hash cannot be computed. */
  method Prf(mac: Option<Mac>, size: nat, secret: seq<byte>, seed: seq<byte>, tag: seq<byte>, outlen: nat)
    returns (r: Option<seq<byte>>)
    requires size > 0 && (mac.Some? ==> Sized(mac.value, size))
    ensures r.None? <==> mac.None?
    ensures r.Some? ==> |r.value| == outlen && Expands(mac.value, secret, Terminated(tag) + seed, r.value)
  {
    var lseed := Terminated(tag) + seed;
    if mac.None? { return None; }
    var h := mac.value;
    var ai := h(secret, lseed);
    var result := new byte[outlen](_ => 0);
    var pos := 0;
    ghost var n: nat := 0;
    while pos < outlen
      invariant pos <= outlen && ai == A(h, secret, lseed, n + 1)
      invariant result[..pos] <= Blocks(h, secret, lseed, n)
      invariant pos < outlen ==> result[..pos] == Blocks(h, secret, lseed, n)
    {
      var block := h(secret, ai + lseed);
      var clen := outlen - pos;
      if clen > size { clen := size; }
      ghost var before := result[..pos];
      forall k | 0 <= k < clen { result[pos + k] := block[k]; }
      assert result[..pos + clen] == before + block[..clen];
      pos := pos + clen;
      ai := h(secret, ai);
      n := n + 1;
    }
    assert result[..pos] == result[..];
    return Some(result[..]);
  }

  // ----- section 5 of RFC 4346 -----

  /** The length of either half of the secret. */
  function Half(n: nat): (h: nat)
    ensures h <= n && 2 * h == n + n % 2
  {
    (n + 1) / 2
  }

  /** The halves cover the secret and share the middle byte exactly when its length is odd. */
  lemma HalvesOverlap(secret: seq<byte>, h: nat, odd: nat)
    requires h == Half(|secret|) && odd == |secret| % 2
    ensures |secret[..h]| == |secret[|secret| - h..]|
    ensures secret == secret[..h - odd] + secret[|secret| - h..]
    ensures odd == 1 ==> secret[..h][h - 1] == secret[|secret| - h..][0]
  {
  }

  method Tls1Prf(md5: Option<Mac>, sha1: Option<Mac>, secret: seq<byte>, seed: seq<byte>, tag: seq<byte>, outlen: nat)
    returns (r: Option<seq<byte>>, ghost p: seq<byte>, ghost q: seq<byte>)
    requires (md5.Some? ==> Sized(md5.value, 16)) && (sha1.Some? ==> Sized(sha1.value, 20))
    ensures r.None? <==> md5.None? || sha1.None?
    ensures r.Some? ==> |p| == |q| == outlen && r.value == Xor(p, q)
    ensures r.Some? ==> Expands(md5.value, secret[..Half(|secret|)], Terminated(tag) + seed, p)
    ensures r.Some? ==> Expands(sha1.value, secret[|secret| - Half(|secret|)..], Terminated(tag) + seed, q)
  {
    hide Expands;
    var half, odd := |secret| / 2, 0;
    if |secret| % 2 != 0 {
      half, odd := (|secret| + 1) / 2, 1;
    }
    p, q := [], [];
    var a := Prf(md5, 16, secret[..half], seed, tag, outlen);
    if a.None? { return None, p, q; }
    var b := Prf(sha1, 20, secret[half - odd..half - odd + half], seed, tag, outlen);
    if b.None? { return None, p, q; }
    assert secret[half - odd..half - odd + half] == secret[|secret| - half..];
    var result := new byte[outlen](_ => 0);
    for i := 0 to outlen
      invariant forall k | 0 <= k < i :: result[k] == a.value[k] ^ b.value[k]
    {
      result[i] := a.value[i] ^ b.value[i];
    }
    assert result[..] == Xor(a.value, b.value);
    return Some(result[..]), a.value, b.value;
  }
}
