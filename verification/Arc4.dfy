/** The RC4 cipher of the NTLMSSP code: a 258-byte state array, the last two bytes of
    which are the indices, worked on in place. */
module Arc4 {
  import opened Bytes

  datatype Cipher = Cipher(table: seq<octet>, i: octet, j: octet) {
    ghost predicate Valid() { IsPermutation(table) }
  }

  /** Every byte exactly once. */
  ghost predicate IsPermutation(t: seq<octet>) {
    |t| == 256 && forall v: octet :: multiset(t)[v] == 1
  }

  function Swap(t: seq<octet>, a: int, b: int): (r: seq<octet>)
    requires 0 <= a < |t| && 0 <= b < |t|
    ensures |r| == |t|
  {
    t[a := t[b]][b := t[a]]
  }

  // ----- the algorithm on values -----

  function Identity(n: nat): (t: seq<octet>)
    requires n <= 256
    ensures |t| == n && forall k | 0 <= k < n :: t[k] == k
  {
    if n == 0 then [] else Identity(n - 1) + [n - 1]
  }

  /** The table and the index after `n` steps of the key schedule. */
  function Schedule(key: seq<byte>, n: nat): (r: (seq<octet>, octet))
    requires |key| > 0 && n <= 256
    ensures |r.0| == 256
  {
    if n == 0 then (Identity(256), 0) else Mix(Schedule(key, n - 1), n - 1, Index(key[(n - 1) % |key|]))
  }

  /** One step of the key schedule. */
  function Mix(r: (seq<octet>, octet), n: nat, k: octet): (r': (seq<octet>, octet))
    requires |r.0| == 256 && n < 256
    ensures |r'.0| == 256
  {
    var j := (r.1 + r.0[n] + k) % 256;
    (Swap(r.0, n, j), j)
  }

  function Keyed(key: seq<byte>): (c: Cipher)
    requires |key| > 0
    ensures |c.table| == 256
  {
    Cipher(Schedule(key, 256).0, 0, 0)
  }

  /** The state after one more byte of output. */
  function Next(c: Cipher): (r: Cipher)
    requires |c.table| == 256
    ensures |r.table| == 256
  {
    var i := (c.i + 1) % 256;
    var j := (c.j + c.table[i]) % 256;
    Cipher(Swap(c.table, i, j), i, j)
  }

  function Output(c: Cipher): byte
    requires |c.table| == 256
  {
    ByteOf(c.table[(c.table[c.i] as int + c.table[c.j]) % 256])
  }

  function After(c: Cipher, n: nat): (r: Cipher)
    requires |c.table| == 256
    ensures |r.table| == 256
  {
    if n == 0 then c else Next(After(c, n - 1))
  }

  function Stream(c: Cipher, n: nat): (s: seq<byte>)
    requires |c.table| == 256
    ensures |s| == n
  {
    if n == 0 then [] else Stream(c, n - 1) + [Output(After(c, n))]
  }

  function Crypted(c: Cipher, data: seq<byte>): (r: seq<byte>)
    requires |c.table| == 256
    ensures |r| == |data|
  {
    Xor(data, Stream(c, |data|))
  }

  // ----- the table stays a permutation -----

  lemma SwapKeeps(t: seq<octet>, a: int, b: int)
    requires 0 <= a < |t| && 0 <= b < |t|
    ensures multiset(Swap(t, a, b)) == multiset(t)
    ensures IsPermutation(t) ==> IsPermutation(Swap(t, a, b))
  {
  }

  lemma {:induction false} IdentityOnce(n: nat, v: octet)
    requires n <= 256
    ensures multiset(Identity(n))[v] == if v < n then 1 else 0
  {
    if n > 0 { IdentityOnce(n - 1, v); }
  }

  lemma IdentityPermutes()
    ensures IsPermutation(Identity(256))
  {
    hide Identity;
    forall v: octet ensures multiset(Identity(256))[v] == 1 { IdentityOnce(256, v); }
  }

  lemma MixKeeps(r: (seq<octet>, octet), n: nat, k: octet)
    requires IsPermutation(r.0) && n < 256
    ensures IsPermutation(Mix(r, n, k).0)
  {
    hide Swap;
    SwapKeeps(r.0, n, (r.1 + r.0[n] + k) % 256);
  }

  lemma {:induction false} SchedulePermutes(key: seq<byte>, n: nat)
    requires |key| > 0 && n <= 256
    ensures IsPermutation(Schedule(key, n).0)
  {
    hide Mix, Identity, IsPermutation;
    if n == 0 {
      IdentityPermutes();
    } else {
      SchedulePermutes(key, n - 1);
      MixKeeps(Schedule(key, n - 1), n - 1, Index(key[(n - 1) % |key|]));
    }
  }

  lemma NextKeeps(c: Cipher)
    requires c.Valid()
    ensures Next(c).Valid()
  {
    hide Swap;
    var i := (c.i + 1) % 256;
    SwapKeeps(c.table, i, (c.j + c.table[i]) % 256);
  }

  /** After key setup and any amount of output. */
  lemma {:induction false} StaysPermutation(c: Cipher, n: nat)
    requires c.Valid()
    ensures After(c, n).Valid()
  {
    hide Next;
    if n > 0 {
      StaysPermutation(c, n - 1);
      NextKeeps(After(c, n - 1));
    }
  }

  lemma KeyedPermutes(key: seq<byte>, n: nat)
    requires |key| > 0
    ensures After(Keyed(key), n).Valid()
  {
    SchedulePermutes(key, 256);
    StaysPermutation(Keyed(key), n);
  }

  // ----- the key enters the table -----

  /** `r` is `t` with two entries exchanged. */
  ghost predicate Exchanged(t: seq<octet>, a: int, b: int, r: seq<octet>)
    requires 0 <= a < |t| && 0 <= b < |t|
  {
    |r| == |t| && r[a] == t[b] && r[b] == t[a] && forall k | 0 <= k < |t| && k != a && k != b :: r[k] == t[k]
  }

  /** Step `n` of the key schedule exchanges entry `n` with the one the new index names, and the key byte
      is what the new index has more than the old one and that entry. */
  lemma StepOfKey(key: seq<byte>, n: nat)
    requires |key| > 0 && n < 256
    ensures var (t, j) := Schedule(key, n); var (t', j') := Schedule(key, n + 1);
            Exchanged(t, n, j', t') && Index(key[n % |key|]) == (j' - j - t[n]) % 256
  {
    hide Index, Mix, Schedule;
    var r, k := Schedule(key, n), Index(key[n % |key|]);
    ScheduleNext(key, n);
    MixedIndex(r, n, k, Mix(r, n, k).1);
    MixedTable(r, n, k);
  }

  lemma ScheduleNext(key: seq<byte>, n: nat)
    requires |key| > 0 && n < 256
    ensures Schedule(key, n + 1) == Mix(Schedule(key, n), n, Index(key[n % |key|]))
  {
  }

  lemma MixedTable(r: (seq<octet>, octet), n: nat, k: octet)
    requires |r.0| == 256 && n < 256
    ensures Exchanged(r.0, n, Mix(r, n, k).1, Mix(r, n, k).0)
  {
  }

  lemma {:induction false} SamePrefix(a: seq<byte>, b: seq<byte>, n: nat)
    requires |a| == |b| == 256 && n <= 256 && a[..n] == b[..n]
    ensures Schedule(a, n) == Schedule(b, n)
  {
    hide Mix;
    if n > 0 {
      assert a[..n - 1] == a[..n][..n - 1] && b[..n - 1] == b[..n][..n - 1];
      SamePrefix(a, b, n - 1);
      assert a[n - 1] == a[..n][n - 1] && b[n - 1] == b[..n][n - 1];
      assert (n - 1) % 256 == n - 1;
    }
  }

  /** Every sequence of exchanges is made by some key. */
  lemma {:induction false} KeyFor(js: seq<octet>, n: nat) returns (key: seq<byte>)
    requires |js| == 256 && n <= 256
    ensures |key| == 256 && forall k | 0 <= k < n :: Schedule(key, k + 1).1 == js[k]
    decreases n
  {
    hide Schedule, Index;
    if n == 0 { return seq(256, _ => 0 as byte); }
    var m := n - 1;
    var prior := KeyFor(js, m);
    var (t, j) := Schedule(prior, m);
    var b: octet := (js[m] - j - t[m]) % 256;
    var x := SomeByte(b);
    key := prior[m := x];
    KeyLast(prior, key, m, b, js[m]);
    forall k | 0 <= k < n ensures Schedule(key, k + 1).1 == js[k] {
      if k < m {
        assert key[..k + 1] == prior[..k + 1];
        SamePrefix(key, prior, k + 1);
      }
    }
  }

  lemma KeyLast(prior: seq<byte>, key: seq<byte>, m: nat, b: octet, j': octet)
    requires |prior| == |key| == 256 && m < 256 && key[..m] == prior[..m] && Index(key[m]) == b
    requires b == (j' - Schedule(prior, m).1 - Schedule(prior, m).0[m]) % 256
    ensures Schedule(key, m + 1).1 == j'
  {
    hide Index, Schedule, Mix;
    SamePrefix(key, prior, m);
    Small(m, 256);
    ScheduleNext(key, m);
    MixedIndex(Schedule(prior, m), m, b, j');
  }

  lemma MixedIndex(r: (seq<octet>, octet), n: nat, k: octet, j: octet)
    requires |r.0| == 256 && n < 256
    ensures Mix(r, n, k).1 == j <==> k == (j - r.1 - r.0[n]) % 256
  {
    Around(r.1, r.0[n], k, j);
  }

  lemma Around(i: octet, t: octet, k: octet, j: octet)
    ensures (i + t + k) % 256 == j <==> k == (j - i - t) % 256
  {
  }

  /** No two keys of the same length make the same exchanges. */
  lemma ExchangesTellKey(a: seq<byte>, b: seq<byte>)
    requires 0 < |a| == |b| <= 256 && forall n | 0 <= n <= 256 :: Schedule(a, n).1 == Schedule(b, n).1
    ensures a == b
  {
    hide Schedule, Index;
    forall n | 0 <= n < |a| ensures a[n] == b[n] { SameKeyByte(a, b, n); }
  }

  lemma SameKeyByte(a: seq<byte>, b: seq<byte>, n: nat)
    requires n < |a| == |b| <= 256 && forall k | 0 <= k <= n + 1 :: Schedule(a, k).1 == Schedule(b, k).1
    ensures a[n] == b[n]
  {
    hide Schedule, Index, Exchanged;
    SameTables(a, b, n);
    StepOfKey(a, n);
    StepOfKey(b, n);
    Small(n, |a|);
    SameByte(a[n], b[n]);
  }

  lemma Small(n: nat, k: nat)
    requires n < k
    ensures n % k == n
  {
  }

  lemma SameByte(x: byte, y: byte)
    requires Index(x) == Index(y)
    ensures x == y
  {
  }

  lemma {:induction false} SameTables(a: seq<byte>, b: seq<byte>, n: nat)
    requires 0 < |a| && 0 < |b| && n <= 256 && forall k | 0 <= k <= n :: Schedule(a, k).1 == Schedule(b, k).1
    ensures Schedule(a, n).0 == Schedule(b, n).0
  {
    if n > 0 {
      hide Schedule, Index;
      SameTables(a, b, n - 1);
      StepOfKey(a, n - 1);
      StepOfKey(b, n - 1);
    } else {
      assert Schedule(a, 0) == Schedule(b, 0);
    }
  }

  // ----- chunks and decryption -----

  lemma {:induction false} AfterSum(c: Cipher, m: nat, n: nat)
    requires |c.table| == 256
    ensures After(After(c, m), n) == After(c, m + n)
  {
    hide Next;
    if n > 0 { AfterSum(c, m, n - 1); }
  }

  lemma {:induction false} StreamSum(c: Cipher, m: nat, n: nat)
    requires |c.table| == 256
    ensures Stream(c, m + n) == Stream(c, m) + Stream(After(c, m), n)
  {
    hide After, Output;
    if n > 0 {
      StreamSum(c, m, n - 1);
      AfterSum(c, m, n);
      assert m + n - 1 == m + (n - 1);
    }
  }

  /** Crypting in chunks is crypting the concatenation. */
  lemma ChunksConcatenate(c: Cipher, a: seq<byte>, b: seq<byte>)
    requires |c.table| == 256
    ensures Crypted(c, a + b) == Crypted(c, a) + Crypted(After(c, |a|), b)
    ensures After(c, |a + b|) == After(After(c, |a|), |b|)
  {
    hide After, Stream, Xor;
    var m, n := |a|, |b|;
    assert |a + b| == m + n;
    StreamSum(c, m, n);
    XorAppend(a, b, Stream(c, m), Stream(After(c, m), n));
    AfterSum(c, m, n);
  }

  /** Crypting twice from equal states restores the data. */
  lemma TwiceRestores(c: Cipher, data: seq<byte>)
    requires |c.table| == 256
    ensures Crypted(c, Crypted(c, data)) == data
  {
    var k := Stream(c, |data|);
    forall n | 0 <= n < |data| ensures Xor(Xor(data, k), k)[n] == data[n] { Undo(data[n], k[n]); }
  }

  lemma Undo(x: byte, y: byte)
    ensures (x ^ y) ^ y == x
  {
  }

  // ----- in place -----

  /** The cipher held in a state array. */
  function View(state: array<octet>): (c: Cipher)
    requires state.Length == 258
    reads state
    ensures |c.table| == 256
  {
    Cipher(state[..256], state[256], state[257])
  }

  method Exchange(state: array<octet>, a: int, b: int)
    requires state.Length == 258 && 0 <= a < 256 && 0 <= b < 256
    modifies state
    ensures state[..256] == Swap(old(state[..256]), a, b)
    ensures state[256] == old(state[256]) && state[257] == old(state[257])
  {
    var tc := state[a];
    state[a] := state[b];
    state[b] := tc;
  }

  method FillTable(state: array<octet>)
    requires state.Length == 258
    modifies state
    ensures state[..256] == Identity(256)
  {
    for ind := 0 to 256
      invariant state[..ind] == Identity(ind)
    {
      state[ind] := ind;
      assert state[..ind + 1] == state[..ind] + [ind];
    }
  }

  /** One turn of the key schedule loop. */
  method MixIn(state: array<octet>, ind: nat, j: octet, k: octet) returns (j': octet)
    requires state.Length == 258 && ind < 256
    modifies state
    ensures (state[..256], j') == Mix((old(state[..256]), j), ind, k)
  {
    j' := (j + state[ind] + k) % 256;
    Exchange(state, ind, j');
  }

  method Init(state: array<octet>, key: seq<byte>)
    requires state.Length == 258 && |key| > 0
    modifies state
    ensures View(state) == Keyed(key) && View(state).Valid()
  {
    hide Mix, Identity, IsPermutation, Index;
    var j := 0;
    FillTable(state);
    for ind := 0 to 256
      invariant (state[..256], j) == Schedule(key, ind)
    {
      j := MixIn(state, ind, j, Index(key[ind % |key|]));
    }
    ghost var t := state[..256];
    state[256] := 0;
    state[257] := 0;
    assert state[..256] == t;
    SchedulePermutes(key, 256);
  }

  lemma CryptedNext(c: Cipher, data: seq<byte>, n: nat)
    requires |c.table| == 256 && n < |data|
    ensures Crypted(c, data[..n + 1]) == Crypted(c, data[..n]) + [data[n] ^ Output(After(c, n + 1))]
  {
    hide After, Output;
  }

  method MaskAt(data: array<byte>, n: nat, k: byte)
    requires n < data.Length
    modifies data
    ensures data[..n + 1] == old(data[..n]) + [old(data[n]) ^ k] && data[n + 1..] == old(data[n + 1..])
  {
    data[n] := data[n] ^ k;
    assert data[..n + 1] == data[..n] + [data[n]];
  }

  /** The next byte of the key stream. */
  method Draw(state: array<octet>, i: octet, j: octet) returns (i': octet, j': octet, k: byte)
    requires state.Length == 258
    modifies state
    ensures Cipher(state[..256], i', j') == Next(Cipher(old(state[..256]), i, j))
    ensures k == Output(Cipher(state[..256], i', j'))
  {
    hide ByteOf;
    i' := (i + 1) % 256;
    j' := (j + state[i']) % 256;
    Exchange(state, i', j');
    var t := (state[i'] as int + state[j']) % 256;
    k := ByteOf(state[t]);
  }

  method Crypt(state: array<octet>, data: array<byte>, len: nat)
    requires state.Length == 258 && len <= data.Length && (state as object) != (data as object)
    modifies state, data
    ensures View(state) == After(old(View(state)), len)
    ensures data[..len] == Crypted(old(View(state)), old(data[..len]))
    ensures data[len..] == old(data[len..])
  {
    hide Next, Output, Xor, Stream;
    ghost var c, was := View(state), data[..];
    var i, j := state[256], state[257];
    for ind := 0 to len
      invariant Cipher(state[..256], i, j) == After(c, ind)
      invariant data[..ind] == Crypted(c, was[..ind]) && data[ind..] == was[ind..]
    {
      var k;
      i, j, k := Draw(state, i, j);
      assert data[ind] == data[ind..][0];
      CryptedNext(c, was, ind);
      MaskAt(data, ind, k);
    }
    ghost var t := state[..256];
    state[256] := i;
    state[257] := j;
    assert state[..256] == t;
  }
}
