/** The block function of MD5: section 3.4 of RFC 1321, and the unrolled form of the program. */
module Md5Block {
  import opened Bytes

  /** The four chaining words. */
  datatype Chain = Chain(a: bv32, b: bv32, c: bv32, d: bv32)

  /** The sum modulo 2^32. */
  function Plus(x: bv32, y: bv32): bv32 { x + y }

  lemma PlusCommutes(x: bv32, y: bv32)
    ensures Plus(x, y) == Plus(y, x)
  {
  }

  // ----- RFC 1321 -----

  /** The functions F, G, H and I of the four rounds. */
  function Auxiliary(round: nat, x: bv32, y: bv32, z: bv32): bv32 {
    match round
    case 0 => (x & y) | (!x & z)
    case 1 => (x & z) | (y & !z)
    case 2 => x ^ y ^ z
    case _ => y ^ (x | !z)
  }

  /** The message word used by operation `i`. */
  function WordIndex(i: nat): (k: nat)
    requires i < 64
    ensures k < 16
  {
    match i / 16
    case 0 => i
    case 1 => (5 * i + 1) % 16
    case 2 => (3 * i + 5) % 16
    case _ => 7 * i % 16
  }

  function Choice(k: nat, s0: nat, s1: nat, s2: nat, s3: nat): nat {
    if k == 0 then s0 else if k == 1 then s1 else if k == 2 then s2 else s3
  }

  /** The rotation of operation `i`. */
  function Rotation(i: nat): (s: nat)
    requires i < 64
    ensures s < 32
  {
    match i / 16
    case 0 => Choice(i % 4, 7, 12, 17, 22)
    case 1 => Choice(i % 4, 5, 9, 14, 20)
    case 2 => Choice(i % 4, 4, 11, 16, 23)
    case _ => Choice(i % 4, 6, 10, 15, 21)
  }

  datatype Four = Four(t0: bv32, t1: bv32, t2: bv32, t3: bv32)

  /** The table constructed from the sine function, four entries at a time. */
  function SineRow(q: nat): Four {
    match q
    case 0 => Four(0xd76aa478, 0xe8c7b756, 0x242070db, 0xc1bdceee)
    case 1 => Four(0xf57c0faf, 0x4787c62a, 0xa8304613, 0xfd469501)
    case 2 => Four(0x698098d8, 0x8b44f7af, 0xffff5bb1, 0x895cd7be)
    case 3 => Four(0x6b901122, 0xfd987193, 0xa679438e, 0x49b40821)
    case 4 => Four(0xf61e2562, 0xc040b340, 0x265e5a51, 0xe9b6c7aa)
    case 5 => Four(0xd62f105d, 0x02441453, 0xd8a1e681, 0xe7d3fbc8)
    case 6 => Four(0x21e1cde6, 0xc33707d6, 0xf4d50d87, 0x455a14ed)
    case 7 => Four(0xa9e3e905, 0xfcefa3f8, 0x676f02d9, 0x8d2a4c8a)
    case 8 => Four(0xfffa3942, 0x8771f681, 0x6d9d6122, 0xfde5380c)
    case 9 => Four(0xa4beea44, 0x4bdecfa9, 0xf6bb4b60, 0xbebfbc70)
    case 10 => Four(0x289b7ec6, 0xeaa127fa, 0xd4ef3085, 0x04881d05)
    case 11 => Four(0xd9d4d039, 0xe6db99e5, 0x1fa27cf8, 0xc4ac5665)
    case 12 => Four(0xf4292244, 0x432aff97, 0xab9423a7, 0xfc93a039)
    case 13 => Four(0x655b59c3, 0x8f0ccc92, 0xffeff47d, 0x85845dd1)
    case 14 => Four(0x6fa87e4f, 0xfe2ce6e0, 0xa3014314, 0x4e0811a1)
    case _ => Four(0xf7537e82, 0xbd3af235, 0x2ad7d2bb, 0xeb86d391)
  }

  function Sine(i: nat): bv32 {
    var row := SineRow(i / 4);
    match i % 4
    case 0 => row.t0
    case 1 => row.t1
    case 2 => row.t2
    case _ => row.t3
  }

  function Rotated(w: bv32, s: nat): bv32
    requires s < 32
  {
    (w << s) | (w >> (32 - s))
  }

  /** Operation `i`, after which the words change places for the next one. */
  function Operation(h: Chain, m: seq<bv32>, i: nat): Chain
    requires |m| == 16 && i < 64
  {
    var sum := Plus(h.a, Plus(Auxiliary(i / 16, h.b, h.c, h.d), Plus(m[WordIndex(i)], Sine(i))));
    Chain(h.d, Plus(h.b, Rotated(sum, Rotation(i))), h.b, h.c)
  }

  function After(h: Chain, m: seq<bv32>, n: nat): Chain
    requires |m| == 16 && n <= 64
  {
    if n == 0 then h else Operation(After(h, m, n - 1), m, n - 1)
  }

  function Added(h: Chain, o: Chain): Chain {
    Chain(Plus(h.a, o.a), Plus(h.b, o.b), Plus(h.c, o.c), Plus(h.d, o.d))
  }

  function Word(b0: byte, b1: byte, b2: byte, b3: byte): bv32 {
    (b0 as bv32) | ((b1 as bv32) << 8) | ((b2 as bv32) << 16) | ((b3 as bv32) << 24)
  }

  /** The block as words, low byte first. */
  function MessageWords(b: seq<byte>): (m: seq<bv32>)
    requires |b| == 64
    ensures |m| == 16
  {
    seq(16, k requires 0 <= k < 16 => Word(b[4 * k], b[4 * k + 1], b[4 * k + 2], b[4 * k + 3]))
  }

  /** What a block of 64 bytes makes of the chaining words. */
  function Compress(h: Chain, b: seq<byte>): Chain {
    if |b| == 64 then Added(h, After(h, MessageWords(b), 64)) else h
  }

  // ----- the program -----

  function F1(x: bv32, y: bv32, z: bv32): (r: bv32)
    ensures r == (x & y) | (!x & z)
  {
    z ^ (x & (y ^ z))
  }

  function F2(x: bv32, y: bv32, z: bv32): (r: bv32)
    ensures r == (x & z) | (y & !z)
  {
    F1(z, x, y)
  }

  function F3(x: bv32, y: bv32, z: bv32): bv32 { x ^ y ^ z }

  function F4(x: bv32, y: bv32, z: bv32): bv32 { y ^ (x | !z) }

  function Core(round: nat, x: bv32, y: bv32, z: bv32): (r: bv32)
    ensures r == Auxiliary(round, x, y, z)
  {
    match round
    case 0 => F1(x, y, z)
    case 1 => F2(x, y, z)
    case 2 => F3(x, y, z)
    case _ => F4(x, y, z)
  }

  /** One step is the operation whose word, constant, function and rotation it is given; the words
      stay in place, so the next step names them in another order. */
  method Step(round: nat, w: bv32, x: bv32, y: bv32, z: bv32, data: bv32, s: nat,
              ghost h: Chain, ghost m: seq<bv32>, ghost i: nat) returns (v: bv32)
    requires |m| == 16 && i < 64 && Chain(w, x, y, z) == After(h, m, i)
    requires round == i / 16 && s == Rotation(i) && data == Plus(m[WordIndex(i)], Sine(i))
    ensures Chain(z, v, x, y) == After(h, m, i + 1)
  {
    hide Auxiliary, Core, Rotated, Sine, Rotation, WordIndex, Plus;
    v := Plus(w, Plus(Core(round, x, y, z), data));
    v := Rotated(v, s);
    PlusCommutes(v, x);
    v := Plus(v, x);
  }

  lemma FirstRows()
    ensures SineRow(0) == Four(0xd76aa478, 0xe8c7b756, 0x242070db, 0xc1bdceee)
    ensures SineRow(1) == Four(0xf57c0faf, 0x4787c62a, 0xa8304613, 0xfd469501)
    ensures SineRow(2) == Four(0x698098d8, 0x8b44f7af, 0xffff5bb1, 0x895cd7be)
    ensures SineRow(3) == Four(0x6b901122, 0xfd987193, 0xa679438e, 0x49b40821)
  {
  }

  lemma FirstTable()
    ensures WordIndex(0) == 0 && Rotation(0) == 7 && Sine(0) == 0xd76aa478
    ensures WordIndex(1) == 1 && Rotation(1) == 12 && Sine(1) == 0xe8c7b756
    ensures WordIndex(2) == 2 && Rotation(2) == 17 && Sine(2) == 0x242070db
    ensures WordIndex(3) == 3 && Rotation(3) == 22 && Sine(3) == 0xc1bdceee
    ensures WordIndex(4) == 4 && Rotation(4) == 7 && Sine(4) == 0xf57c0faf
    ensures WordIndex(5) == 5 && Rotation(5) == 12 && Sine(5) == 0x4787c62a
    ensures WordIndex(6) == 6 && Rotation(6) == 17 && Sine(6) == 0xa8304613
    ensures WordIndex(7) == 7 && Rotation(7) == 22 && Sine(7) == 0xfd469501
    ensures WordIndex(8) == 8 && Rotation(8) == 7 && Sine(8) == 0x698098d8
    ensures WordIndex(9) == 9 && Rotation(9) == 12 && Sine(9) == 0x8b44f7af
    ensures WordIndex(10) == 10 && Rotation(10) == 17 && Sine(10) == 0xffff5bb1
    ensures WordIndex(11) == 11 && Rotation(11) == 22 && Sine(11) == 0x895cd7be
    ensures WordIndex(12) == 12 && Rotation(12) == 7 && Sine(12) == 0x6b901122
    ensures WordIndex(13) == 13 && Rotation(13) == 12 && Sine(13) == 0xfd987193
    ensures WordIndex(14) == 14 && Rotation(14) == 17 && Sine(14) == 0xa679438e
    ensures WordIndex(15) == 15 && Rotation(15) == 22 && Sine(15) == 0x49b40821
  {
    hide SineRow;
    FirstRows();
  }

  lemma SecondRows()
    ensures SineRow(4) == Four(0xf61e2562, 0xc040b340, 0x265e5a51, 0xe9b6c7aa)
    ensures SineRow(5) == Four(0xd62f105d, 0x02441453, 0xd8a1e681, 0xe7d3fbc8)
    ensures SineRow(6) == Four(0x21e1cde6, 0xc33707d6, 0xf4d50d87, 0x455a14ed)
    ensures SineRow(7) == Four(0xa9e3e905, 0xfcefa3f8, 0x676f02d9, 0x8d2a4c8a)
  {
  }

  lemma SecondTable()
    ensures WordIndex(16) == 1 && Rotation(16) == 5 && Sine(16) == 0xf61e2562
    ensures WordIndex(17) == 6 && Rotation(17) == 9 && Sine(17) == 0xc040b340
    ensures WordIndex(18) == 11 && Rotation(18) == 14 && Sine(18) == 0x265e5a51
    ensures WordIndex(19) == 0 && Rotation(19) == 20 && Sine(19) == 0xe9b6c7aa
    ensures WordIndex(20) == 5 && Rotation(20) == 5 && Sine(20) == 0xd62f105d
    ensures WordIndex(21) == 10 && Rotation(21) == 9 && Sine(21) == 0x02441453
    ensures WordIndex(22) == 15 && Rotation(22) == 14 && Sine(22) == 0xd8a1e681
    ensures WordIndex(23) == 4 && Rotation(23) == 20 && Sine(23) == 0xe7d3fbc8
    ensures WordIndex(24) == 9 && Rotation(24) == 5 && Sine(24) == 0x21e1cde6
    ensures WordIndex(25) == 14 && Rotation(25) == 9 && Sine(25) == 0xc33707d6
    ensures WordIndex(26) == 3 && Rotation(26) == 14 && Sine(26) == 0xf4d50d87
    ensures WordIndex(27) == 8 && Rotation(27) == 20 && Sine(27) == 0x455a14ed
    ensures WordIndex(28) == 13 && Rotation(28) == 5 && Sine(28) == 0xa9e3e905
    ensures WordIndex(29) == 2 && Rotation(29) == 9 && Sine(29) == 0xfcefa3f8
    ensures WordIndex(30) == 7 && Rotation(30) == 14 && Sine(30) == 0x676f02d9
    ensures WordIndex(31) == 12 && Rotation(31) == 20 && Sine(31) == 0x8d2a4c8a
  {
    hide SineRow;
    SecondRows();
  }

  lemma ThirdRows()
    ensures SineRow(8) == Four(0xfffa3942, 0x8771f681, 0x6d9d6122, 0xfde5380c)
    ensures SineRow(9) == Four(0xa4beea44, 0x4bdecfa9, 0xf6bb4b60, 0xbebfbc70)
    ensures SineRow(10) == Four(0x289b7ec6, 0xeaa127fa, 0xd4ef3085, 0x04881d05)
    ensures SineRow(11) == Four(0xd9d4d039, 0xe6db99e5, 0x1fa27cf8, 0xc4ac5665)
  {
  }

  lemma ThirdTable()
    ensures WordIndex(32) == 5 && Rotation(32) == 4 && Sine(32) == 0xfffa3942
    ensures WordIndex(33) == 8 && Rotation(33) == 11 && Sine(33) == 0x8771f681
    ensures WordIndex(34) == 11 && Rotation(34) == 16 && Sine(34) == 0x6d9d6122
    ensures WordIndex(35) == 14 && Rotation(35) == 23 && Sine(35) == 0xfde5380c
    ensures WordIndex(36) == 1 && Rotation(36) == 4 && Sine(36) == 0xa4beea44
    ensures WordIndex(37) == 4 && Rotation(37) == 11 && Sine(37) == 0x4bdecfa9
    ensures WordIndex(38) == 7 && Rotation(38) == 16 && Sine(38) == 0xf6bb4b60
    ensures WordIndex(39) == 10 && Rotation(39) == 23 && Sine(39) == 0xbebfbc70
    ensures WordIndex(40) == 13 && Rotation(40) == 4 && Sine(40) == 0x289b7ec6
    ensures WordIndex(41) == 0 && Rotation(41) == 11 && Sine(41) == 0xeaa127fa
    ensures WordIndex(42) == 3 && Rotation(42) == 16 && Sine(42) == 0xd4ef3085
    ensures WordIndex(43) == 6 && Rotation(43) == 23 && Sine(43) == 0x04881d05
    ensures WordIndex(44) == 9 && Rotation(44) == 4 && Sine(44) == 0xd9d4d039
    ensures WordIndex(45) == 12 && Rotation(45) == 11 && Sine(45) == 0xe6db99e5
    ensures WordIndex(46) == 15 && Rotation(46) == 16 && Sine(46) == 0x1fa27cf8
    ensures WordIndex(47) == 2 && Rotation(47) == 23 && Sine(47) == 0xc4ac5665
  {
    hide SineRow;
    ThirdRows();
  }

  lemma FourthRows()
    ensures SineRow(12) == Four(0xf4292244, 0x432aff97, 0xab9423a7, 0xfc93a039)
    ensures SineRow(13) == Four(0x655b59c3, 0x8f0ccc92, 0xffeff47d, 0x85845dd1)
    ensures SineRow(14) == Four(0x6fa87e4f, 0xfe2ce6e0, 0xa3014314, 0x4e0811a1)
    ensures SineRow(15) == Four(0xf7537e82, 0xbd3af235, 0x2ad7d2bb, 0xeb86d391)
  {
  }

  lemma FourthTable()
    ensures WordIndex(48) == 0 && Rotation(48) == 6 && Sine(48) == 0xf4292244
    ensures WordIndex(49) == 7 && Rotation(49) == 10 && Sine(49) == 0x432aff97
    ensures WordIndex(50) == 14 && Rotation(50) == 15 && Sine(50) == 0xab9423a7
    ensures WordIndex(51) == 5 && Rotation(51) == 21 && Sine(51) == 0xfc93a039
    ensures WordIndex(52) == 12 && Rotation(52) == 6 && Sine(52) == 0x655b59c3
    ensures WordIndex(53) == 3 && Rotation(53) == 10 && Sine(53) == 0x8f0ccc92
    ensures WordIndex(54) == 10 && Rotation(54) == 15 && Sine(54) == 0xffeff47d
    ensures WordIndex(55) == 1 && Rotation(55) == 21 && Sine(55) == 0x85845dd1
    ensures WordIndex(56) == 8 && Rotation(56) == 6 && Sine(56) == 0x6fa87e4f
    ensures WordIndex(57) == 15 && Rotation(57) == 10 && Sine(57) == 0xfe2ce6e0
    ensures WordIndex(58) == 6 && Rotation(58) == 15 && Sine(58) == 0xa3014314
    ensures WordIndex(59) == 13 && Rotation(59) == 21 && Sine(59) == 0x4e0811a1
    ensures WordIndex(60) == 4 && Rotation(60) == 6 && Sine(60) == 0xf7537e82
    ensures WordIndex(61) == 11 && Rotation(61) == 10 && Sine(61) == 0xbd3af235
    ensures WordIndex(62) == 2 && Rotation(62) == 15 && Sine(62) == 0x2ad7d2bb
    ensures WordIndex(63) == 9 && Rotation(63) == 21 && Sine(63) == 0xeb86d391
  {
    hide SineRow;
    FourthRows();
  }

  method FirstRound(a0: bv32, b0: bv32, c0: bv32, d0: bv32, m: seq<bv32>, ghost h: Chain)
    returns (a: bv32, b: bv32, c: bv32, d: bv32)
    requires |m| == 16 && Chain(a0, b0, c0, d0) == After(h, m, 0)
    ensures Chain(a, b, c, d) == After(h, m, 16)
  {
    hide After, Plus, WordIndex, Rotation, Sine;
    FirstTable();
    a, b, c, d := a0, b0, c0, d0;
    a := Step(0, a, b, c, d, Plus(m[0], 0xd76aa478), 7, h, m, 0);
    d := Step(0, d, a, b, c, Plus(m[1], 0xe8c7b756), 12, h, m, 1);
    c := Step(0, c, d, a, b, Plus(m[2], 0x242070db), 17, h, m, 2);
    b := Step(0, b, c, d, a, Plus(m[3], 0xc1bdceee), 22, h, m, 3);
    a := Step(0, a, b, c, d, Plus(m[4], 0xf57c0faf), 7, h, m, 4);
    d := Step(0, d, a, b, c, Plus(m[5], 0x4787c62a), 12, h, m, 5);
    c := Step(0, c, d, a, b, Plus(m[6], 0xa8304613), 17, h, m, 6);
    b := Step(0, b, c, d, a, Plus(m[7], 0xfd469501), 22, h, m, 7);
    a := Step(0, a, b, c, d, Plus(m[8], 0x698098d8), 7, h, m, 8);
    d := Step(0, d, a, b, c, Plus(m[9], 0x8b44f7af), 12, h, m, 9);
    c := Step(0, c, d, a, b, Plus(m[10], 0xffff5bb1), 17, h, m, 10);
    b := Step(0, b, c, d, a, Plus(m[11], 0x895cd7be), 22, h, m, 11);
    a := Step(0, a, b, c, d, Plus(m[12], 0x6b901122), 7, h, m, 12);
    d := Step(0, d, a, b, c, Plus(m[13], 0xfd987193), 12, h, m, 13);
    c := Step(0, c, d, a, b, Plus(m[14], 0xa679438e), 17, h, m, 14);
    b := Step(0, b, c, d, a, Plus(m[15], 0x49b40821), 22, h, m, 15);
  }

  method SecondRound(a0: bv32, b0: bv32, c0: bv32, d0: bv32, m: seq<bv32>, ghost h: Chain)
    returns (a: bv32, b: bv32, c: bv32, d: bv32)
    requires |m| == 16 && Chain(a0, b0, c0, d0) == After(h, m, 16)
    ensures Chain(a, b, c, d) == After(h, m, 32)
  {
    hide After, Plus, WordIndex, Rotation, Sine;
    SecondTable();
    a, b, c, d := a0, b0, c0, d0;
    a := Step(1, a, b, c, d, Plus(m[1], 0xf61e2562), 5, h, m, 16);
    d := Step(1, d, a, b, c, Plus(m[6], 0xc040b340), 9, h, m, 17);
    c := Step(1, c, d, a, b, Plus(m[11], 0x265e5a51), 14, h, m, 18);
    b := Step(1, b, c, d, a, Plus(m[0], 0xe9b6c7aa), 20, h, m, 19);
    a := Step(1, a, b, c, d, Plus(m[5], 0xd62f105d), 5, h, m, 20);
    d := Step(1, d, a, b, c, Plus(m[10], 0x02441453), 9, h, m, 21);
    c := Step(1, c, d, a, b, Plus(m[15], 0xd8a1e681), 14, h, m, 22);
    b := Step(1, b, c, d, a, Plus(m[4], 0xe7d3fbc8), 20, h, m, 23);
    a := Step(1, a, b, c, d, Plus(m[9], 0x21e1cde6), 5, h, m, 24);
    d := Step(1, d, a, b, c, Plus(m[14], 0xc33707d6), 9, h, m, 25);
    c := Step(1, c, d, a, b, Plus(m[3], 0xf4d50d87), 14, h, m, 26);
    b := Step(1, b, c, d, a, Plus(m[8], 0x455a14ed), 20, h, m, 27);
    a := Step(1, a, b, c, d, Plus(m[13], 0xa9e3e905), 5, h, m, 28);
    d := Step(1, d, a, b, c, Plus(m[2], 0xfcefa3f8), 9, h, m, 29);
    c := Step(1, c, d, a, b, Plus(m[7], 0x676f02d9), 14, h, m, 30);
    b := Step(1, b, c, d, a, Plus(m[12], 0x8d2a4c8a), 20, h, m, 31);
  }

  method ThirdRound(a0: bv32, b0: bv32, c0: bv32, d0: bv32, m: seq<bv32>, ghost h: Chain)
    returns (a: bv32, b: bv32, c: bv32, d: bv32)
    requires |m| == 16 && Chain(a0, b0, c0, d0) == After(h, m, 32)
    ensures Chain(a, b, c, d) == After(h, m, 48)
  {
    hide After, Plus, WordIndex, Rotation, Sine;
    ThirdTable();
    a, b, c, d := a0, b0, c0, d0;
    a := Step(2, a, b, c, d, Plus(m[5], 0xfffa3942), 4, h, m, 32);
    d := Step(2, d, a, b, c, Plus(m[8], 0x8771f681), 11, h, m, 33);
    c := Step(2, c, d, a, b, Plus(m[11], 0x6d9d6122), 16, h, m, 34);
    b := Step(2, b, c, d, a, Plus(m[14], 0xfde5380c), 23, h, m, 35);
    a := Step(2, a, b, c, d, Plus(m[1], 0xa4beea44), 4, h, m, 36);
    d := Step(2, d, a, b, c, Plus(m[4], 0x4bdecfa9), 11, h, m, 37);
    c := Step(2, c, d, a, b, Plus(m[7], 0xf6bb4b60), 16, h, m, 38);
    b := Step(2, b, c, d, a, Plus(m[10], 0xbebfbc70), 23, h, m, 39);
    a := Step(2, a, b, c, d, Plus(m[13], 0x289b7ec6), 4, h, m, 40);
    d := Step(2, d, a, b, c, Plus(m[0], 0xeaa127fa), 11, h, m, 41);
    c := Step(2, c, d, a, b, Plus(m[3], 0xd4ef3085), 16, h, m, 42);
    b := Step(2, b, c, d, a, Plus(m[6], 0x04881d05), 23, h, m, 43);
    a := Step(2, a, b, c, d, Plus(m[9], 0xd9d4d039), 4, h, m, 44);
    d := Step(2, d, a, b, c, Plus(m[12], 0xe6db99e5), 11, h, m, 45);
    c := Step(2, c, d, a, b, Plus(m[15], 0x1fa27cf8), 16, h, m, 46);
    b := Step(2, b, c, d, a, Plus(m[2], 0xc4ac5665), 23, h, m, 47);
  }

  method FourthRound(a0: bv32, b0: bv32, c0: bv32, d0: bv32, m: seq<bv32>, ghost h: Chain)
    returns (a: bv32, b: bv32, c: bv32, d: bv32)
    requires |m| == 16 && Chain(a0, b0, c0, d0) == After(h, m, 48)
    ensures Chain(a, b, c, d) == After(h, m, 64)
  {
    hide After, Plus, WordIndex, Rotation, Sine;
    FourthTable();
    a, b, c, d := a0, b0, c0, d0;
    a := Step(3, a, b, c, d, Plus(m[0], 0xf4292244), 6, h, m, 48);
    d := Step(3, d, a, b, c, Plus(m[7], 0x432aff97), 10, h, m, 49);
    c := Step(3, c, d, a, b, Plus(m[14], 0xab9423a7), 15, h, m, 50);
    b := Step(3, b, c, d, a, Plus(m[5], 0xfc93a039), 21, h, m, 51);
    a := Step(3, a, b, c, d, Plus(m[12], 0x655b59c3), 6, h, m, 52);
    d := Step(3, d, a, b, c, Plus(m[3], 0x8f0ccc92), 10, h, m, 53);
    c := Step(3, c, d, a, b, Plus(m[10], 0xffeff47d), 15, h, m, 54);
    b := Step(3, b, c, d, a, Plus(m[1], 0x85845dd1), 21, h, m, 55);
    a := Step(3, a, b, c, d, Plus(m[8], 0x6fa87e4f), 6, h, m, 56);
    d := Step(3, d, a, b, c, Plus(m[15], 0xfe2ce6e0), 10, h, m, 57);
    c := Step(3, c, d, a, b, Plus(m[6], 0xa3014314), 15, h, m, 58);
    b := Step(3, b, c, d, a, Plus(m[13], 0x4e0811a1), 21, h, m, 59);
    a := Step(3, a, b, c, d, Plus(m[4], 0xf7537e82), 6, h, m, 60);
    d := Step(3, d, a, b, c, Plus(m[11], 0xbd3af235), 10, h, m, 61);
    c := Step(3, c, d, a, b, Plus(m[2], 0x2ad7d2bb), 15, h, m, 62);
    b := Step(3, b, c, d, a, Plus(m[9], 0xeb86d391), 21, h, m, 63);
  }

  /** MD5Transform. */
  method Transform(h: Chain, block: seq<byte>) returns (r: Chain)
    requires |block| == 64
    ensures r == Compress(h, block)
  {
    hide After, MessageWords, Plus;
    var m := MessageWords(block);
    assert After(h, m, 0) == h by { AfterNothing(h, m); }
    var a, b, c, d := FirstRound(h.a, h.b, h.c, h.d, m, h);
    a, b, c, d := SecondRound(a, b, c, d, m, h);
    a, b, c, d := ThirdRound(a, b, c, d, m, h);
    a, b, c, d := FourthRound(a, b, c, d, m, h);
    r := Chain(Plus(h.a, a), Plus(h.b, b), Plus(h.c, c), Plus(h.d, d));
  }

  lemma AfterNothing(h: Chain, m: seq<bv32>)
    requires |m| == 16
    ensures After(h, m, 0) == h
  {
  }
}
