/** The digest of the empty message, with which the test suite in section A.5 of RFC 1321 begins. */
module Md5Vector {
  import opened Bytes
  import opened Md5
  import opened Md5Block

  /** The words of the empty message's only block. */
  ghost predicate OnlyPadding(m: seq<bv32>) {
    |m| == 16 && m[0] == 0x80 && forall k | 1 <= k < 16 :: m[k] == 0
  }

  /** Operation `i` on known words. */
  lemma Known(m: seq<bv32>, i: nat, h: Chain, x: bv32)
    requires |m| == 16 && i < 64 && After(INIT, m, i) == h && Operation(h, m, i).b == x
    ensures After(INIT, m, i + 1) == Chain(h.d, x, h.b, h.c)
  {
  }

  lemma FirstWords(m: seq<bv32>)
    requires OnlyPadding(m) && After(INIT, m, 0) == Chain(0x67452301, 0xefcdab89, 0x98badcfe, 0x10325476)
    ensures After(INIT, m, 8) == Chain(0x32033344, 0x9bc13ce9, 0xf5b158db, 0x2f35d494)
  {
    hide After, WordIndex, Rotation, Sine;
    FirstTable();
    Known(m, 0, Chain(0x67452301, 0xefcdab89, 0x98badcfe, 0x10325476), 0xa5202774);
    Known(m, 1, Chain(0x10325476, 0xa5202774, 0xefcdab89, 0x98badcfe), 0xf59592dd);
    Known(m, 2, Chain(0x98badcfe, 0xf59592dd, 0xa5202774, 0xefcdab89), 0xe7f06b23);
    Known(m, 3, Chain(0xefcdab89, 0xe7f06b23, 0xf59592dd, 0xa5202774), 0x1b163203);
    Known(m, 4, Chain(0xa5202774, 0x1b163203, 0xe7f06b23, 0xf59592dd), 0x32033344);
    Known(m, 5, Chain(0xf59592dd, 0x32033344, 0x1b163203, 0xe7f06b23), 0x2f35d494);
    Known(m, 6, Chain(0xe7f06b23, 0x2f35d494, 0x32033344, 0x1b163203), 0xf5b158db);
    Known(m, 7, Chain(0x1b163203, 0xf5b158db, 0x2f35d494, 0x32033344), 0x9bc13ce9);
  }

  lemma SecondWords(m: seq<bv32>)
    requires OnlyPadding(m) && After(INIT, m, 8) == Chain(0x32033344, 0x9bc13ce9, 0xf5b158db, 0x2f35d494)
    ensures After(INIT, m, 16) == Chain(0xf56c7cf1, 0xd6819c6a, 0x5aa53f75, 0x374943a7)
  {
    hide After, WordIndex, Rotation, Sine;
    FirstTable();
    Known(m, 8, Chain(0x32033344, 0x9bc13ce9, 0xf5b158db, 0x2f35d494), 0x3893b991);
    Known(m, 9, Chain(0x2f35d494, 0x3893b991, 0x9bc13ce9, 0xf5b158db), 0xfce4a312);
    Known(m, 10, Chain(0xf5b158db, 0xfce4a312, 0x3893b991, 0x9bc13ce9), 0xe1ef0576);
    Known(m, 11, Chain(0x9bc13ce9, 0xe1ef0576, 0xfce4a312, 0x3893b991), 0x70768a29);
    Known(m, 12, Chain(0x3893b991, 0x70768a29, 0xe1ef0576, 0xfce4a312), 0xf56c7cf1);
    Known(m, 13, Chain(0xfce4a312, 0xf56c7cf1, 0x70768a29, 0xe1ef0576), 0x374943a7);
    Known(m, 14, Chain(0xe1ef0576, 0x374943a7, 0xf56c7cf1, 0x70768a29), 0x5aa53f75);
    Known(m, 15, Chain(0x70768a29, 0x5aa53f75, 0x374943a7, 0xf56c7cf1), 0xd6819c6a);
  }

  lemma ThirdWords(m: seq<bv32>)
    requires OnlyPadding(m) && After(INIT, m, 16) == Chain(0xf56c7cf1, 0xd6819c6a, 0x5aa53f75, 0x374943a7)
    ensures After(INIT, m, 24) == Chain(0x3d1e3e6c, 0xe422531a, 0xeb41643e, 0x68b7b3e3)
  {
    hide After, WordIndex, Rotation, Sine;
    SecondTable();
    Known(m, 16, Chain(0xf56c7cf1, 0xd6819c6a, 0x5aa53f75, 0x374943a7), 0x1c7d7513);
    Known(m, 17, Chain(0x374943a7, 0x1c7d7513, 0xd6819c6a, 0x5aa53f75), 0x7bd57a3a);
    Known(m, 18, Chain(0x5aa53f75, 0x7bd57a3a, 0x1c7d7513, 0xd6819c6a), 0xc095f13a);
    Known(m, 19, Chain(0xd6819c6a, 0xc095f13a, 0x7bd57a3a, 0x1c7d7513), 0xbd782e17);
    Known(m, 20, Chain(0x1c7d7513, 0xbd782e17, 0xc095f13a, 0x7bd57a3a), 0x3d1e3e6c);
    Known(m, 21, Chain(0x7bd57a3a, 0x3d1e3e6c, 0xbd782e17, 0xc095f13a), 0x68b7b3e3);
    Known(m, 22, Chain(0xc095f13a, 0x68b7b3e3, 0x3d1e3e6c, 0xbd782e17), 0xeb41643e);
    Known(m, 23, Chain(0xbd782e17, 0xeb41643e, 0x68b7b3e3, 0x3d1e3e6c), 0xe422531a);
  }

  lemma FourthWords(m: seq<bv32>)
    requires OnlyPadding(m) && After(INIT, m, 24) == Chain(0x3d1e3e6c, 0xe422531a, 0xeb41643e, 0x68b7b3e3)
    ensures After(INIT, m, 32) == Chain(0x13707036, 0xa2205f1f, 0x1c31c384, 0xae7813db)
  {
    hide After, WordIndex, Rotation, Sine;
    SecondTable();
    Known(m, 24, Chain(0x3d1e3e6c, 0xe422531a, 0xeb41643e, 0x68b7b3e3), 0x306ec122);
    Known(m, 25, Chain(0x68b7b3e3, 0x306ec122, 0xe422531a, 0xeb41643e), 0xd28c77c2);
    Known(m, 26, Chain(0xeb41643e, 0xd28c77c2, 0x306ec122, 0xe422531a), 0xa3c663da);
    Known(m, 27, Chain(0xe422531a, 0xa3c663da, 0xd28c77c2, 0x306ec122), 0xa0572807);
    Known(m, 28, Chain(0x306ec122, 0xa0572807, 0xa3c663da, 0xd28c77c2), 0x13707036);
    Known(m, 29, Chain(0xd28c77c2, 0x13707036, 0xa0572807, 0xa3c663da), 0xae7813db);
    Known(m, 30, Chain(0xa3c663da, 0xae7813db, 0x13707036, 0xa0572807), 0x1c31c384);
    Known(m, 31, Chain(0xa0572807, 0x1c31c384, 0xae7813db, 0x13707036), 0xa2205f1f);
  }

  lemma FifthWords(m: seq<bv32>)
    requires OnlyPadding(m) && After(INIT, m, 32) == Chain(0x13707036, 0xa2205f1f, 0x1c31c384, 0xae7813db)
    ensures After(INIT, m, 40) == Chain(0x5f7a9b2e, 0xc5dc8c15, 0x91ca4cb7, 0xabc34e16)
  {
    hide After, WordIndex, Rotation, Sine;
    ThirdTable();
    Known(m, 32, Chain(0x13707036, 0xa2205f1f, 0x1c31c384, 0xae7813db), 0xdf63eaa1);
    Known(m, 33, Chain(0xae7813db, 0xdf63eaa1, 0xa2205f1f, 0x1c31c384), 0xc3689f5b);
    Known(m, 34, Chain(0x1c31c384, 0xc3689f5b, 0xdf63eaa1, 0xa2205f1f), 0x12f3e755);
    Known(m, 35, Chain(0xa2205f1f, 0x12f3e755, 0xc3689f5b, 0xdf63eaa1), 0x004b6669);
    Known(m, 36, Chain(0xdf63eaa1, 0x004b6669, 0x12f3e755, 0xc3689f5b), 0x5f7a9b2e);
    Known(m, 37, Chain(0xc3689f5b, 0x5f7a9b2e, 0x004b6669, 0x12f3e755), 0xabc34e16);
    Known(m, 38, Chain(0x12f3e755, 0xabc34e16, 0x5f7a9b2e, 0x004b6669), 0x91ca4cb7);
    Known(m, 39, Chain(0x004b6669, 0x91ca4cb7, 0xabc34e16, 0x5f7a9b2e), 0xc5dc8c15);
  }

  lemma SixthWords(m: seq<bv32>)
    requires OnlyPadding(m) && After(INIT, m, 40) == Chain(0x5f7a9b2e, 0xc5dc8c15, 0x91ca4cb7, 0xabc34e16)
    ensures After(INIT, m, 48) == Chain(0x3f55edfd, 0xca7d2dbd, 0x68d84ea2, 0x22a31f54)
  {
    hide After, WordIndex, Rotation, Sine;
    ThirdTable();
    Known(m, 40, Chain(0x5f7a9b2e, 0xc5dc8c15, 0x91ca4cb7, 0xabc34e16), 0x4497169d);
    Known(m, 41, Chain(0xabc34e16, 0x4497169d, 0xc5dc8c15, 0x91ca4cb7), 0x76fd93d4);
    Known(m, 42, Chain(0x91ca4cb7, 0x76fd93d4, 0x4497169d, 0xc5dc8c15), 0xfd95f243);
    Known(m, 43, Chain(0xc5dc8c15, 0xfd95f243, 0x76fd93d4, 0x4497169d), 0x0fe32453);
    Known(m, 44, Chain(0x4497169d, 0x0fe32453, 0xfd95f243, 0x76fd93d4), 0x3f55edfd);
    Known(m, 45, Chain(0x76fd93d4, 0x3f55edfd, 0x0fe32453, 0xfd95f243), 0x22a31f54);
    Known(m, 46, Chain(0xfd95f243, 0x22a31f54, 0x3f55edfd, 0x0fe32453), 0x68d84ea2);
    Known(m, 47, Chain(0x0fe32453, 0x68d84ea2, 0x22a31f54, 0x3f55edfd), 0xca7d2dbd);
  }

  lemma SeventhWords(m: seq<bv32>)
    requires OnlyPadding(m) && After(INIT, m, 48) == Chain(0x3f55edfd, 0xca7d2dbd, 0x68d84ea2, 0x22a31f54)
    ensures After(INIT, m, 56) == Chain(0x5625a114, 0x1e77fa61, 0x392ad0d0, 0x3450f42b)
  {
    hide After, WordIndex, Rotation, Sine;
    FourthTable();
    Known(m, 48, Chain(0x3f55edfd, 0xca7d2dbd, 0x68d84ea2, 0x22a31f54), 0x93aa2577);
    Known(m, 49, Chain(0x22a31f54, 0x93aa2577, 0xca7d2dbd, 0x68d84ea2), 0x1688dc85);
    Known(m, 50, Chain(0x68d84ea2, 0x1688dc85, 0x93aa2577, 0xca7d2dbd), 0xcd85b8cb);
    Known(m, 51, Chain(0xca7d2dbd, 0xcd85b8cb, 0x1688dc85, 0x93aa2577), 0x561e0689);
    Known(m, 52, Chain(0x93aa2577, 0x561e0689, 0xcd85b8cb, 0x1688dc85), 0x5625a114);
    Known(m, 53, Chain(0x1688dc85, 0x5625a114, 0x561e0689, 0xcd85b8cb), 0x3450f42b);
    Known(m, 54, Chain(0xcd85b8cb, 0x3450f42b, 0x5625a114, 0x561e0689), 0x392ad0d0);
    Known(m, 55, Chain(0x561e0689, 0x392ad0d0, 0x3450f42b, 0x5625a114), 0x1e77fa61);
  }

  lemma EighthWords(m: seq<bv32>)
    requires OnlyPadding(m) && After(INIT, m, 56) == Chain(0x5625a114, 0x1e77fa61, 0x392ad0d0, 0x3450f42b)
    ensures After(INIT, m, 64) == Chain(0x7246fad3, 0x14e45506, 0xff4ea3eb, 0x6e10a476)
  {
    hide After, WordIndex, Rotation, Sine;
    FourthTable();
    Known(m, 56, Chain(0x5625a114, 0x1e77fa61, 0x392ad0d0, 0x3450f42b), 0x474a9c8c);
    Known(m, 57, Chain(0x3450f42b, 0x474a9c8c, 0x1e77fa61, 0x392ad0d0), 0xdfce00bc);
    Known(m, 58, Chain(0x392ad0d0, 0xdfce00bc, 0x474a9c8c, 0x1e77fa61), 0x36594b14);
    Known(m, 59, Chain(0x1e77fa61, 0x36594b14, 0xdfce00bc, 0x474a9c8c), 0x30130182);
    Known(m, 60, Chain(0x474a9c8c, 0x30130182, 0x36594b14, 0xdfce00bc), 0x7246fad3);
    Known(m, 61, Chain(0xdfce00bc, 0x7246fad3, 0x30130182, 0x36594b14), 0x6e10a476);
    Known(m, 62, Chain(0x36594b14, 0x6e10a476, 0x7246fad3, 0x30130182), 0xff4ea3eb);
    Known(m, 63, Chain(0x30130182, 0xff4ea3eb, 0x6e10a476, 0x7246fad3), 0x14e45506);
  }

  lemma EmptyBlock(m: seq<bv32>)
    requires OnlyPadding(m)
    ensures After(INIT, m, 64) == Chain(0x7246fad3, 0x14e45506, 0xff4ea3eb, 0x6e10a476)
  {
    hide After;
    assert After(INIT, m, 0) == INIT by { FirstWord(m); }
    FirstWords(m);
    SecondWords(m);
    ThirdWords(m);
    FourthWords(m);
    FifthWords(m);
    SixthWords(m);
    SeventhWords(m);
    EighthWords(m);
  }

  lemma FirstWord(m: seq<bv32>)
    requires |m| == 16
    ensures After(INIT, m, 0) == Chain(0x67452301, 0xefcdab89, 0x98badcfe, 0x10325476)
  {
  }

  /** MD5("") = d41d8cd98f00b204e9800998ecf8427e. */
  lemma EmptyMessage()
    ensures Digest(Compress, []) ==
            [0xd4, 0x1d, 0x8c, 0xd9, 0x8f, 0x00, 0xb2, 0x04, 0xe9, 0x80, 0x09, 0x98, 0xec, 0xf8, 0x42, 0x7e]
  {
    hide After;
    var p := Pad([]);
    EmptyPadding();
    assert p[..64] == p && p[64..] == [];
    var m := MessageWords(p);
    EmptyWords(p);
    EmptyBlock(m);
    var h := Chain(0xd98c1dd4, 0x04b2008f, 0x980980e9, 0x7e42f8ec);
    assert Compress(INIT, p) == h;
    assert Absorb(Compress, INIT, p) == h;
    OutputIs();
  }

  lemma EmptyPadding()
    ensures Pad([]) == [0x80] + Zeros(63)
  {
  }

  lemma EmptyWords(p: seq<byte>)
    requires p == [0x80] + Zeros(63)
    ensures OnlyPadding(MessageWords(p))
  {
  }

  /** Low byte first. */
  lemma LowByteFirst(n: nat, k: nat, q: nat, b: byte)
    requires k > 0 && n == 256 * q + Index(b)
    ensures LittleEndian(n, k) == [b] + LittleEndian(q, k - 1)
  {
    assert n % 256 == Index(b) && n / 256 == q;
  }

  lemma FourBytes(n: nat, b0: byte, b1: byte, b2: byte, b3: byte)
    requires n == Index(b0) + 256 * (Index(b1) + 256 * (Index(b2) + 256 * Index(b3)))
    ensures LittleEndian(n, 4) == [b0, b1, b2, b3]
  {
    hide LittleEndian, Index;
    var n3: nat := Index(b3);
    var n2: nat := Index(b2) + 256 * n3;
    var n1: nat := Index(b1) + 256 * n2;
    LowByteFirst(n, 4, n1, b0);
    LowByteFirst(n1, 3, n2, b1);
    LowByteFirst(n2, 2, n3, b2);
    LowByteFirst(n3, 1, 0, b3);
    assert |LittleEndian(0, 0)| == 0;
  }

  lemma OutputIs()
    ensures Output(Chain(0xd98c1dd4, 0x04b2008f, 0x980980e9, 0x7e42f8ec)) ==
            [0xd4, 0x1d, 0x8c, 0xd9, 0x8f, 0x00, 0xb2, 0x04, 0xe9, 0x80, 0x09, 0x98, 0xec, 0xf8, 0x42, 0x7e]
  {
    hide LittleEndian;
    FourBytes(0xd98c1dd4, 0xd4, 0x1d, 0x8c, 0xd9);
    FourBytes(0x04b2008f, 0x8f, 0x00, 0xb2, 0x04);
    FourBytes(0x980980e9, 0xe9, 0x80, 0x09, 0x98);
    FourBytes(0x7e42f8ec, 0xec, 0xf8, 0x42, 0x7e);
  }
}
