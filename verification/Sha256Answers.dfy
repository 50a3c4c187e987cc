/** The published digests of the standard's example messages, as results of `Sha256Spec.Sha256`. */
module Sha256Answers {
  import opened Sha256Spec
  import opened Sha256Traces

  const ABC: Bytes := [0x61, 0x62, 0x63]

  lemma SmallBytes()
    ensures Byte(0) == 0 && Byte(1) == 1 && Byte(24) == 0x18 && Byte(192) == 0xc0
  {
  }

  /** The bytes of a number below 2^16: only the last two are not zero. */
  lemma BytesBelow(n: nat, k: nat)
    requires n < 0x1_0000 && k < 8
    ensures ByteAt(n, k) == if k == 0 then Byte(n % 256) else if k == 1 then Byte(n / 256) else 0
  {
    SmallBytes();
    if k == 1 {
      assert Pow256(1) == 256;
    } else if k > 1 {
      PowersAbove(k);
    }
  }

  lemma PowersAbove(k: nat)
    requires k > 1
    ensures Pow256(k) >= 0x1_0000
  {
    assert Pow256(1) == 256 * Pow256(0) == 256;
    if k > 2 { PowersAbove(k - 1); }
  }

  lemma Length24(i: nat)
    requires i < 8
    ensures BigEndian64(24)[i] == if i == 7 then 0x18 else 0
  {
    hide ByteAt, Byte;
    SmallBytes();
    BytesBelow(24, 7 - i);
  }

  /** The padded message "abc", word by word. */
  lemma AbcPadded(b: Bytes)
    requires b == Pad(ABC)
    ensures |b| == 64
    ensures Shows(b, 0,
      0x61626380, 0x00000000, 0x00000000, 0x00000000, 0x00000000, 0x00000000, 0x00000000, 0x00000000,
      0x00000000, 0x00000000, 0x00000000, 0x00000000, 0x00000000, 0x00000000, 0x00000000, 0x00000018)
  {
    hide BigEndian64, Word;
    assert ZeroCount(3) == 52;
    assert b == ABC + [0x80] + Zeros(52) + BigEndian64(24);
    forall i | 56 <= i < 64 ensures b[i] == if i == 63 then 0x18 else 0 {
      Length24(i - 56);
    }
    assert forall i | 4 <= i < 56 :: b[i] == 0;
    FirstWords(b, 0x61, 0x62, 0x63, 0x80, 0x18);
    AbcWords();
  }

  lemma AbcWords()
    ensures Word(0x61, 0x62, 0x63, 0x80) == 0x61626380 && Word(0, 0, 0, 0) == 0 && Word(0, 0, 0, 0x18) == 0x18
  {
  }

  /** A block of zeros but for its first four bytes and its last. */
  lemma FirstWords(b: Bytes, b0: bv8, b1: bv8, b2: bv8, b3: bv8, last: bv8)
    requires |b| == 64 && b[0] == b0 && b[1] == b1 && b[2] == b2 && b[3] == b3 && b[63] == last
    requires forall i | 4 <= i < 63 :: b[i] == 0
    ensures W(b, 0) == Word(b0, b1, b2, b3) && W(b, 15) == Word(0, 0, 0, last)
    ensures forall t | 1 <= t < 15 :: W(b, t) == Word(0, 0, 0, 0)
  {
    hide Word;
  }

  lemma AbcSums()
    ensures Add(0x6a09e667, 0x506e3058) == 0xba7816bf
    ensures Add(0xbb67ae85, 0xd39a2165) == 0x8f01cfea
    ensures Add(0x3c6ef372, 0x04d24d6c) == 0x414140de
    ensures Add(0xa54ff53a, 0xb85e2ce9) == 0x5dae2223
    ensures Add(0x510e527f, 0x5ef50f24) == 0xb00361a3
    ensures Add(0x9b05688c, 0xfb121210) == 0x96177a9c
    ensures Add(0x1f83d9ab, 0x948d25b6) == 0xb410ff61
    ensures Add(0x5be0cd19, 0x961f4894) == 0xf20015ad
  {
  }

  lemma AbcCompress(b: Bytes)
    requires |b| == 64
    requires Shows(b, 0,
      0x61626380, 0x00000000, 0x00000000, 0x00000000, 0x00000000, 0x00000000, 0x00000000, 0x00000000,
      0x00000000, 0x00000000, 0x00000000, 0x00000000, 0x00000000, 0x00000000, 0x00000000, 0x00000018)
    ensures Compress(
      [0x6a09e667, 0xbb67ae85, 0x3c6ef372, 0xa54ff53a, 0x510e527f, 0x9b05688c, 0x1f83d9ab, 0x5be0cd19], b) ==
      [0xba7816bf, 0x8f01cfea, 0x414140de, 0x5dae2223, 0xb00361a3, 0x96177a9c, 0xb410ff61, 0xf20015ad]
  {
    hide Rounds, Add, Shows;
    AbcBlock(b);
    AbcSums();
  }

  lemma AbcBytes()
    ensures WordBytes(0xba7816bf) == [0xba, 0x78, 0x16, 0xbf]
    ensures WordBytes(0x8f01cfea) == [0x8f, 0x01, 0xcf, 0xea]
    ensures WordBytes(0x414140de) == [0x41, 0x41, 0x40, 0xde]
    ensures WordBytes(0x5dae2223) == [0x5d, 0xae, 0x22, 0x23]
    ensures WordBytes(0xb00361a3) == [0xb0, 0x03, 0x61, 0xa3]
    ensures WordBytes(0x96177a9c) == [0x96, 0x17, 0x7a, 0x9c]
    ensures WordBytes(0xb410ff61) == [0xb4, 0x10, 0xff, 0x61]
    ensures WordBytes(0xf20015ad) == [0xf2, 0x00, 0x15, 0xad]
  {
  }

  lemma DigestHead(w: bv32, rest: seq<bv32>)
    ensures DigestBytes([w] + rest) == WordBytes(w) + DigestBytes(rest)
  {
    assert ([w] + rest)[1..] == rest;
  }

  lemma DigestHalf(a: bv32, b: bv32, c: bv32, d: bv32, rest: seq<bv32>)
    ensures DigestBytes([a, b, c, d] + rest)
         == WordBytes(a) + WordBytes(b) + WordBytes(c) + WordBytes(d) + DigestBytes(rest)
  {
    hide WordBytes, DigestBytes;
    DigestHead(d, rest);
    DigestHead(c, [d] + rest);
    DigestHead(b, [c] + ([d] + rest));
    DigestHead(a, [b] + ([c] + ([d] + rest)));
    assert [a, b, c, d] + rest == [a] + ([b] + ([c] + ([d] + rest)));
  }

  lemma DigestOf(a: bv32, b: bv32, c: bv32, d: bv32, e: bv32, f: bv32, g: bv32, h: bv32)
    ensures DigestBytes([a, b, c, d, e, f, g, h])
         == (WordBytes(a) + WordBytes(b) + WordBytes(c) + WordBytes(d))
            + (WordBytes(e) + WordBytes(f) + WordBytes(g) + WordBytes(h))
  {
    hide WordBytes, DigestBytes;
    DigestHalf(e, f, g, h, []);
    DigestHalf(a, b, c, d, [e, f, g, h]);
    assert [e, f, g, h] + [] == [e, f, g, h];
    assert [a, b, c, d] + [e, f, g, h] == [a, b, c, d, e, f, g, h];
    DigestNone();
  }

  lemma DigestNone()
    ensures DigestBytes([]) == []
  {
  }

  lemma OneBlock(b: Bytes)
    requires |b| == 64
    ensures HashBlocks(b) == Compress(INITIAL, b)
  {
    hide Compress;
    assert b[..0] == [] && b[0..] == b;
  }

  /** The digest of "abc". */
  lemma AbcDigest()
    ensures Sha256(ABC) ==
      [0xba, 0x78, 0x16, 0xbf, 0x8f, 0x01, 0xcf, 0xea, 0x41, 0x41, 0x40, 0xde, 0x5d, 0xae, 0x22, 0x23,
       0xb0, 0x03, 0x61, 0xa3, 0x96, 0x17, 0x7a, 0x9c, 0xb4, 0x10, 0xff, 0x61, 0xf2, 0x00, 0x15, 0xad]
  {
    hide Pad, HashBlocks, Compress, DigestBytes, WordBytes, Shows;
    var b := Pad(ABC);
    AbcPadded(b);
    OneBlock(b);
    AbcCompress(b);
    assert INITIAL == [0x6a09e667, 0xbb67ae85, 0x3c6ef372, 0xa54ff53a, 0x510e527f, 0x9b05688c, 0x1f83d9ab, 0x5be0cd19];
    DigestOf(0xba7816bf, 0x8f01cfea, 0x414140de, 0x5dae2223, 0xb00361a3, 0x96177a9c, 0xb410ff61, 0xf20015ad);
    AbcBytes();
  }

  // ----- the two-block message

  /** Bytes spelling "abcd", "bcde" and so on up to "nopq". */
  const ALPHABET: Bytes := A0 + A1 + A2 + A3

  const A0: Bytes := [
    0x61, 0x62, 0x63, 0x64, 0x62, 0x63, 0x64, 0x65, 0x63, 0x64, 0x65, 0x66, 0x64, 0x65, 0x66, 0x67]
  const A1: Bytes := [
    0x65, 0x66, 0x67, 0x68, 0x66, 0x67, 0x68, 0x69, 0x67, 0x68, 0x69, 0x6a, 0x68, 0x69, 0x6a, 0x6b]
  const A2: Bytes := [
    0x69, 0x6a, 0x6b, 0x6c, 0x6a, 0x6b, 0x6c, 0x6d, 0x6b, 0x6c, 0x6d, 0x6e, 0x6c, 0x6d, 0x6e, 0x6f]
  const A3: Bytes := [
    0x6d, 0x6e, 0x6f, 0x70, 0x6e, 0x6f, 0x70, 0x71]

  lemma AlphabetLength()
    ensures |A0| == 16 && |A1| == 16 && |A2| == 16 && |A3| == 8 && |ALPHABET| == 56
  {
  }

  lemma Length448(i: nat)
    requires i < 8
    ensures BigEndian64(448)[i] == if i == 7 then 0xc0 else if i == 6 then 1 else 0
  {
    hide ByteAt, Byte;
    SmallBytes();
    BytesBelow(448, 7 - i);
  }

  /** A message of 56 bytes is padded to two blocks. */
  lemma Padded56(m: Bytes, p: Bytes)
    requires |m| == 56 && p == Pad(m)
    ensures |p| == 128 && p[..64] == m + [0x80] + Zeros(7) && p[64..] == Zeros(56) + BigEndian64(448)
  {
    hide BigEndian64;
    assert ZeroCount(56) == 63;
    assert p == m + [0x80] + Zeros(63) + BigEndian64(448);
    assert Zeros(63) == Zeros(7) + Zeros(56);
    var x, y := m + [0x80] + Zeros(7), Zeros(56) + BigEndian64(448);
    assert p == x + y;
  }

  lemma FirstWord(b: Bytes, t: nat)
    requires |b| == 64 && t < 16
    ensures W(b, t) == Word(b[4 * t], b[4 * t + 1], b[4 * t + 2], b[4 * t + 3])
  {
  }

  lemma AlphabetBytes0(b: Bytes)
    requires |b| == 64 && b[..56] == ALPHABET
    ensures b[0] == 0x61 && b[1] == 0x62 && b[2] == 0x63 && b[3] == 0x64
    ensures b[4] == 0x62 && b[5] == 0x63 && b[6] == 0x64 && b[7] == 0x65
    ensures b[8] == 0x63 && b[9] == 0x64 && b[10] == 0x65 && b[11] == 0x66
    ensures b[12] == 0x64 && b[13] == 0x65 && b[14] == 0x66 && b[15] == 0x67
  {
    AlphabetLength();
    var a := b[0..16];
    assert a == A0;
    assert b[0] == a[0] && b[1] == a[1] && b[2] == a[2] && b[3] == a[3];
    assert b[4] == a[4] && b[5] == a[5] && b[6] == a[6] && b[7] == a[7];
    assert b[8] == a[8] && b[9] == a[9] && b[10] == a[10] && b[11] == a[11];
    assert b[12] == a[12] && b[13] == a[13] && b[14] == a[14] && b[15] == a[15];
  }

  lemma AlphabetWords0(b: Bytes)
    requires |b| == 64 && b[..56] == ALPHABET
    ensures W(b, 0) == 0x61626364
    ensures W(b, 1) == 0x62636465
    ensures W(b, 2) == 0x63646566
    ensures W(b, 3) == 0x64656667
  {
    hide Word, W;
    AlphabetBytes0(b);
    Quads0();
    FirstWord(b, 0);
    FirstWord(b, 1);
    FirstWord(b, 2);
    FirstWord(b, 3);
  }

  lemma Quads0()
    ensures Word(0x61, 0x62, 0x63, 0x64) == 0x61626364
    ensures Word(0x62, 0x63, 0x64, 0x65) == 0x62636465
    ensures Word(0x63, 0x64, 0x65, 0x66) == 0x63646566
    ensures Word(0x64, 0x65, 0x66, 0x67) == 0x64656667
  {
  }

  lemma AlphabetBytes1(b: Bytes)
    requires |b| == 64 && b[..56] == ALPHABET
    ensures b[16] == 0x65 && b[17] == 0x66 && b[18] == 0x67 && b[19] == 0x68
    ensures b[20] == 0x66 && b[21] == 0x67 && b[22] == 0x68 && b[23] == 0x69
    ensures b[24] == 0x67 && b[25] == 0x68 && b[26] == 0x69 && b[27] == 0x6a
    ensures b[28] == 0x68 && b[29] == 0x69 && b[30] == 0x6a && b[31] == 0x6b
  {
    AlphabetLength();
    var a := b[16..32];
    assert a == A1;
    assert b[16] == a[0] && b[17] == a[1] && b[18] == a[2] && b[19] == a[3];
    assert b[20] == a[4] && b[21] == a[5] && b[22] == a[6] && b[23] == a[7];
    assert b[24] == a[8] && b[25] == a[9] && b[26] == a[10] && b[27] == a[11];
    assert b[28] == a[12] && b[29] == a[13] && b[30] == a[14] && b[31] == a[15];
  }

  lemma AlphabetWords1(b: Bytes)
    requires |b| == 64 && b[..56] == ALPHABET
    ensures W(b, 4) == 0x65666768
    ensures W(b, 5) == 0x66676869
    ensures W(b, 6) == 0x6768696a
    ensures W(b, 7) == 0x68696a6b
  {
    hide Word, W;
    AlphabetBytes1(b);
    Quads1();
    FirstWord(b, 4);
    FirstWord(b, 5);
    FirstWord(b, 6);
    FirstWord(b, 7);
  }

  lemma Quads1()
    ensures Word(0x65, 0x66, 0x67, 0x68) == 0x65666768
    ensures Word(0x66, 0x67, 0x68, 0x69) == 0x66676869
    ensures Word(0x67, 0x68, 0x69, 0x6a) == 0x6768696a
    ensures Word(0x68, 0x69, 0x6a, 0x6b) == 0x68696a6b
  {
  }

  lemma AlphabetBytes2(b: Bytes)
    requires |b| == 64 && b[..56] == ALPHABET
    ensures b[32] == 0x69 && b[33] == 0x6a && b[34] == 0x6b && b[35] == 0x6c
    ensures b[36] == 0x6a && b[37] == 0x6b && b[38] == 0x6c && b[39] == 0x6d
    ensures b[40] == 0x6b && b[41] == 0x6c && b[42] == 0x6d && b[43] == 0x6e
    ensures b[44] == 0x6c && b[45] == 0x6d && b[46] == 0x6e && b[47] == 0x6f
  {
    AlphabetLength();
    var a := b[32..48];
    assert a == A2;
    assert b[32] == a[0] && b[33] == a[1] && b[34] == a[2] && b[35] == a[3];
    assert b[36] == a[4] && b[37] == a[5] && b[38] == a[6] && b[39] == a[7];
    assert b[40] == a[8] && b[41] == a[9] && b[42] == a[10] && b[43] == a[11];
    assert b[44] == a[12] && b[45] == a[13] && b[46] == a[14] && b[47] == a[15];
  }

  lemma AlphabetWords2(b: Bytes)
    requires |b| == 64 && b[..56] == ALPHABET
    ensures W(b, 8) == 0x696a6b6c
    ensures W(b, 9) == 0x6a6b6c6d
    ensures W(b, 10) == 0x6b6c6d6e
    ensures W(b, 11) == 0x6c6d6e6f
  {
    hide Word, W;
    AlphabetBytes2(b);
    Quads2();
    FirstWord(b, 8);
    FirstWord(b, 9);
    FirstWord(b, 10);
    FirstWord(b, 11);
  }

  lemma Quads2()
    ensures Word(0x69, 0x6a, 0x6b, 0x6c) == 0x696a6b6c
    ensures Word(0x6a, 0x6b, 0x6c, 0x6d) == 0x6a6b6c6d
    ensures Word(0x6b, 0x6c, 0x6d, 0x6e) == 0x6b6c6d6e
    ensures Word(0x6c, 0x6d, 0x6e, 0x6f) == 0x6c6d6e6f
  {
  }

  lemma AlphabetBytes3(b: Bytes)
    requires |b| == 64 && b[..56] == ALPHABET
    ensures b[48] == 0x6d && b[49] == 0x6e && b[50] == 0x6f && b[51] == 0x70
    ensures b[52] == 0x6e && b[53] == 0x6f && b[54] == 0x70 && b[55] == 0x71
  {
    AlphabetLength();
    var a := b[48..56];
    assert a == A3;
    assert b[48] == a[0] && b[49] == a[1] && b[50] == a[2] && b[51] == a[3];
    assert b[52] == a[4] && b[53] == a[5] && b[54] == a[6] && b[55] == a[7];
  }

  lemma AlphabetWords3(b: Bytes)
    requires |b| == 64 && b[..56] == ALPHABET
    ensures W(b, 12) == 0x6d6e6f70
    ensures W(b, 13) == 0x6e6f7071
  {
    hide Word, W;
    AlphabetBytes3(b);
    Quads3();
    FirstWord(b, 12);
    FirstWord(b, 13);
  }

  lemma Quads3()
    ensures Word(0x6d, 0x6e, 0x6f, 0x70) == 0x6d6e6f70
    ensures Word(0x6e, 0x6f, 0x70, 0x71) == 0x6e6f7071
  {
  }

  lemma FirstShown(b: Bytes)
    requires b == ALPHABET + [0x80] + Zeros(7)
    ensures |b| == 64
    ensures Shows(b, 0,
      0x61626364, 0x62636465, 0x63646566, 0x64656667, 0x65666768, 0x66676869, 0x6768696a, 0x68696a6b,
      0x696a6b6c, 0x6a6b6c6d, 0x6b6c6d6e, 0x6c6d6e6f, 0x6d6e6f70, 0x6e6f7071, 0x80000000, 0x00000000)
  {
    hide Word, W;
    AlphabetLength();
    assert b[..56] == ALPHABET;
    AlphabetWords0(b);
    AlphabetWords1(b);
    AlphabetWords2(b);
    AlphabetWords3(b);
    LastWords(b);
  }

  lemma LastWords(b: Bytes)
    requires |b| == 64 && b[56] == 0x80 && forall i | 57 <= i < 64 :: b[i] == 0
    ensures W(b, 14) == 0x80000000 && W(b, 15) == 0
  {
    assert Word(0x80, 0, 0, 0) == 0x80000000 && Word(0, 0, 0, 0) == 0;
  }

  lemma SecondShown(b: Bytes)
    requires b == Zeros(56) + BigEndian64(448)
    ensures |b| == 64
    ensures Shows(b, 0,
      0x00000000, 0x00000000, 0x00000000, 0x00000000, 0x00000000, 0x00000000, 0x00000000, 0x00000000,
      0x00000000, 0x00000000, 0x00000000, 0x00000000, 0x00000000, 0x00000000, 0x00000000, 0x000001c0)
  {
    hide BigEndian64, Word;
    forall i | 56 <= i < 64 ensures b[i] == if i == 63 then 0xc0 else if i == 62 then 1 else 0 {
      Length448(i - 56);
    }
    assert forall i | 0 <= i < 56 :: b[i] == 0;
    assert forall t | 0 <= t < 15 :: W(b, t) == Word(0, 0, 0, 0);
    assert W(b, 15) == Word(0, 0, 1, 0xc0);
    SecondWords();
  }

  lemma SecondWords()
    ensures Word(0, 0, 0, 0) == 0 && Word(0, 0, 1, 0xc0) == 0x1c0
  {
  }

  lemma FirstSums()
    ensures Add(0x6a09e667, 0x1bdc6f6f) == 0x85e655d6
    ensures Add(0xbb67ae85, 0x86126910) == 0x417a1795
    ensures Add(0x3c6ef372, 0xf6f443f8) == 0x3363376a
    ensures Add(0xa54ff53a, 0xbcfce922) == 0x624cde5c
    ensures Add(0x510e527f, 0x25d2430a) == 0x76e09589
    ensures Add(0x9b05688c, 0x2fc08f85) == 0xcac5f811
    ensures Add(0x1f83d9ab, 0xacc75916) == 0xcc4b32c1
    ensures Add(0x5be0cd19, 0x962d8621) == 0xf20e533a
  {
  }

  lemma FirstCompress(b: Bytes)
    requires |b| == 64
    requires Shows(b, 0,
      0x61626364, 0x62636465, 0x63646566, 0x64656667, 0x65666768, 0x66676869, 0x6768696a, 0x68696a6b,
      0x696a6b6c, 0x6a6b6c6d, 0x6b6c6d6e, 0x6c6d6e6f, 0x6d6e6f70, 0x6e6f7071, 0x80000000, 0x00000000)
    ensures Compress(
      [0x6a09e667, 0xbb67ae85, 0x3c6ef372, 0xa54ff53a, 0x510e527f, 0x9b05688c, 0x1f83d9ab, 0x5be0cd19], b) ==
      [0x85e655d6, 0x417a1795, 0x3363376a, 0x624cde5c, 0x76e09589, 0xcac5f811, 0xcc4b32c1, 0xf20e533a]
  {
    hide Rounds, Add, Shows;
    FirstBlock(b);
    FirstSums();
  }

  lemma SecondSums()
    ensures Add(0x85e655d6, 0x9ea7148b) == 0x248d6a61
    ensures Add(0x417a1795, 0x908c2123) == 0xd20638b8
    ensures Add(0x3363376a, 0xb25cef29) == 0xe5c02693
    ensures Add(0x624cde5c, 0xa9f181dd) == 0x0c3e6039
    ensures Add(0x76e09589, 0x2c5c4ed0) == 0xa33ce459
    ensures Add(0xcac5f811, 0x9a392956) == 0x64ff2167
    ensures Add(0xcc4b32c1, 0x2aa1bb13) == 0xf6ecedd4
    ensures Add(0xf20e533a, 0x27ccb387) == 0x19db06c1
  {
  }

  lemma SecondCompress(b: Bytes)
    requires |b| == 64
    requires Shows(b, 0,
      0x00000000, 0x00000000, 0x00000000, 0x00000000, 0x00000000, 0x00000000, 0x00000000, 0x00000000,
      0x00000000, 0x00000000, 0x00000000, 0x00000000, 0x00000000, 0x00000000, 0x00000000, 0x000001c0)
    ensures Compress(
      [0x85e655d6, 0x417a1795, 0x3363376a, 0x624cde5c, 0x76e09589, 0xcac5f811, 0xcc4b32c1, 0xf20e533a], b) ==
      [0x248d6a61, 0xd20638b8, 0xe5c02693, 0x0c3e6039, 0xa33ce459, 0x64ff2167, 0xf6ecedd4, 0x19db06c1]
  {
    hide Rounds, Add, Shows;
    SecondBlock(b);
    SecondSums();
  }

  lemma AlphabetBytes()
    ensures WordBytes(0x248d6a61) == [0x24, 0x8d, 0x6a, 0x61]
    ensures WordBytes(0xd20638b8) == [0xd2, 0x06, 0x38, 0xb8]
    ensures WordBytes(0xe5c02693) == [0xe5, 0xc0, 0x26, 0x93]
    ensures WordBytes(0x0c3e6039) == [0x0c, 0x3e, 0x60, 0x39]
    ensures WordBytes(0xa33ce459) == [0xa3, 0x3c, 0xe4, 0x59]
    ensures WordBytes(0x64ff2167) == [0x64, 0xff, 0x21, 0x67]
    ensures WordBytes(0xf6ecedd4) == [0xf6, 0xec, 0xed, 0xd4]
    ensures WordBytes(0x19db06c1) == [0x19, 0xdb, 0x06, 0xc1]
  {
  }

  lemma TwoBlocks(p: Bytes)
    requires |p| == 128
    ensures HashBlocks(p) == Compress(Compress(INITIAL, p[..64]), p[64..])
  {
    hide Compress;
    OneBlock(p[..64]);
  }

  /** The digest of the 56-byte message, which padding makes two blocks. */
  lemma AlphabetDigest()
    ensures Sha256(ALPHABET) ==
      [0x24, 0x8d, 0x6a, 0x61, 0xd2, 0x06, 0x38, 0xb8, 0xe5, 0xc0, 0x26, 0x93, 0x0c, 0x3e, 0x60, 0x39,
       0xa3, 0x3c, 0xe4, 0x59, 0x64, 0xff, 0x21, 0x67, 0xf6, 0xec, 0xed, 0xd4, 0x19, 0xdb, 0x06, 0xc1]
  {
    hide Pad, HashBlocks, Compress, DigestBytes, WordBytes, Shows;
    AlphabetLength();
    var p := Pad(ALPHABET);
    Padded56(ALPHABET, p);
    TwoBlocks(p);
    FirstShown(p[..64]);
    SecondShown(p[64..]);
    FirstCompress(p[..64]);
    SecondCompress(p[64..]);
    assert INITIAL == [0x6a09e667, 0xbb67ae85, 0x3c6ef372, 0xa54ff53a, 0x510e527f, 0x9b05688c, 0x1f83d9ab, 0x5be0cd19];
    DigestOf(0x248d6a61, 0xd20638b8, 0xe5c02693, 0x0c3e6039, 0xa33ce459, 0x64ff2167, 0xf6ecedd4, 0x19db06c1);
    AlphabetBytes();
  }
}
