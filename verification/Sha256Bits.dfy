/** What the functions and constants of `Sha256Spec` are, said without naming their bodies: bit by bit for the
    functions of section 4.1.2 of FIPS 180-4, and as roots of primes for the constants. */
module Sha256Bits {
  import opened Sha256Spec

  /** Where a bit of `x` is set the choice is that of `y`, elsewhere that of `z`, whatever bits `m` selects. */
  lemma ChChooses(x: bv32, y: bv32, z: bv32, m: bv32)
    ensures x & m == m ==> Ch(x, y, z) & m == y & m
    ensures x & m == 0 ==> Ch(x, y, z) & m == z & m
  {
  }

  /** Wherever two of three agree, that is the majority. */
  lemma MajAgrees(x: bv32, y: bv32, z: bv32, m: bv32)
    ensures x & m == y & m ==> Maj(x, y, z) & m == x & m
  {
  }

  lemma MajSymmetric(x: bv32, y: bv32, z: bv32)
    ensures Maj(x, y, z) == Maj(y, x, z) == Maj(x, z, y)
  {
  }

  function Bit(x: bv32, k: bv6): bv32
    requires k < 32
  {
    (x >> k) & 1
  }

  lemma ShiftedBits(x: bv32, n: bv6, k: bv6)
    requires n < 32 && k < 32
    ensures (((x >> n) | (x << (32 - n))) >> k) & 1 == (x >> ((k + n) & 31)) & 1
  {
  }

  lemma JoinedBits(x: bv32, n: bv6, k: bv6)
    requires n < 32 && k < 32
    ensures Bit((x >> n) | (x << (32 - n)), k) == Bit(x, (k + n) & 31)
  {
    ShiftedBits(x, n, k);
  }

  /** Bit `k` of a word rotated right by `n` is bit `k + n` modulo 32 of the word. */
  lemma RotateMovesBits(x: bv32, n: bv6, k: bv6)
    requires n < 32 && k < 32
    ensures Bit(RotateRight(x, n), k) == Bit(x, (k + n) & 31)
  {
    hide Bit;
    JoinedBits(x, n, k);
  }

  /** Four bytes make a word, most significant first, and the word gives them back. */
  lemma WordBytesRoundTrip(b0: bv8, b1: bv8, b2: bv8, b3: bv8)
    ensures WordBytes(Word(b0, b1, b2, b3)) == [b0, b1, b2, b3]
    ensures Word(b0, b1, b2, b3) >> 24 == b0 as bv32 && Word(b0, b1, b2, b3) & 0xFF == b3 as bv32
  {
  }

  // ----- the constants

  /** `k` is the first 32 bits of the fraction of the cube root of `p`, whose whole part is `c`. */
  predicate CubeRoot(p: nat, c: nat, k: bv32) {
    var x := c * 0x1_0000_0000 + k as int;
    x * x * x <= p * 0x1_0000_0000_0000_0000_0000_0000 < (x + 1) * (x + 1) * (x + 1)
  }

  predicate SquareRoot(p: nat, c: nat, k: bv32) {
    var x := c * 0x1_0000_0000 + k as int;
    x * x <= p * 0x1_0000_0000_0000_0000 < (x + 1) * (x + 1)
  }

  ghost predicate HasCubeRoot(p: nat, k: bv32) { exists c: nat :: CubeRoot(p, c, k) }

  ghost predicate HasSquareRoot(p: nat, k: bv32) { exists c: nat :: SquareRoot(p, c, k) }

  /** The first 64 primes. */
  const PRIMES: seq<nat> := P0 + P1 + P2 + P3 + P4 + P5 + P6 + P7

  const P0: seq<nat> := [2, 3, 5, 7, 11, 13, 17, 19]
  const P1: seq<nat> := [23, 29, 31, 37, 41, 43, 47, 53]
  const P2: seq<nat> := [59, 61, 67, 71, 73, 79, 83, 89]
  const P3: seq<nat> := [97, 101, 103, 107, 109, 113, 127, 131]
  const P4: seq<nat> := [137, 139, 149, 151, 157, 163, 167, 173]
  const P5: seq<nat> := [179, 181, 191, 193, 197, 199, 211, 223]
  const P6: seq<nat> := [227, 229, 233, 239, 241, 251, 257, 263]
  const P7: seq<nat> := [269, 271, 277, 281, 283, 293, 307, 311]

  ghost predicate RootRow(ps: seq<nat>, ks: seq<bv32>)
    requires |ps| == |ks| == 8
  {
    forall i | 0 <= i < 8 :: HasCubeRoot(ps[i], ks[i])
  }

  lemma Roots0a()
    ensures CubeRoot(2, 1, 0x428a2f98)
    ensures CubeRoot(3, 1, 0x71374491)
    ensures CubeRoot(5, 1, 0xb5c0fbcf)
    ensures CubeRoot(7, 1, 0xe9b5dba5)
  {
  }

  lemma Roots0b()
    ensures CubeRoot(11, 2, 0x3956c25b)
    ensures CubeRoot(13, 2, 0x59f111f1)
    ensures CubeRoot(17, 2, 0x923f82a4)
    ensures CubeRoot(19, 2, 0xab1c5ed5)
  {
  }

  lemma Row0()
    ensures RootRow(P0, K0)
  {
    hide CubeRoot;
    Roots0a();
    Roots0b();
    assert K0[0] == 0x428a2f98 && K0[1] == 0x71374491 && K0[2] == 0xb5c0fbcf && K0[3] == 0xe9b5dba5;
    assert K0[4] == 0x3956c25b && K0[5] == 0x59f111f1 && K0[6] == 0x923f82a4 && K0[7] == 0xab1c5ed5;
  }

  lemma Roots1a()
    ensures CubeRoot(23, 2, 0xd807aa98)
    ensures CubeRoot(29, 3, 0x12835b01)
    ensures CubeRoot(31, 3, 0x243185be)
    ensures CubeRoot(37, 3, 0x550c7dc3)
  {
  }

  lemma Roots1b()
    ensures CubeRoot(41, 3, 0x72be5d74)
    ensures CubeRoot(43, 3, 0x80deb1fe)
    ensures CubeRoot(47, 3, 0x9bdc06a7)
    ensures CubeRoot(53, 3, 0xc19bf174)
  {
  }

  lemma Row1()
    ensures RootRow(P1, K1)
  {
    hide CubeRoot;
    Roots1a();
    Roots1b();
    assert K1[0] == 0xd807aa98 && K1[1] == 0x12835b01 && K1[2] == 0x243185be && K1[3] == 0x550c7dc3;
    assert K1[4] == 0x72be5d74 && K1[5] == 0x80deb1fe && K1[6] == 0x9bdc06a7 && K1[7] == 0xc19bf174;
  }

  lemma Roots2a()
    ensures CubeRoot(59, 3, 0xe49b69c1)
    ensures CubeRoot(61, 3, 0xefbe4786)
    ensures CubeRoot(67, 4, 0x0fc19dc6)
    ensures CubeRoot(71, 4, 0x240ca1cc)
  {
  }

  lemma Roots2b()
    ensures CubeRoot(73, 4, 0x2de92c6f)
    ensures CubeRoot(79, 4, 0x4a7484aa)
    ensures CubeRoot(83, 4, 0x5cb0a9dc)
    ensures CubeRoot(89, 4, 0x76f988da)
  {
  }

  lemma Row2()
    ensures RootRow(P2, K2)
  {
    hide CubeRoot;
    Roots2a();
    Roots2b();
    assert K2[0] == 0xe49b69c1 && K2[1] == 0xefbe4786 && K2[2] == 0x0fc19dc6 && K2[3] == 0x240ca1cc;
    assert K2[4] == 0x2de92c6f && K2[5] == 0x4a7484aa && K2[6] == 0x5cb0a9dc && K2[7] == 0x76f988da;
  }

  lemma Roots3a()
    ensures CubeRoot(97, 4, 0x983e5152)
    ensures CubeRoot(101, 4, 0xa831c66d)
    ensures CubeRoot(103, 4, 0xb00327c8)
    ensures CubeRoot(107, 4, 0xbf597fc7)
  {
  }

  lemma Roots3b()
    ensures CubeRoot(109, 4, 0xc6e00bf3)
    ensures CubeRoot(113, 4, 0xd5a79147)
    ensures CubeRoot(127, 5, 0x06ca6351)
    ensures CubeRoot(131, 5, 0x14292967)
  {
  }

  lemma Row3()
    ensures RootRow(P3, K3)
  {
    hide CubeRoot;
    Roots3a();
    Roots3b();
    assert K3[0] == 0x983e5152 && K3[1] == 0xa831c66d && K3[2] == 0xb00327c8 && K3[3] == 0xbf597fc7;
    assert K3[4] == 0xc6e00bf3 && K3[5] == 0xd5a79147 && K3[6] == 0x06ca6351 && K3[7] == 0x14292967;
  }

  lemma Roots4a()
    ensures CubeRoot(137, 5, 0x27b70a85)
    ensures CubeRoot(139, 5, 0x2e1b2138)
    ensures CubeRoot(149, 5, 0x4d2c6dfc)
    ensures CubeRoot(151, 5, 0x53380d13)
  {
  }

  lemma Roots4b()
    ensures CubeRoot(157, 5, 0x650a7354)
    ensures CubeRoot(163, 5, 0x766a0abb)
    ensures CubeRoot(167, 5, 0x81c2c92e)
    ensures CubeRoot(173, 5, 0x92722c85)
  {
  }

  lemma Row4()
    ensures RootRow(P4, K4)
  {
    hide CubeRoot;
    Roots4a();
    Roots4b();
    assert K4[0] == 0x27b70a85 && K4[1] == 0x2e1b2138 && K4[2] == 0x4d2c6dfc && K4[3] == 0x53380d13;
    assert K4[4] == 0x650a7354 && K4[5] == 0x766a0abb && K4[6] == 0x81c2c92e && K4[7] == 0x92722c85;
  }

  lemma Roots5a()
    ensures CubeRoot(179, 5, 0xa2bfe8a1)
    ensures CubeRoot(181, 5, 0xa81a664b)
    ensures CubeRoot(191, 5, 0xc24b8b70)
    ensures CubeRoot(193, 5, 0xc76c51a3)
  {
  }

  lemma Roots5b()
    ensures CubeRoot(197, 5, 0xd192e819)
    ensures CubeRoot(199, 5, 0xd6990624)
    ensures CubeRoot(211, 5, 0xf40e3585)
    ensures CubeRoot(223, 6, 0x106aa070)
  {
  }

  lemma Row5()
    ensures RootRow(P5, K5)
  {
    hide CubeRoot;
    Roots5a();
    Roots5b();
    assert K5[0] == 0xa2bfe8a1 && K5[1] == 0xa81a664b && K5[2] == 0xc24b8b70 && K5[3] == 0xc76c51a3;
    assert K5[4] == 0xd192e819 && K5[5] == 0xd6990624 && K5[6] == 0xf40e3585 && K5[7] == 0x106aa070;
  }

  lemma Roots6a()
    ensures CubeRoot(227, 6, 0x19a4c116)
    ensures CubeRoot(229, 6, 0x1e376c08)
    ensures CubeRoot(233, 6, 0x2748774c)
    ensures CubeRoot(239, 6, 0x34b0bcb5)
  {
  }

  lemma Roots6b()
    ensures CubeRoot(241, 6, 0x391c0cb3)
    ensures CubeRoot(251, 6, 0x4ed8aa4a)
    ensures CubeRoot(257, 6, 0x5b9cca4f)
    ensures CubeRoot(263, 6, 0x682e6ff3)
  {
  }

  lemma Row6()
    ensures RootRow(P6, K6)
  {
    hide CubeRoot;
    Roots6a();
    Roots6b();
    assert K6[0] == 0x19a4c116 && K6[1] == 0x1e376c08 && K6[2] == 0x2748774c && K6[3] == 0x34b0bcb5;
    assert K6[4] == 0x391c0cb3 && K6[5] == 0x4ed8aa4a && K6[6] == 0x5b9cca4f && K6[7] == 0x682e6ff3;
  }

  lemma Roots7a()
    ensures CubeRoot(269, 6, 0x748f82ee)
    ensures CubeRoot(271, 6, 0x78a5636f)
    ensures CubeRoot(277, 6, 0x84c87814)
    ensures CubeRoot(281, 6, 0x8cc70208)
  {
  }

  lemma Roots7b()
    ensures CubeRoot(283, 6, 0x90befffa)
    ensures CubeRoot(293, 6, 0xa4506ceb)
    ensures CubeRoot(307, 6, 0xbef9a3f7)
    ensures CubeRoot(311, 6, 0xc67178f2)
  {
  }

  lemma Row7()
    ensures RootRow(P7, K7)
  {
    hide CubeRoot;
    Roots7a();
    Roots7b();
    assert K7[0] == 0x748f82ee && K7[1] == 0x78a5636f && K7[2] == 0x84c87814 && K7[3] == 0x8cc70208;
    assert K7[4] == 0x90befffa && K7[5] == 0xa4506ceb && K7[6] == 0xbef9a3f7 && K7[7] == 0xc67178f2;
  }

  /** The round constants are the fractions of the cube roots of the first 64 primes. */
  lemma RoundConstants(t: nat)
    requires t < 64
    ensures HasCubeRoot(PRIMES[t], K[t])
  {
    hide HasCubeRoot;
    if t < 8 {
      Row0();
      assert PRIMES[t] == P0[t - 0] && K[t] == K0[t - 0];
    } else if t < 16 {
      Row1();
      assert PRIMES[t] == P1[t - 8] && K[t] == K1[t - 8];
    } else if t < 24 {
      Row2();
      assert PRIMES[t] == P2[t - 16] && K[t] == K2[t - 16];
    } else if t < 32 {
      Row3();
      assert PRIMES[t] == P3[t - 24] && K[t] == K3[t - 24];
    } else if t < 40 {
      Row4();
      assert PRIMES[t] == P4[t - 32] && K[t] == K4[t - 32];
    } else if t < 48 {
      Row5();
      assert PRIMES[t] == P5[t - 40] && K[t] == K5[t - 40];
    } else if t < 56 {
      Row6();
      assert PRIMES[t] == P6[t - 48] && K[t] == K6[t - 48];
    } else {
      Row7();
      assert PRIMES[t] == P7[t - 56] && K[t] == K7[t - 56];
    }
  }

  lemma InitialRoots()
    ensures SquareRoot(2, 1, 0x6a09e667)
    ensures SquareRoot(3, 1, 0xbb67ae85)
    ensures SquareRoot(5, 2, 0x3c6ef372)
    ensures SquareRoot(7, 2, 0xa54ff53a)
    ensures SquareRoot(11, 3, 0x510e527f)
    ensures SquareRoot(13, 3, 0x9b05688c)
    ensures SquareRoot(17, 4, 0x1f83d9ab)
    ensures SquareRoot(19, 4, 0x5be0cd19)
  {
  }

  /** The initial hash value is the fractions of the square roots of the first eight. */
  lemma InitialValue()
    ensures |INITIAL| == 8 && forall i | 0 <= i < 8 :: HasSquareRoot(PRIMES[i], INITIAL[i])
  {
    hide SquareRoot;
    InitialRoots();
    assert forall i | 0 <= i < 8 :: PRIMES[i] == P0[i];
    assert INITIAL[0] == 0x6a09e667 && INITIAL[1] == 0xbb67ae85 && INITIAL[2] == 0x3c6ef372 && INITIAL[3] == 0xa54ff53a;
    assert INITIAL[4] == 0x510e527f && INITIAL[5] == 0x9b05688c && INITIAL[6] == 0x1f83d9ab && INITIAL[7] == 0x5be0cd19;
  }
}
