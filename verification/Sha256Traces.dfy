/** The standard's example messages worked round by round: every schedule word and every value of the working
    variables a and e is given, and each is checked against `Sha256Spec`. */
module Sha256Traces {
  import opened Sha256Spec

  // ----- steps with their values given

  lemma Extend(b: Bytes, t: nat, w2: bv32, w7: bv32, w15: bv32, w16: bv32, w: bv32)
    requires |b| == 64 && 16 <= t < 64
    requires W(b, t - 2) == w2 && W(b, t - 7) == w7 && W(b, t - 15) == w15 && W(b, t - 16) == w16
    requires Sum4(SmallSigma1(w2), w7, SmallSigma0(w15), w16) == w
    ensures W(b, t) == w
  {
  }

  function T1(e: bv32, f: bv32, g: bv32, h: bv32, k: bv32, w: bv32): bv32 {
    Add(Add(Add(Add(h, BigSigma1(e)), Ch(e, f, g)), k), w)
  }

  function T2(a: bv32, b: bv32, c: bv32): bv32 { Add(BigSigma0(a), Maj(a, b, c)) }

  /** One round: of the eight variables only two are new. */
  predicate Turns(a: bv32, b: bv32, c: bv32, d: bv32, e: bv32, f: bv32, g: bv32, h: bv32, k: bv32, w: bv32,
                  a': bv32, e': bv32)
  {
    var t1 := T1(e, f, g, h, k, w);
    a' == Add(t1, T2(a, b, c)) && e' == Add(d, t1)
  }

  lemma Step(v: Vars, block: Bytes, t: nat, x: Vars, k: bv32, w: bv32, a': bv32, e': bv32)
    requires |block| == 64 && t < 64 && Rounds(v, block, t) == x && K[t] == k && W(block, t) == w
    requires Turns(x.a, x.b, x.c, x.d, x.e, x.f, x.g, x.h, k, w, a', e')
    ensures Rounds(v, block, t + 1) == Vars(a', x.a, x.b, x.c, e', x.e, x.f, x.g)
  {
    hide W, Add, BigSigma0, BigSigma1, Ch, Maj;
  }

  lemma FourSteps(v: Vars, block: Bytes, t: nat,
                  a: bv32, b: bv32, c: bv32, d: bv32, e: bv32, f: bv32, g: bv32, h: bv32,
                  k0: bv32, k1: bv32, k2: bv32, k3: bv32, w0: bv32, w1: bv32, w2: bv32, w3: bv32,
                  a1: bv32, a2: bv32, a3: bv32, a4: bv32, e1: bv32, e2: bv32, e3: bv32, e4: bv32)
    requires |block| == 64 && t <= 60 && Rounds(v, block, t) == Vars(a, b, c, d, e, f, g, h)
    requires K[t] == k0 && K[t + 1] == k1 && K[t + 2] == k2 && K[t + 3] == k3
    requires W(block, t) == w0 && W(block, t + 1) == w1 && W(block, t + 2) == w2 && W(block, t + 3) == w3
    requires Turns(a, b, c, d, e, f, g, h, k0, w0, a1, e1) && Turns(a1, a, b, c, e1, e, f, g, k1, w1, a2, e2)
    requires Turns(a2, a1, a, b, e2, e1, e, f, k2, w2, a3, e3) && Turns(a3, a2, a1, a, e3, e2, e1, e, k3, w3, a4, e4)
    ensures Rounds(v, block, t + 4) == Vars(a4, a3, a2, a1, e4, e3, e2, e1)
  {
    hide W, Rounds, Turns;
    Step(v, block, t, Vars(a, b, c, d, e, f, g, h), k0, w0, a1, e1);
    Step(v, block, t + 1, Vars(a1, a, b, c, e1, e, f, g), k1, w1, a2, e2);
    Step(v, block, t + 2, Vars(a2, a1, a, b, e2, e1, e, f), k2, w2, a3, e3);
    Step(v, block, t + 3, Vars(a3, a2, a1, a, e3, e2, e1, e), k3, w3, a4, e4);
  }

  /** Sixteen words of the schedule from `t` on. */
  predicate Shows(b: Bytes, t: nat,
                  w0: bv32, w1: bv32, w2: bv32, w3: bv32, w4: bv32, w5: bv32, w6: bv32, w7: bv32,
                  w8: bv32, w9: bv32, w10: bv32, w11: bv32, w12: bv32, w13: bv32, w14: bv32, w15: bv32)
    requires |b| == 64 && t <= 48
  {
    && W(b, t) == w0 && W(b, t + 1) == w1 && W(b, t + 2) == w2 && W(b, t + 3) == w3
    && W(b, t + 4) == w4 && W(b, t + 5) == w5 && W(b, t + 6) == w6 && W(b, t + 7) == w7
    && W(b, t + 8) == w8 && W(b, t + 9) == w9 && W(b, t + 10) == w10 && W(b, t + 11) == w11
    && W(b, t + 12) == w12 && W(b, t + 13) == w13 && W(b, t + 14) == w14 && W(b, t + 15) == w15
  }

  lemma RoundsStart(v: Vars, b: Bytes)
    requires |b| == 64
    ensures Rounds(v, b, 0) == v
  {
  }

  // ----- the one-block message

  lemma AbcSchedule16(b: Bytes)
    requires |b| == 64
    requires Shows(b, 0,
      0x61626380, 0x00000000, 0x00000000, 0x00000000, 0x00000000, 0x00000000, 0x00000000, 0x00000000,
      0x00000000, 0x00000000, 0x00000000, 0x00000000, 0x00000000, 0x00000000, 0x00000000, 0x00000018)
    ensures Shows(b, 16,
      0x61626380, 0x000f0000, 0x7da86405, 0x600003c6, 0x3e9d7b78, 0x0183fc00, 0x12dcbfdb, 0xe2e2c38e,
      0xc8215c1a, 0xb73679a2, 0xe5bc3909, 0x32663c5b, 0x9d209d67, 0xec8726cb, 0x702138a4, 0xd3b7973b)
  {
    hide W;
    Extend(b, 16, 0x00000000, 0x00000000, 0x00000000, 0x61626380, 0x61626380);
    Extend(b, 17, 0x00000018, 0x00000000, 0x00000000, 0x00000000, 0x000f0000);
    Extend(b, 18, 0x61626380, 0x00000000, 0x00000000, 0x00000000, 0x7da86405);
    Extend(b, 19, 0x000f0000, 0x00000000, 0x00000000, 0x00000000, 0x600003c6);
    Extend(b, 20, 0x7da86405, 0x00000000, 0x00000000, 0x00000000, 0x3e9d7b78);
    Extend(b, 21, 0x600003c6, 0x00000000, 0x00000000, 0x00000000, 0x0183fc00);
    Extend(b, 22, 0x3e9d7b78, 0x00000018, 0x00000000, 0x00000000, 0x12dcbfdb);
    Extend(b, 23, 0x0183fc00, 0x61626380, 0x00000000, 0x00000000, 0xe2e2c38e);
    Extend(b, 24, 0x12dcbfdb, 0x000f0000, 0x00000000, 0x00000000, 0xc8215c1a);
    Extend(b, 25, 0xe2e2c38e, 0x7da86405, 0x00000000, 0x00000000, 0xb73679a2);
    Extend(b, 26, 0xc8215c1a, 0x600003c6, 0x00000000, 0x00000000, 0xe5bc3909);
    Extend(b, 27, 0xb73679a2, 0x3e9d7b78, 0x00000000, 0x00000000, 0x32663c5b);
    Extend(b, 28, 0xe5bc3909, 0x0183fc00, 0x00000000, 0x00000000, 0x9d209d67);
    Extend(b, 29, 0x32663c5b, 0x12dcbfdb, 0x00000000, 0x00000000, 0xec8726cb);
    Extend(b, 30, 0x9d209d67, 0xe2e2c38e, 0x00000018, 0x00000000, 0x702138a4);
    Extend(b, 31, 0xec8726cb, 0xc8215c1a, 0x61626380, 0x00000018, 0xd3b7973b);
  }

  lemma AbcSchedule32(b: Bytes)
    requires |b| == 64
    requires Shows(b, 16,
      0x61626380, 0x000f0000, 0x7da86405, 0x600003c6, 0x3e9d7b78, 0x0183fc00, 0x12dcbfdb, 0xe2e2c38e,
      0xc8215c1a, 0xb73679a2, 0xe5bc3909, 0x32663c5b, 0x9d209d67, 0xec8726cb, 0x702138a4, 0xd3b7973b)
    ensures Shows(b, 32,
      0x93f5997f, 0x3b68ba73, 0xaff4ffc1, 0xf10a5c62, 0x0a8b3996, 0x72af830a, 0x9409e33e, 0x24641522,
      0x9f47bf94, 0xf0a64f5a, 0x3e246a79, 0x27333ba3, 0x0c4763f2, 0x840abf27, 0x7a290d5d, 0x065c43da)
  {
    hide W;
    Extend(b, 32, 0x702138a4, 0xb73679a2, 0x000f0000, 0x61626380, 0x93f5997f);
    Extend(b, 33, 0xd3b7973b, 0xe5bc3909, 0x7da86405, 0x000f0000, 0x3b68ba73);
    Extend(b, 34, 0x93f5997f, 0x32663c5b, 0x600003c6, 0x7da86405, 0xaff4ffc1);
    Extend(b, 35, 0x3b68ba73, 0x9d209d67, 0x3e9d7b78, 0x600003c6, 0xf10a5c62);
    Extend(b, 36, 0xaff4ffc1, 0xec8726cb, 0x0183fc00, 0x3e9d7b78, 0x0a8b3996);
    Extend(b, 37, 0xf10a5c62, 0x702138a4, 0x12dcbfdb, 0x0183fc00, 0x72af830a);
    Extend(b, 38, 0x0a8b3996, 0xd3b7973b, 0xe2e2c38e, 0x12dcbfdb, 0x9409e33e);
    Extend(b, 39, 0x72af830a, 0x93f5997f, 0xc8215c1a, 0xe2e2c38e, 0x24641522);
    Extend(b, 40, 0x9409e33e, 0x3b68ba73, 0xb73679a2, 0xc8215c1a, 0x9f47bf94);
    Extend(b, 41, 0x24641522, 0xaff4ffc1, 0xe5bc3909, 0xb73679a2, 0xf0a64f5a);
    Extend(b, 42, 0x9f47bf94, 0xf10a5c62, 0x32663c5b, 0xe5bc3909, 0x3e246a79);
    Extend(b, 43, 0xf0a64f5a, 0x0a8b3996, 0x9d209d67, 0x32663c5b, 0x27333ba3);
    Extend(b, 44, 0x3e246a79, 0x72af830a, 0xec8726cb, 0x9d209d67, 0x0c4763f2);
    Extend(b, 45, 0x27333ba3, 0x9409e33e, 0x702138a4, 0xec8726cb, 0x840abf27);
    Extend(b, 46, 0x0c4763f2, 0x24641522, 0xd3b7973b, 0x702138a4, 0x7a290d5d);
    Extend(b, 47, 0x840abf27, 0x9f47bf94, 0x93f5997f, 0xd3b7973b, 0x065c43da);
  }

  lemma AbcSchedule48(b: Bytes)
    requires |b| == 64
    requires Shows(b, 32,
      0x93f5997f, 0x3b68ba73, 0xaff4ffc1, 0xf10a5c62, 0x0a8b3996, 0x72af830a, 0x9409e33e, 0x24641522,
      0x9f47bf94, 0xf0a64f5a, 0x3e246a79, 0x27333ba3, 0x0c4763f2, 0x840abf27, 0x7a290d5d, 0x065c43da)
    ensures Shows(b, 48,
      0xfb3e89cb, 0xcc7617db, 0xb9e66c34, 0xa9993667, 0x84badedd, 0xc21462bc, 0x1487472c, 0xb20f7a99,
      0xef57b9cd, 0xebe6b238, 0x9fe3095e, 0x78bc8d4b, 0xa43fcf15, 0x668b2ff8, 0xeeaba2cc, 0x12b1edeb)
  {
    hide W;
    Extend(b, 48, 0x7a290d5d, 0xf0a64f5a, 0x3b68ba73, 0x93f5997f, 0xfb3e89cb);
    Extend(b, 49, 0x065c43da, 0x3e246a79, 0xaff4ffc1, 0x3b68ba73, 0xcc7617db);
    Extend(b, 50, 0xfb3e89cb, 0x27333ba3, 0xf10a5c62, 0xaff4ffc1, 0xb9e66c34);
    Extend(b, 51, 0xcc7617db, 0x0c4763f2, 0x0a8b3996, 0xf10a5c62, 0xa9993667);
    Extend(b, 52, 0xb9e66c34, 0x840abf27, 0x72af830a, 0x0a8b3996, 0x84badedd);
    Extend(b, 53, 0xa9993667, 0x7a290d5d, 0x9409e33e, 0x72af830a, 0xc21462bc);
    Extend(b, 54, 0x84badedd, 0x065c43da, 0x24641522, 0x9409e33e, 0x1487472c);
    Extend(b, 55, 0xc21462bc, 0xfb3e89cb, 0x9f47bf94, 0x24641522, 0xb20f7a99);
    Extend(b, 56, 0x1487472c, 0xcc7617db, 0xf0a64f5a, 0x9f47bf94, 0xef57b9cd);
    Extend(b, 57, 0xb20f7a99, 0xb9e66c34, 0x3e246a79, 0xf0a64f5a, 0xebe6b238);
    Extend(b, 58, 0xef57b9cd, 0xa9993667, 0x27333ba3, 0x3e246a79, 0x9fe3095e);
    Extend(b, 59, 0xebe6b238, 0x84badedd, 0x0c4763f2, 0x27333ba3, 0x78bc8d4b);
    Extend(b, 60, 0x9fe3095e, 0xc21462bc, 0x840abf27, 0x0c4763f2, 0xa43fcf15);
    Extend(b, 61, 0x78bc8d4b, 0x1487472c, 0x7a290d5d, 0x840abf27, 0x668b2ff8);
    Extend(b, 62, 0xa43fcf15, 0xb20f7a99, 0x065c43da, 0x7a290d5d, 0xeeaba2cc);
    Extend(b, 63, 0x668b2ff8, 0xef57b9cd, 0xfb3e89cb, 0x065c43da, 0x12b1edeb);
  }

  lemma AbcRounds0(v: Vars, b: Bytes)
    requires |b| == 64 && Rounds(v, b, 0) ==
      Vars(0x6a09e667, 0xbb67ae85, 0x3c6ef372, 0xa54ff53a, 0x510e527f, 0x9b05688c, 0x1f83d9ab, 0x5be0cd19)
    requires W(b, 0) == 0x61626380 && W(b, 1) == 0x00000000 && W(b, 2) == 0x00000000 && W(b, 3) == 0x00000000
    ensures Rounds(v, b, 4) ==
      Vars(0xd550f666, 0xc8c347a7, 0x5a6ad9ad, 0x5d6aebcd, 0x24e00850, 0xf92939eb, 0x78ce7989, 0xfa2a4622)
  {
    hide W, Rounds;
    FourSteps(v, b, 0,
      0x6a09e667, 0xbb67ae85, 0x3c6ef372, 0xa54ff53a, 0x510e527f, 0x9b05688c, 0x1f83d9ab, 0x5be0cd19,
      0x428a2f98, 0x71374491, 0xb5c0fbcf, 0xe9b5dba5, 0x61626380, 0x00000000, 0x00000000, 0x00000000,
      0x5d6aebcd, 0x5a6ad9ad, 0xc8c347a7, 0xd550f666, 0xfa2a4622, 0x78ce7989, 0xf92939eb, 0x24e00850);
  }

  lemma AbcRounds4(v: Vars, b: Bytes)
    requires |b| == 64 && Rounds(v, b, 4) ==
      Vars(0xd550f666, 0xc8c347a7, 0x5a6ad9ad, 0x5d6aebcd, 0x24e00850, 0xf92939eb, 0x78ce7989, 0xfa2a4622)
    requires W(b, 4) == 0x00000000 && W(b, 5) == 0x00000000 && W(b, 6) == 0x00000000 && W(b, 7) == 0x00000000
    ensures Rounds(v, b, 8) ==
      Vars(0x85a07b5f, 0xe5030380, 0x2b4209f5, 0x04409a6a, 0x0c657a79, 0x9b27a401, 0x714260ad, 0x43ada245)
  {
    hide W, Rounds;
    FourSteps(v, b, 4,
      0xd550f666, 0xc8c347a7, 0x5a6ad9ad, 0x5d6aebcd, 0x24e00850, 0xf92939eb, 0x78ce7989, 0xfa2a4622,
      0x3956c25b, 0x59f111f1, 0x923f82a4, 0xab1c5ed5, 0x00000000, 0x00000000, 0x00000000, 0x00000000,
      0x04409a6a, 0x2b4209f5, 0xe5030380, 0x85a07b5f, 0x43ada245, 0x714260ad, 0x9b27a401, 0x0c657a79);
  }

  lemma AbcRounds8(v: Vars, b: Bytes)
    requires |b| == 64 && Rounds(v, b, 8) ==
      Vars(0x85a07b5f, 0xe5030380, 0x2b4209f5, 0x04409a6a, 0x0c657a79, 0x9b27a401, 0x714260ad, 0x43ada245)
    requires W(b, 8) == 0x00000000 && W(b, 9) == 0x00000000 && W(b, 10) == 0x00000000 && W(b, 11) == 0x00000000
    ensures Rounds(v, b, 12) ==
      Vars(0xf71fc5a9, 0x4798a3f4, 0x8c87346b, 0x8e04ecb9, 0x816fd6e9, 0x436b23e8, 0x1cc92596, 0x32ca2d8c)
  {
    hide W, Rounds;
    FourSteps(v, b, 8,
      0x85a07b5f, 0xe5030380, 0x2b4209f5, 0x04409a6a, 0x0c657a79, 0x9b27a401, 0x714260ad, 0x43ada245,
      0xd807aa98, 0x12835b01, 0x243185be, 0x550c7dc3, 0x00000000, 0x00000000, 0x00000000, 0x00000000,
      0x8e04ecb9, 0x8c87346b, 0x4798a3f4, 0xf71fc5a9, 0x32ca2d8c, 0x1cc92596, 0x436b23e8, 0x816fd6e9);
  }

  lemma AbcRounds12(v: Vars, b: Bytes)
    requires |b| == 64 && Rounds(v, b, 12) ==
      Vars(0xf71fc5a9, 0x4798a3f4, 0x8c87346b, 0x8e04ecb9, 0x816fd6e9, 0x436b23e8, 0x1cc92596, 0x32ca2d8c)
    requires W(b, 12) == 0x00000000 && W(b, 13) == 0x00000000 && W(b, 14) == 0x00000000 && W(b, 15) == 0x00000018
    ensures Rounds(v, b, 16) ==
      Vars(0xb0fa238e, 0xc0645fde, 0xd932eb16, 0x87912990, 0x07590dcd, 0x0b92f20c, 0x745a48de, 0x1e578218)
  {
    hide W, Rounds;
    FourSteps(v, b, 12,
      0xf71fc5a9, 0x4798a3f4, 0x8c87346b, 0x8e04ecb9, 0x816fd6e9, 0x436b23e8, 0x1cc92596, 0x32ca2d8c,
      0x72be5d74, 0x80deb1fe, 0x9bdc06a7, 0xc19bf174, 0x00000000, 0x00000000, 0x00000000, 0x00000018,
      0x87912990, 0xd932eb16, 0xc0645fde, 0xb0fa238e, 0x1e578218, 0x745a48de, 0x0b92f20c, 0x07590dcd);
  }

  lemma AbcRounds16(v: Vars, b: Bytes)
    requires |b| == 64 && Rounds(v, b, 16) ==
      Vars(0xb0fa238e, 0xc0645fde, 0xd932eb16, 0x87912990, 0x07590dcd, 0x0b92f20c, 0x745a48de, 0x1e578218)
    requires W(b, 16) == 0x61626380 && W(b, 17) == 0x000f0000 && W(b, 18) == 0x7da86405 && W(b, 19) == 0x600003c6
    ensures Rounds(v, b, 20) ==
      Vars(0xe1f20c33, 0xfe777bbf, 0xc2fbd9d1, 0x21da9a9b, 0xb0638179, 0xcc899961, 0x846ee454, 0x8034229c)
  {
    hide W, Rounds;
    FourSteps(v, b, 16,
      0xb0fa238e, 0xc0645fde, 0xd932eb16, 0x87912990, 0x07590dcd, 0x0b92f20c, 0x745a48de, 0x1e578218,
      0xe49b69c1, 0xefbe4786, 0x0fc19dc6, 0x240ca1cc, 0x61626380, 0x000f0000, 0x7da86405, 0x600003c6,
      0x21da9a9b, 0xc2fbd9d1, 0xfe777bbf, 0xe1f20c33, 0x8034229c, 0x846ee454, 0xcc899961, 0xb0638179);
  }

  lemma AbcRounds20(v: Vars, b: Bytes)
    requires |b| == 64 && Rounds(v, b, 20) ==
      Vars(0xe1f20c33, 0xfe777bbf, 0xc2fbd9d1, 0x21da9a9b, 0xb0638179, 0xcc899961, 0x846ee454, 0x8034229c)
    requires W(b, 20) == 0x3e9d7b78 && W(b, 21) == 0x0183fc00 && W(b, 22) == 0x12dcbfdb && W(b, 23) == 0xe2e2c38e
    ensures Rounds(v, b, 24) ==
      Vars(0xc5d53d8d, 0xa7a3623f, 0xc2606d6d, 0x9dc68b63, 0xaa47c347, 0x49f5114a, 0xe1257970, 0x8ada8930)
  {
    hide W, Rounds;
    FourSteps(v, b, 20,
      0xe1f20c33, 0xfe777bbf, 0xc2fbd9d1, 0x21da9a9b, 0xb0638179, 0xcc899961, 0x846ee454, 0x8034229c,
      0x2de92c6f, 0x4a7484aa, 0x5cb0a9dc, 0x76f988da, 0x3e9d7b78, 0x0183fc00, 0x12dcbfdb, 0xe2e2c38e,
      0x9dc68b63, 0xc2606d6d, 0xa7a3623f, 0xc5d53d8d, 0x8ada8930, 0xe1257970, 0x49f5114a, 0xaa47c347);
  }

  lemma AbcRounds24(v: Vars, b: Bytes)
    requires |b| == 64 && Rounds(v, b, 24) ==
      Vars(0xc5d53d8d, 0xa7a3623f, 0xc2606d6d, 0x9dc68b63, 0xaa47c347, 0x49f5114a, 0xe1257970, 0x8ada8930)
    requires W(b, 24) == 0xc8215c1a && W(b, 25) == 0xb73679a2 && W(b, 26) == 0xe5bc3909 && W(b, 27) == 0x32663c5b
    ensures Rounds(v, b, 28) ==
      Vars(0x77d37528, 0xb62ec4bc, 0xcde8037d, 0x1c2c2838, 0xedffbff8, 0xc74c6516, 0x14383d8e, 0x2823ef91)
  {
    hide W, Rounds;
    FourSteps(v, b, 24,
      0xc5d53d8d, 0xa7a3623f, 0xc2606d6d, 0x9dc68b63, 0xaa47c347, 0x49f5114a, 0xe1257970, 0x8ada8930,
      0x983e5152, 0xa831c66d, 0xb00327c8, 0xbf597fc7, 0xc8215c1a, 0xb73679a2, 0xe5bc3909, 0x32663c5b,
      0x1c2c2838, 0xcde8037d, 0xb62ec4bc, 0x77d37528, 0x2823ef91, 0x14383d8e, 0xc74c6516, 0xedffbff8);
  }

  lemma AbcRounds28(v: Vars, b: Bytes)
    requires |b| == 64 && Rounds(v, b, 28) ==
      Vars(0x77d37528, 0xb62ec4bc, 0xcde8037d, 0x1c2c2838, 0xedffbff8, 0xc74c6516, 0x14383d8e, 0x2823ef91)
    requires W(b, 28) == 0x9d209d67 && W(b, 29) == 0xec8726cb && W(b, 30) == 0x702138a4 && W(b, 31) == 0xd3b7973b
    ensures Rounds(v, b, 32) ==
      Vars(0x73b33bf5, 0xea992a22, 0xa0060b30, 0x363482c9, 0xba591112, 0x0109ab3a, 0xade79437, 0x6112a3b7)
  {
    hide W, Rounds;
    FourSteps(v, b, 28,
      0x77d37528, 0xb62ec4bc, 0xcde8037d, 0x1c2c2838, 0xedffbff8, 0xc74c6516, 0x14383d8e, 0x2823ef91,
      0xc6e00bf3, 0xd5a79147, 0x06ca6351, 0x14292967, 0x9d209d67, 0xec8726cb, 0x702138a4, 0xd3b7973b,
      0x363482c9, 0xa0060b30, 0xea992a22, 0x73b33bf5, 0x6112a3b7, 0xade79437, 0x0109ab3a, 0xba591112);
  }

  lemma AbcRounds32(v: Vars, b: Bytes)
    requires |b| == 64 && Rounds(v, b, 32) ==
      Vars(0x73b33bf5, 0xea992a22, 0xa0060b30, 0x363482c9, 0xba591112, 0x0109ab3a, 0xade79437, 0x6112a3b7)
    requires W(b, 32) == 0x93f5997f && W(b, 33) == 0x3b68ba73 && W(b, 34) == 0xaff4ffc1 && W(b, 35) == 0xf10a5c62
    ensures Rounds(v, b, 36) ==
      Vars(0x65a0cfe4, 0xa9a7738c, 0xfe604df5, 0x98e12507, 0xf4b002d6, 0x085f3833, 0x59249dd3, 0x9cd9f5f6)
  {
    hide W, Rounds;
    FourSteps(v, b, 32,
      0x73b33bf5, 0xea992a22, 0xa0060b30, 0x363482c9, 0xba591112, 0x0109ab3a, 0xade79437, 0x6112a3b7,
      0x27b70a85, 0x2e1b2138, 0x4d2c6dfc, 0x53380d13, 0x93f5997f, 0x3b68ba73, 0xaff4ffc1, 0xf10a5c62,
      0x98e12507, 0xfe604df5, 0xa9a7738c, 0x65a0cfe4, 0x9cd9f5f6, 0x59249dd3, 0x085f3833, 0xf4b002d6);
  }

  lemma AbcRounds36(v: Vars, b: Bytes)
    requires |b| == 64 && Rounds(v, b, 36) ==
      Vars(0x65a0cfe4, 0xa9a7738c, 0xfe604df5, 0x98e12507, 0xf4b002d6, 0x085f3833, 0x59249dd3, 0x9cd9f5f6)
    requires W(b, 36) == 0x0a8b3996 && W(b, 37) == 0x72af830a && W(b, 38) == 0x9409e33e && W(b, 39) == 0x24641522
    ensures Rounds(v, b, 40) ==
      Vars(0x79ea687a, 0x6dc57a8a, 0x34df1604, 0x41a65cb1, 0x1efbc0a0, 0xf0781bc8, 0xa507a53d, 0x0772a26b)
  {
    hide W, Rounds;
    FourSteps(v, b, 36,
      0x65a0cfe4, 0xa9a7738c, 0xfe604df5, 0x98e12507, 0xf4b002d6, 0x085f3833, 0x59249dd3, 0x9cd9f5f6,
      0x650a7354, 0x766a0abb, 0x81c2c92e, 0x92722c85, 0x0a8b3996, 0x72af830a, 0x9409e33e, 0x24641522,
      0x41a65cb1, 0x34df1604, 0x6dc57a8a, 0x79ea687a, 0x0772a26b, 0xa507a53d, 0xf0781bc8, 0x1efbc0a0);
  }

  lemma AbcRounds40(v: Vars, b: Bytes)
    requires |b| == 64 && Rounds(v, b, 40) ==
      Vars(0x79ea687a, 0x6dc57a8a, 0x34df1604, 0x41a65cb1, 0x1efbc0a0, 0xf0781bc8, 0xa507a53d, 0x0772a26b)
    requires W(b, 40) == 0x9f47bf94 && W(b, 41) == 0xf0a64f5a && W(b, 42) == 0x3e246a79 && W(b, 43) == 0x27333ba3
    ensures Rounds(v, b, 44) ==
      Vars(0x9d4baf93, 0x17aa0dfe, 0xdf46652f, 0xd6670766, 0xfda24c2e, 0xdecd4715, 0x838b2711, 0x26352d63)
  {
    hide W, Rounds;
    FourSteps(v, b, 40,
      0x79ea687a, 0x6dc57a8a, 0x34df1604, 0x41a65cb1, 0x1efbc0a0, 0xf0781bc8, 0xa507a53d, 0x0772a26b,
      0xa2bfe8a1, 0xa81a664b, 0xc24b8b70, 0xc76c51a3, 0x9f47bf94, 0xf0a64f5a, 0x3e246a79, 0x27333ba3,
      0xd6670766, 0xdf46652f, 0x17aa0dfe, 0x9d4baf93, 0x26352d63, 0x838b2711, 0xdecd4715, 0xfda24c2e);
  }

  lemma AbcRounds44(v: Vars, b: Bytes)
    requires |b| == 64 && Rounds(v, b, 44) ==
      Vars(0x9d4baf93, 0x17aa0dfe, 0xdf46652f, 0xd6670766, 0xfda24c2e, 0xdecd4715, 0x838b2711, 0x26352d63)
    requires W(b, 44) == 0x0c4763f2 && W(b, 45) == 0x840abf27 && W(b, 46) == 0x7a290d5d && W(b, 47) == 0x065c43da
    ensures Rounds(v, b, 48) ==
      Vars(0x4172328d, 0xa14c14b0, 0x72ab4b91, 0x26628815, 0xfecf0bc6, 0xd57b94a9, 0xb7755da1, 0xa80f11f0)
  {
    hide W, Rounds;
    FourSteps(v, b, 44,
      0x9d4baf93, 0x17aa0dfe, 0xdf46652f, 0xd6670766, 0xfda24c2e, 0xdecd4715, 0x838b2711, 0x26352d63,
      0xd192e819, 0xd6990624, 0xf40e3585, 0x106aa070, 0x0c4763f2, 0x840abf27, 0x7a290d5d, 0x065c43da,
      0x26628815, 0x72ab4b91, 0xa14c14b0, 0x4172328d, 0xa80f11f0, 0xb7755da1, 0xd57b94a9, 0xfecf0bc6);
  }

  lemma AbcRounds48(v: Vars, b: Bytes)
    requires |b| == 64 && Rounds(v, b, 48) ==
      Vars(0x4172328d, 0xa14c14b0, 0x72ab4b91, 0x26628815, 0xfecf0bc6, 0xd57b94a9, 0xb7755da1, 0xa80f11f0)
    requires W(b, 48) == 0xfb3e89cb && W(b, 49) == 0xcc7617db && W(b, 50) == 0xb9e66c34 && W(b, 51) == 0xa9993667
    ensures Rounds(v, b, 52) ==
      Vars(0x886e7a22, 0x7a0508a1, 0xf11bfaa8, 0x05757ceb, 0x49231c1e, 0x52f1ccf7, 0x6e5c390c, 0xbd714038)
  {
    hide W, Rounds;
    FourSteps(v, b, 48,
      0x4172328d, 0xa14c14b0, 0x72ab4b91, 0x26628815, 0xfecf0bc6, 0xd57b94a9, 0xb7755da1, 0xa80f11f0,
      0x19a4c116, 0x1e376c08, 0x2748774c, 0x34b0bcb5, 0xfb3e89cb, 0xcc7617db, 0xb9e66c34, 0xa9993667,
      0x05757ceb, 0xf11bfaa8, 0x7a0508a1, 0x886e7a22, 0xbd714038, 0x6e5c390c, 0x52f1ccf7, 0x49231c1e);
  }

  lemma AbcRounds52(v: Vars, b: Bytes)
    requires |b| == 64 && Rounds(v, b, 52) ==
      Vars(0x886e7a22, 0x7a0508a1, 0xf11bfaa8, 0x05757ceb, 0x49231c1e, 0x52f1ccf7, 0x6e5c390c, 0xbd714038)
    requires W(b, 52) == 0x84badedd && W(b, 53) == 0xc21462bc && W(b, 54) == 0x1487472c && W(b, 55) == 0xb20f7a99
    ensures Rounds(v, b, 56) ==
      Vars(0x38cc9913, 0x3ec45cdb, 0xf5702fdb, 0x101fd28f, 0x54cb266b, 0xe50e1b4f, 0x9f4787c3, 0x529e7d00)
  {
    hide W, Rounds;
    FourSteps(v, b, 52,
      0x886e7a22, 0x7a0508a1, 0xf11bfaa8, 0x05757ceb, 0x49231c1e, 0x52f1ccf7, 0x6e5c390c, 0xbd714038,
      0x391c0cb3, 0x4ed8aa4a, 0x5b9cca4f, 0x682e6ff3, 0x84badedd, 0xc21462bc, 0x1487472c, 0xb20f7a99,
      0x101fd28f, 0xf5702fdb, 0x3ec45cdb, 0x38cc9913, 0x529e7d00, 0x9f4787c3, 0xe50e1b4f, 0x54cb266b);
  }

  lemma AbcRounds56(v: Vars, b: Bytes)
    requires |b| == 64 && Rounds(v, b, 56) ==
      Vars(0x38cc9913, 0x3ec45cdb, 0xf5702fdb, 0x101fd28f, 0x54cb266b, 0xe50e1b4f, 0x9f4787c3, 0x529e7d00)
    requires W(b, 56) == 0xef57b9cd && W(b, 57) == 0xebe6b238 && W(b, 58) == 0x9fe3095e && W(b, 59) == 0x78bc8d4b
    ensures Rounds(v, b, 60) ==
      Vars(0xb6ae8fff, 0xffb70472, 0xc062d46f, 0xfcd1887b, 0xb21bad3d, 0x6d83bfc6, 0x7e44008e, 0x9b5e906c)
  {
    hide W, Rounds;
    FourSteps(v, b, 56,
      0x38cc9913, 0x3ec45cdb, 0xf5702fdb, 0x101fd28f, 0x54cb266b, 0xe50e1b4f, 0x9f4787c3, 0x529e7d00,
      0x748f82ee, 0x78a5636f, 0x84c87814, 0x8cc70208, 0xef57b9cd, 0xebe6b238, 0x9fe3095e, 0x78bc8d4b,
      0xfcd1887b, 0xc062d46f, 0xffb70472, 0xb6ae8fff, 0x9b5e906c, 0x7e44008e, 0x6d83bfc6, 0xb21bad3d);
  }

  lemma AbcRounds60(v: Vars, b: Bytes)
    requires |b| == 64 && Rounds(v, b, 60) ==
      Vars(0xb6ae8fff, 0xffb70472, 0xc062d46f, 0xfcd1887b, 0xb21bad3d, 0x6d83bfc6, 0x7e44008e, 0x9b5e906c)
    requires W(b, 60) == 0xa43fcf15 && W(b, 61) == 0x668b2ff8 && W(b, 62) == 0xeeaba2cc && W(b, 63) == 0x12b1edeb
    ensures Rounds(v, b, 64) ==
      Vars(0x506e3058, 0xd39a2165, 0x04d24d6c, 0xb85e2ce9, 0x5ef50f24, 0xfb121210, 0x948d25b6, 0x961f4894)
  {
    hide W, Rounds;
    FourSteps(v, b, 60,
      0xb6ae8fff, 0xffb70472, 0xc062d46f, 0xfcd1887b, 0xb21bad3d, 0x6d83bfc6, 0x7e44008e, 0x9b5e906c,
      0x90befffa, 0xa4506ceb, 0xbef9a3f7, 0xc67178f2, 0xa43fcf15, 0x668b2ff8, 0xeeaba2cc, 0x12b1edeb,
      0xb85e2ce9, 0x04d24d6c, 0xd39a2165, 0x506e3058, 0x961f4894, 0x948d25b6, 0xfb121210, 0x5ef50f24);
  }

  lemma AbcSixteen0(v: Vars, b: Bytes)
    requires |b| == 64 && Rounds(v, b, 0) ==
      Vars(0x6a09e667, 0xbb67ae85, 0x3c6ef372, 0xa54ff53a, 0x510e527f, 0x9b05688c, 0x1f83d9ab, 0x5be0cd19)
    requires Shows(b, 0,
      0x61626380, 0x00000000, 0x00000000, 0x00000000, 0x00000000, 0x00000000, 0x00000000, 0x00000000,
      0x00000000, 0x00000000, 0x00000000, 0x00000000, 0x00000000, 0x00000000, 0x00000000, 0x00000018)
    ensures Rounds(v, b, 16) ==
      Vars(0xb0fa238e, 0xc0645fde, 0xd932eb16, 0x87912990, 0x07590dcd, 0x0b92f20c, 0x745a48de, 0x1e578218)
  {
    hide W, Rounds;
    AbcRounds0(v, b);
    AbcRounds4(v, b);
    AbcRounds8(v, b);
    AbcRounds12(v, b);
  }

  lemma AbcSixteen16(v: Vars, b: Bytes)
    requires |b| == 64 && Rounds(v, b, 16) ==
      Vars(0xb0fa238e, 0xc0645fde, 0xd932eb16, 0x87912990, 0x07590dcd, 0x0b92f20c, 0x745a48de, 0x1e578218)
    requires Shows(b, 16,
      0x61626380, 0x000f0000, 0x7da86405, 0x600003c6, 0x3e9d7b78, 0x0183fc00, 0x12dcbfdb, 0xe2e2c38e,
      0xc8215c1a, 0xb73679a2, 0xe5bc3909, 0x32663c5b, 0x9d209d67, 0xec8726cb, 0x702138a4, 0xd3b7973b)
    ensures Rounds(v, b, 32) ==
      Vars(0x73b33bf5, 0xea992a22, 0xa0060b30, 0x363482c9, 0xba591112, 0x0109ab3a, 0xade79437, 0x6112a3b7)
  {
    hide W, Rounds;
    AbcRounds16(v, b);
    AbcRounds20(v, b);
    AbcRounds24(v, b);
    AbcRounds28(v, b);
  }

  lemma AbcSixteen32(v: Vars, b: Bytes)
    requires |b| == 64 && Rounds(v, b, 32) ==
      Vars(0x73b33bf5, 0xea992a22, 0xa0060b30, 0x363482c9, 0xba591112, 0x0109ab3a, 0xade79437, 0x6112a3b7)
    requires Shows(b, 32,
      0x93f5997f, 0x3b68ba73, 0xaff4ffc1, 0xf10a5c62, 0x0a8b3996, 0x72af830a, 0x9409e33e, 0x24641522,
      0x9f47bf94, 0xf0a64f5a, 0x3e246a79, 0x27333ba3, 0x0c4763f2, 0x840abf27, 0x7a290d5d, 0x065c43da)
    ensures Rounds(v, b, 48) ==
      Vars(0x4172328d, 0xa14c14b0, 0x72ab4b91, 0x26628815, 0xfecf0bc6, 0xd57b94a9, 0xb7755da1, 0xa80f11f0)
  {
    hide W, Rounds;
    AbcRounds32(v, b);
    AbcRounds36(v, b);
    AbcRounds40(v, b);
    AbcRounds44(v, b);
  }

  lemma AbcSixteen48(v: Vars, b: Bytes)
    requires |b| == 64 && Rounds(v, b, 48) ==
      Vars(0x4172328d, 0xa14c14b0, 0x72ab4b91, 0x26628815, 0xfecf0bc6, 0xd57b94a9, 0xb7755da1, 0xa80f11f0)
    requires Shows(b, 48,
      0xfb3e89cb, 0xcc7617db, 0xb9e66c34, 0xa9993667, 0x84badedd, 0xc21462bc, 0x1487472c, 0xb20f7a99,
      0xef57b9cd, 0xebe6b238, 0x9fe3095e, 0x78bc8d4b, 0xa43fcf15, 0x668b2ff8, 0xeeaba2cc, 0x12b1edeb)
    ensures Rounds(v, b, 64) ==
      Vars(0x506e3058, 0xd39a2165, 0x04d24d6c, 0xb85e2ce9, 0x5ef50f24, 0xfb121210, 0x948d25b6, 0x961f4894)
  {
    hide W, Rounds;
    AbcRounds48(v, b);
    AbcRounds52(v, b);
    AbcRounds56(v, b);
    AbcRounds60(v, b);
  }

  lemma AbcBlock(b: Bytes)
    requires |b| == 64
    requires Shows(b, 0,
      0x61626380, 0x00000000, 0x00000000, 0x00000000, 0x00000000, 0x00000000, 0x00000000, 0x00000000,
      0x00000000, 0x00000000, 0x00000000, 0x00000000, 0x00000000, 0x00000000, 0x00000000, 0x00000018)
    ensures Rounds(Vars(0x6a09e667, 0xbb67ae85, 0x3c6ef372, 0xa54ff53a, 0x510e527f, 0x9b05688c, 0x1f83d9ab, 0x5be0cd19),
                   b, 64) ==
      Vars(0x506e3058, 0xd39a2165, 0x04d24d6c, 0xb85e2ce9, 0x5ef50f24, 0xfb121210, 0x948d25b6, 0x961f4894)
  {
    hide Shows, Rounds, W;
    var v := Vars(0x6a09e667, 0xbb67ae85, 0x3c6ef372, 0xa54ff53a, 0x510e527f, 0x9b05688c, 0x1f83d9ab, 0x5be0cd19);
    RoundsStart(v, b);
    AbcSchedule16(b);
    AbcSchedule32(b);
    AbcSchedule48(b);
    AbcSixteen0(v, b);
    AbcSixteen16(v, b);
    AbcSixteen32(v, b);
    AbcSixteen48(v, b);
  }

  // ----- the two-block message, first block

  lemma FirstSchedule16(b: Bytes)
    requires |b| == 64
    requires Shows(b, 0,
      0x61626364, 0x62636465, 0x63646566, 0x64656667, 0x65666768, 0x66676869, 0x6768696a, 0x68696a6b,
      0x696a6b6c, 0x6a6b6c6d, 0x6b6c6d6e, 0x6c6d6e6f, 0x6d6e6f70, 0x6e6f7071, 0x80000000, 0x00000000)
    ensures Shows(b, 16,
      0xeb8012ad, 0xa7c3ae92, 0x76e93ba2, 0xba42e743, 0x92a92204, 0xd847e75e, 0x9e160036, 0xb280a7cb,
      0xddeb1516, 0xf36586f4, 0x969cd048, 0xe959d99d, 0x6accc0ec, 0xf54cb098, 0x2af1b2da, 0xee59c4c9)
  {
    hide W;
    Extend(b, 16, 0x80000000, 0x6a6b6c6d, 0x62636465, 0x61626364, 0xeb8012ad);
    Extend(b, 17, 0x00000000, 0x6b6c6d6e, 0x63646566, 0x62636465, 0xa7c3ae92);
    Extend(b, 18, 0xeb8012ad, 0x6c6d6e6f, 0x64656667, 0x63646566, 0x76e93ba2);
    Extend(b, 19, 0xa7c3ae92, 0x6d6e6f70, 0x65666768, 0x64656667, 0xba42e743);
    Extend(b, 20, 0x76e93ba2, 0x6e6f7071, 0x66676869, 0x65666768, 0x92a92204);
    Extend(b, 21, 0xba42e743, 0x80000000, 0x6768696a, 0x66676869, 0xd847e75e);
    Extend(b, 22, 0x92a92204, 0x00000000, 0x68696a6b, 0x6768696a, 0x9e160036);
    Extend(b, 23, 0xd847e75e, 0xeb8012ad, 0x696a6b6c, 0x68696a6b, 0xb280a7cb);
    Extend(b, 24, 0x9e160036, 0xa7c3ae92, 0x6a6b6c6d, 0x696a6b6c, 0xddeb1516);
    Extend(b, 25, 0xb280a7cb, 0x76e93ba2, 0x6b6c6d6e, 0x6a6b6c6d, 0xf36586f4);
    Extend(b, 26, 0xddeb1516, 0xba42e743, 0x6c6d6e6f, 0x6b6c6d6e, 0x969cd048);
    Extend(b, 27, 0xf36586f4, 0x92a92204, 0x6d6e6f70, 0x6c6d6e6f, 0xe959d99d);
    Extend(b, 28, 0x969cd048, 0xd847e75e, 0x6e6f7071, 0x6d6e6f70, 0x6accc0ec);
    Extend(b, 29, 0xe959d99d, 0x9e160036, 0x80000000, 0x6e6f7071, 0xf54cb098);
    Extend(b, 30, 0x6accc0ec, 0xb280a7cb, 0x00000000, 0x80000000, 0x2af1b2da);
    Extend(b, 31, 0xf54cb098, 0xddeb1516, 0xeb8012ad, 0x00000000, 0xee59c4c9);
  }

  lemma FirstSchedule32(b: Bytes)
    requires |b| == 64
    requires Shows(b, 16,
      0xeb8012ad, 0xa7c3ae92, 0x76e93ba2, 0xba42e743, 0x92a92204, 0xd847e75e, 0x9e160036, 0xb280a7cb,
      0xddeb1516, 0xf36586f4, 0x969cd048, 0xe959d99d, 0x6accc0ec, 0xf54cb098, 0x2af1b2da, 0xee59c4c9)
    ensures Shows(b, 32,
      0xa835e16a, 0x1dff4429, 0xd6e15959, 0xc397cd6e, 0x6f1801ca, 0x21574205, 0x35ff7a84, 0x9743ee78,
      0xe44183e7, 0x0d09f00d, 0x9c89af54, 0x042d5bef, 0x71f134d0, 0x0f94f463, 0x7e49dc63, 0x6f65c997)
  {
    hide W;
    Extend(b, 32, 0x2af1b2da, 0xf36586f4, 0xa7c3ae92, 0xeb8012ad, 0xa835e16a);
    Extend(b, 33, 0xee59c4c9, 0x969cd048, 0x76e93ba2, 0xa7c3ae92, 0x1dff4429);
    Extend(b, 34, 0xa835e16a, 0xe959d99d, 0xba42e743, 0x76e93ba2, 0xd6e15959);
    Extend(b, 35, 0x1dff4429, 0x6accc0ec, 0x92a92204, 0xba42e743, 0xc397cd6e);
    Extend(b, 36, 0xd6e15959, 0xf54cb098, 0xd847e75e, 0x92a92204, 0x6f1801ca);
    Extend(b, 37, 0xc397cd6e, 0x2af1b2da, 0x9e160036, 0xd847e75e, 0x21574205);
    Extend(b, 38, 0x6f1801ca, 0xee59c4c9, 0xb280a7cb, 0x9e160036, 0x35ff7a84);
    Extend(b, 39, 0x21574205, 0xa835e16a, 0xddeb1516, 0xb280a7cb, 0x9743ee78);
    Extend(b, 40, 0x35ff7a84, 0x1dff4429, 0xf36586f4, 0xddeb1516, 0xe44183e7);
    Extend(b, 41, 0x9743ee78, 0xd6e15959, 0x969cd048, 0xf36586f4, 0x0d09f00d);
    Extend(b, 42, 0xe44183e7, 0xc397cd6e, 0xe959d99d, 0x969cd048, 0x9c89af54);
    Extend(b, 43, 0x0d09f00d, 0x6f1801ca, 0x6accc0ec, 0xe959d99d, 0x042d5bef);
    Extend(b, 44, 0x9c89af54, 0x21574205, 0xf54cb098, 0x6accc0ec, 0x71f134d0);
    Extend(b, 45, 0x042d5bef, 0x35ff7a84, 0x2af1b2da, 0xf54cb098, 0x0f94f463);
    Extend(b, 46, 0x71f134d0, 0x9743ee78, 0xee59c4c9, 0x2af1b2da, 0x7e49dc63);
    Extend(b, 47, 0x0f94f463, 0xe44183e7, 0xa835e16a, 0xee59c4c9, 0x6f65c997);
  }

  lemma FirstSchedule48(b: Bytes)
    requires |b| == 64
    requires Shows(b, 32,
      0xa835e16a, 0x1dff4429, 0xd6e15959, 0xc397cd6e, 0x6f1801ca, 0x21574205, 0x35ff7a84, 0x9743ee78,
      0xe44183e7, 0x0d09f00d, 0x9c89af54, 0x042d5bef, 0x71f134d0, 0x0f94f463, 0x7e49dc63, 0x6f65c997)
    ensures Shows(b, 48,
      0x0b706583, 0x179312ca, 0x503054e9, 0xba125c39, 0x7e9392c9, 0xd5cbaa1e, 0x78e0585d, 0xf6e7611c,
      0x8ac830ce, 0x8b47a303, 0xfd6e627f, 0x8c6e2c6a, 0x4001adf1, 0x1a3dd097, 0xa9df6f62, 0x6aa60a39)
  {
    hide W;
    Extend(b, 48, 0x7e49dc63, 0x0d09f00d, 0x1dff4429, 0xa835e16a, 0x0b706583);
    Extend(b, 49, 0x6f65c997, 0x9c89af54, 0xd6e15959, 0x1dff4429, 0x179312ca);
    Extend(b, 50, 0x0b706583, 0x042d5bef, 0xc397cd6e, 0xd6e15959, 0x503054e9);
    Extend(b, 51, 0x179312ca, 0x71f134d0, 0x6f1801ca, 0xc397cd6e, 0xba125c39);
    Extend(b, 52, 0x503054e9, 0x0f94f463, 0x21574205, 0x6f1801ca, 0x7e9392c9);
    Extend(b, 53, 0xba125c39, 0x7e49dc63, 0x35ff7a84, 0x21574205, 0xd5cbaa1e);
    Extend(b, 54, 0x7e9392c9, 0x6f65c997, 0x9743ee78, 0x35ff7a84, 0x78e0585d);
    Extend(b, 55, 0xd5cbaa1e, 0x0b706583, 0xe44183e7, 0x9743ee78, 0xf6e7611c);
    Extend(b, 56, 0x78e0585d, 0x179312ca, 0x0d09f00d, 0xe44183e7, 0x8ac830ce);
    Extend(b, 57, 0xf6e7611c, 0x503054e9, 0x9c89af54, 0x0d09f00d, 0x8b47a303);
    Extend(b, 58, 0x8ac830ce, 0xba125c39, 0x042d5bef, 0x9c89af54, 0xfd6e627f);
    Extend(b, 59, 0x8b47a303, 0x7e9392c9, 0x71f134d0, 0x042d5bef, 0x8c6e2c6a);
    Extend(b, 60, 0xfd6e627f, 0xd5cbaa1e, 0x0f94f463, 0x71f134d0, 0x4001adf1);
    Extend(b, 61, 0x8c6e2c6a, 0x78e0585d, 0x7e49dc63, 0x0f94f463, 0x1a3dd097);
    Extend(b, 62, 0x4001adf1, 0xf6e7611c, 0x6f65c997, 0x7e49dc63, 0xa9df6f62);
    Extend(b, 63, 0x1a3dd097, 0x8ac830ce, 0x0b706583, 0x6f65c997, 0x6aa60a39);
  }

  lemma FirstRounds0(v: Vars, b: Bytes)
    requires |b| == 64 && Rounds(v, b, 0) ==
      Vars(0x6a09e667, 0xbb67ae85, 0x3c6ef372, 0xa54ff53a, 0x510e527f, 0x9b05688c, 0x1f83d9ab, 0x5be0cd19)
    requires W(b, 0) == 0x61626364 && W(b, 1) == 0x62636465 && W(b, 2) == 0x63646566 && W(b, 3) == 0x64656667
    ensures Rounds(v, b, 4) ==
      Vars(0x4a8d64d5, 0x97651825, 0x2f2d5fcf, 0x5d6aebb1, 0x6494841b, 0x62d5c49e, 0x4eb1cfce, 0xfa2a4606)
  {
    hide W, Rounds;
    FourSteps(v, b, 0,
      0x6a09e667, 0xbb67ae85, 0x3c6ef372, 0xa54ff53a, 0x510e527f, 0x9b05688c, 0x1f83d9ab, 0x5be0cd19,
      0x428a2f98, 0x71374491, 0xb5c0fbcf, 0xe9b5dba5, 0x61626364, 0x62636465, 0x63646566, 0x64656667,
      0x5d6aebb1, 0x2f2d5fcf, 0x97651825, 0x4a8d64d5, 0xfa2a4606, 0x4eb1cfce, 0x62d5c49e, 0x6494841b);
  }

  lemma FirstRounds4(v: Vars, b: Bytes)
    requires |b| == 64 && Rounds(v, b, 4) ==
      Vars(0x4a8d64d5, 0x97651825, 0x2f2d5fcf, 0x5d6aebb1, 0x6494841b, 0x62d5c49e, 0x4eb1cfce, 0xfa2a4606)
    requires W(b, 4) == 0x65666768 && W(b, 5) == 0x66676869 && W(b, 6) == 0x6768696a && W(b, 7) == 0x68696a6b
    ensures Rounds(v, b, 8) ==
      Vars(0xd237e6db, 0x485835b7, 0x55c8ef48, 0xf921c212, 0xa401d211, 0x39a5b2ca, 0x7ff91c94, 0x05c4f88a)
  {
    hide W, Rounds;
    FourSteps(v, b, 4,
      0x4a8d64d5, 0x97651825, 0x2f2d5fcf, 0x5d6aebb1, 0x6494841b, 0x62d5c49e, 0x4eb1cfce, 0xfa2a4606,
      0x3956c25b, 0x59f111f1, 0x923f82a4, 0xab1c5ed5, 0x65666768, 0x66676869, 0x6768696a, 0x68696a6b,
      0xf921c212, 0x55c8ef48, 0x485835b7, 0xd237e6db, 0x05c4f88a, 0x7ff91c94, 0x39a5b2ca, 0xa401d211);
  }

  lemma FirstRounds8(v: Vars, b: Bytes)
    requires |b| == 64 && Rounds(v, b, 8) ==
      Vars(0xd237e6db, 0x485835b7, 0x55c8ef48, 0xf921c212, 0xa401d211, 0x39a5b2ca, 0x7ff91c94, 0x05c4f88a)
    requires W(b, 8) == 0x696a6b6c && W(b, 9) == 0x6a6b6c6d && W(b, 10) == 0x6b6c6d6e && W(b, 11) == 0x6c6d6e6f
    ensures Rounds(v, b, 12) ==
      Vars(0x1762215c, 0xb8e2b4cb, 0x3a474b2b, 0x359f2bce, 0xee1c97a8, 0x443ed29e, 0x9037b3b8, 0xc09ffec4)
  {
    hide W, Rounds;
    FourSteps(v, b, 8,
      0xd237e6db, 0x485835b7, 0x55c8ef48, 0xf921c212, 0xa401d211, 0x39a5b2ca, 0x7ff91c94, 0x05c4f88a,
      0xd807aa98, 0x12835b01, 0x243185be, 0x550c7dc3, 0x696a6b6c, 0x6a6b6c6d, 0x6b6c6d6e, 0x6c6d6e6f,
      0x359f2bce, 0x3a474b2b, 0xb8e2b4cb, 0x1762215c, 0xc09ffec4, 0x9037b3b8, 0x443ed29e, 0xee1c97a8);
  }

  lemma FirstRounds12(v: Vars, b: Bytes)
    requires |b| == 64 && Rounds(v, b, 12) ==
      Vars(0x1762215c, 0xb8e2b4cb, 0x3a474b2b, 0x359f2bce, 0xee1c97a8, 0x443ed29e, 0x9037b3b8, 0xc09ffec4)
    requires W(b, 12) == 0x6d6e6f70 && W(b, 13) == 0x6e6f7071 && W(b, 14) == 0x80000000 && W(b, 15) == 0x00000000
    ensures Rounds(v, b, 16) ==
      Vars(0xc3486194, 0xdd16cbb3, 0xd68e6457, 0x101a4861, 0x1496a54f, 0x9162aded, 0x9243f8af, 0x839a0fc9)
  {
    hide W, Rounds;
    FourSteps(v, b, 12,
      0x1762215c, 0xb8e2b4cb, 0x3a474b2b, 0x359f2bce, 0xee1c97a8, 0x443ed29e, 0x9037b3b8, 0xc09ffec4,
      0x72be5d74, 0x80deb1fe, 0x9bdc06a7, 0xc19bf174, 0x6d6e6f70, 0x6e6f7071, 0x80000000, 0x00000000,
      0x101a4861, 0xd68e6457, 0xdd16cbb3, 0xc3486194, 0x839a0fc9, 0x9243f8af, 0x9162aded, 0x1496a54f);
  }

  lemma FirstRounds16(v: Vars, b: Bytes)
    requires |b| == 64 && Rounds(v, b, 16) ==
      Vars(0xc3486194, 0xdd16cbb3, 0xd68e6457, 0x101a4861, 0x1496a54f, 0x9162aded, 0x9243f8af, 0x839a0fc9)
    requires W(b, 16) == 0xeb8012ad && W(b, 17) == 0xa7c3ae92 && W(b, 18) == 0x76e93ba2 && W(b, 19) == 0xba42e743
    ensures Rounds(v, b, 20) ==
      Vars(0x2139187b, 0xf402f058, 0x046a193e, 0xb9dcacb1, 0x7c304206, 0x6f433549, 0x885370b6, 0xd4f64250)
  {
    hide W, Rounds;
    FourSteps(v, b, 16,
      0xc3486194, 0xdd16cbb3, 0xd68e6457, 0x101a4861, 0x1496a54f, 0x9162aded, 0x9243f8af, 0x839a0fc9,
      0xe49b69c1, 0xefbe4786, 0x0fc19dc6, 0x240ca1cc, 0xeb8012ad, 0xa7c3ae92, 0x76e93ba2, 0xba42e743,
      0xb9dcacb1, 0x046a193e, 0xf402f058, 0x2139187b, 0xd4f64250, 0x885370b6, 0x6f433549, 0x7c304206);
  }

  lemma FirstRounds20(v: Vars, b: Bytes)
    requires |b| == 64 && Rounds(v, b, 20) ==
      Vars(0x2139187b, 0xf402f058, 0x046a193e, 0xb9dcacb1, 0x7c304206, 0x6f433549, 0x885370b6, 0xd4f64250)
    requires W(b, 20) == 0x92a92204 && W(b, 21) == 0xd847e75e && W(b, 22) == 0x9e160036 && W(b, 23) == 0xb280a7cb
    ensures Rounds(v, b, 24) ==
      Vars(0x59fce6b9, 0xae2e2d4f, 0x1b2b66b8, 0xd70ac17d, 0xa2c7d51d, 0xf074fc95, 0xd560b028, 0x7cc6b262)
  {
    hide W, Rounds;
    FourSteps(v, b, 20,
      0x2139187b, 0xf402f058, 0x046a193e, 0xb9dcacb1, 0x7c304206, 0x6f433549, 0x885370b6, 0xd4f64250,
      0x2de92c6f, 0x4a7484aa, 0x5cb0a9dc, 0x76f988da, 0x92a92204, 0xd847e75e, 0x9e160036, 0xb280a7cb,
      0xd70ac17d, 0x1b2b66b8, 0xae2e2d4f, 0x59fce6b9, 0x7cc6b262, 0xd560b028, 0xf074fc95, 0xa2c7d51d);
  }

  lemma FirstRounds24(v: Vars, b: Bytes)
    requires |b| == 64 && Rounds(v, b, 24) ==
      Vars(0x59fce6b9, 0xae2e2d4f, 0x1b2b66b8, 0xd70ac17d, 0xa2c7d51d, 0xf074fc95, 0xd560b028, 0x7cc6b262)
    requires W(b, 24) == 0xddeb1516 && W(b, 25) == 0xf36586f4 && W(b, 26) == 0x969cd048 && W(b, 27) == 0xe959d99d
    ensures Rounds(v, b, 28) ==
      Vars(0x73f858af, 0x128661da, 0x573221da, 0x4a885065, 0xe77c797f, 0x1162d575, 0x36e74eb4, 0x763597fb)
  {
    hide W, Rounds;
    FourSteps(v, b, 24,
      0x59fce6b9, 0xae2e2d4f, 0x1b2b66b8, 0xd70ac17d, 0xa2c7d51d, 0xf074fc95, 0xd560b028, 0x7cc6b262,
      0x983e5152, 0xa831c66d, 0xb00327c8, 0xbf597fc7, 0xddeb1516, 0xf36586f4, 0x969cd048, 0xe959d99d,
      0x4a885065, 0x573221da, 0x128661da, 0x73f858af, 0x763597fb, 0x36e74eb4, 0x1162d575, 0xe77c797f);
  }

  lemma FirstRounds28(v: Vars, b: Bytes)
    requires |b| == 64 && Rounds(v, b, 28) ==
      Vars(0x73f858af, 0x128661da, 0x573221da, 0x4a885065, 0xe77c797f, 0x1162d575, 0x36e74eb4, 0x763597fb)
    requires W(b, 28) == 0x6accc0ec && W(b, 29) == 0xf54cb098 && W(b, 30) == 0x2af1b2da && W(b, 31) == 0xee59c4c9
    ensures Rounds(v, b, 32) ==
      Vars(0x5581ab07, 0xeb43f3ed, 0xdf7151a0, 0x74bcf468, 0xdf980085, 0x0635d880, 0x7629c961, 0x72abaecd)
  {
    hide W, Rounds;
    FourSteps(v, b, 28,
      0x73f858af, 0x128661da, 0x573221da, 0x4a885065, 0xe77c797f, 0x1162d575, 0x36e74eb4, 0x763597fb,
      0xc6e00bf3, 0xd5a79147, 0x06ca6351, 0x14292967, 0x6accc0ec, 0xf54cb098, 0x2af1b2da, 0xee59c4c9,
      0x74bcf468, 0xdf7151a0, 0xeb43f3ed, 0x5581ab07, 0x72abaecd, 0x7629c961, 0x0635d880, 0xdf980085);
  }

  lemma FirstRounds32(v: Vars, b: Bytes)
    requires |b| == 64 && Rounds(v, b, 32) ==
      Vars(0x5581ab07, 0xeb43f3ed, 0xdf7151a0, 0x74bcf468, 0xdf980085, 0x0635d880, 0x7629c961, 0x72abaecd)
    requires W(b, 32) == 0xa835e16a && W(b, 33) == 0x1dff4429 && W(b, 34) == 0xd6e15959 && W(b, 35) == 0xc397cd6e
    ensures Rounds(v, b, 36) ==
      Vars(0x0786dce8, 0x1df8e885, 0x9ce5a62f, 0x9fc905c8, 0xde2a21d1, 0x2a9e048e, 0x6ef3b6bd, 0xa94d2af1)
  {
    hide W, Rounds;
    FourSteps(v, b, 32,
      0x5581ab07, 0xeb43f3ed, 0xdf7151a0, 0x74bcf468, 0xdf980085, 0x0635d880, 0x7629c961, 0x72abaecd,
      0x27b70a85, 0x2e1b2138, 0x4d2c6dfc, 0x53380d13, 0xa835e16a, 0x1dff4429, 0xd6e15959, 0xc397cd6e,
      0x9fc905c8, 0x9ce5a62f, 0x1df8e885, 0x0786dce8, 0xa94d2af1, 0x6ef3b6bd, 0x2a9e048e, 0xde2a21d1);
  }

  lemma FirstRounds36(v: Vars, b: Bytes)
    requires |b| == 64 && Rounds(v, b, 36) ==
      Vars(0x0786dce8, 0x1df8e885, 0x9ce5a62f, 0x9fc905c8, 0xde2a21d1, 0x2a9e048e, 0x6ef3b6bd, 0xa94d2af1)
    requires W(b, 36) == 0x6f1801ca && W(b, 37) == 0x21574205 && W(b, 38) == 0x35ff7a84 && W(b, 39) == 0x9743ee78
    ensures Rounds(v, b, 40) ==
      Vars(0x7e4d30b8, 0x91ac9d5d, 0xa985b4be, 0x2c55d3a6, 0x9f5b9b6d, 0x68d8d590, 0xf72bf353, 0xb067c1af)
  {
    hide W, Rounds;
    FourSteps(v, b, 36,
      0x0786dce8, 0x1df8e885, 0x9ce5a62f, 0x9fc905c8, 0xde2a21d1, 0x2a9e048e, 0x6ef3b6bd, 0xa94d2af1,
      0x650a7354, 0x766a0abb, 0x81c2c92e, 0x92722c85, 0x6f1801ca, 0x21574205, 0x35ff7a84, 0x9743ee78,
      0x2c55d3a6, 0xa985b4be, 0x91ac9d5d, 0x7e4d30b8, 0xb067c1af, 0xf72bf353, 0x68d8d590, 0x9f5b9b6d);
  }

  lemma FirstRounds40(v: Vars, b: Bytes)
    requires |b| == 64 && Rounds(v, b, 40) ==
      Vars(0x7e4d30b8, 0x91ac9d5d, 0xa985b4be, 0x2c55d3a6, 0x9f5b9b6d, 0x68d8d590, 0xf72bf353, 0xb067c1af)
    requires W(b, 40) == 0xe44183e7 && W(b, 41) == 0x0d09f00d && W(b, 42) == 0x9c89af54 && W(b, 43) == 0x042d5bef
    ensures Rounds(v, b, 44) ==
      Vars(0x167361de, 0xb62c7013, 0x508a16ab, 0x7e056794, 0x41dd3844, 0x80a92a00, 0x45459d97, 0x423b26c0)
  {
    hide W, Rounds;
    FourSteps(v, b, 40,
      0x7e4d30b8, 0x91ac9d5d, 0xa985b4be, 0x2c55d3a6, 0x9f5b9b6d, 0x68d8d590, 0xf72bf353, 0xb067c1af,
      0xa2bfe8a1, 0xa81a664b, 0xc24b8b70, 0xc76c51a3, 0xe44183e7, 0x0d09f00d, 0x9c89af54, 0x042d5bef,
      0x7e056794, 0x508a16ab, 0xb62c7013, 0x167361de, 0x423b26c0, 0x45459d97, 0x80a92a00, 0x41dd3844);
  }

  lemma FirstRounds44(v: Vars, b: Bytes)
    requires |b| == 64 && Rounds(v, b, 44) ==
      Vars(0x167361de, 0xb62c7013, 0x508a16ab, 0x7e056794, 0x41dd3844, 0x80a92a00, 0x45459d97, 0x423b26c0)
    requires W(b, 44) == 0x71f134d0 && W(b, 45) == 0x0f94f463 && W(b, 46) == 0x7e49dc63 && W(b, 47) == 0x6f65c997
    ensures Rounds(v, b, 48) ==
      Vars(0x13d82741, 0x165be9cd, 0x18f0d19d, 0xde71e2f2, 0xa7802a4d, 0xa483f080, 0x6b88472c, 0xff61c636)
  {
    hide W, Rounds;
    FourSteps(v, b, 44,
      0x167361de, 0xb62c7013, 0x508a16ab, 0x7e056794, 0x41dd3844, 0x80a92a00, 0x45459d97, 0x423b26c0,
      0xd192e819, 0xd6990624, 0xf40e3585, 0x106aa070, 0x71f134d0, 0x0f94f463, 0x7e49dc63, 0x6f65c997,
      0xde71e2f2, 0x18f0d19d, 0x165be9cd, 0x13d82741, 0xff61c636, 0x6b88472c, 0xa483f080, 0xa7802a4d);
  }

  lemma FirstRounds48(v: Vars, b: Bytes)
    requires |b| == 64 && Rounds(v, b, 48) ==
      Vars(0x13d82741, 0x165be9cd, 0x18f0d19d, 0xde71e2f2, 0xa7802a4d, 0xa483f080, 0x6b88472c, 0xff61c636)
    requires W(b, 48) == 0x0b706583 && W(b, 49) == 0x179312ca && W(b, 50) == 0x503054e9 && W(b, 51) == 0xba125c39
    ensures Rounds(v, b, 52) ==
      Vars(0x81c1cde0, 0x758ca97a, 0x543c99a1, 0x017b9d99, 0x5c47eb7b, 0x100cf2ea, 0x16f134b6, 0xaeb10b60)
  {
    hide W, Rounds;
    FourSteps(v, b, 48,
      0x13d82741, 0x165be9cd, 0x18f0d19d, 0xde71e2f2, 0xa7802a4d, 0xa483f080, 0x6b88472c, 0xff61c636,
      0x19a4c116, 0x1e376c08, 0x2748774c, 0x34b0bcb5, 0x0b706583, 0x179312ca, 0x503054e9, 0xba125c39,
      0x017b9d99, 0x543c99a1, 0x758ca97a, 0x81c1cde0, 0xaeb10b60, 0x16f134b6, 0x100cf2ea, 0x5c47eb7b);
  }

  lemma FirstRounds52(v: Vars, b: Bytes)
    requires |b| == 64 && Rounds(v, b, 52) ==
      Vars(0x81c1cde0, 0x758ca97a, 0x543c99a1, 0x017b9d99, 0x5c47eb7b, 0x100cf2ea, 0x16f134b6, 0xaeb10b60)
    requires W(b, 52) == 0x7e9392c9 && W(b, 53) == 0xd5cbaa1e && W(b, 54) == 0x78e0585d && W(b, 55) == 0xf6e7611c
    ensures Rounds(v, b, 56) ==
      Vars(0x9e57c4a0, 0xf907b313, 0x1d6de87a, 0xb8d55619, 0xeec13548, 0x61a41711, 0x3443bed4, 0x1c806a61)
  {
    hide W, Rounds;
    FourSteps(v, b, 52,
      0x81c1cde0, 0x758ca97a, 0x543c99a1, 0x017b9d99, 0x5c47eb7b, 0x100cf2ea, 0x16f134b6, 0xaeb10b60,
      0x391c0cb3, 0x4ed8aa4a, 0x5b9cca4f, 0x682e6ff3, 0x7e9392c9, 0xd5cbaa1e, 0x78e0585d, 0xf6e7611c,
      0xb8d55619, 0x1d6de87a, 0xf907b313, 0x9e57c4a0, 0x1c806a61, 0x3443bed4, 0x61a41711, 0xeec13548);
  }

  lemma FirstRounds56(v: Vars, b: Bytes)
    requires |b| == 64 && Rounds(v, b, 56) ==
      Vars(0x9e57c4a0, 0xf907b313, 0x1d6de87a, 0xb8d55619, 0xeec13548, 0x61a41711, 0x3443bed4, 0x1c806a61)
    requires W(b, 56) == 0x8ac830ce && W(b, 57) == 0x8b47a303 && W(b, 58) == 0xfd6e627f && W(b, 59) == 0x8c6e2c6a
    ensures Rounds(v, b, 60) ==
      Vars(0xe18f259a, 0x921fccb6, 0x7c015a2c, 0x71629856, 0x51e15869, 0x43d8a034, 0xcb9d3dd0, 0x2f6c8c4e)
  {
    hide W, Rounds;
    FourSteps(v, b, 56,
      0x9e57c4a0, 0xf907b313, 0x1d6de87a, 0xb8d55619, 0xeec13548, 0x61a41711, 0x3443bed4, 0x1c806a61,
      0x748f82ee, 0x78a5636f, 0x84c87814, 0x8cc70208, 0x8ac830ce, 0x8b47a303, 0xfd6e627f, 0x8c6e2c6a,
      0x71629856, 0x7c015a2c, 0x921fccb6, 0xe18f259a, 0x2f6c8c4e, 0xcb9d3dd0, 0x43d8a034, 0x51e15869);
  }

  lemma FirstRounds60(v: Vars, b: Bytes)
    requires |b| == 64 && Rounds(v, b, 60) ==
      Vars(0xe18f259a, 0x921fccb6, 0x7c015a2c, 0x71629856, 0x51e15869, 0x43d8a034, 0xcb9d3dd0, 0x2f6c8c4e)
    requires W(b, 60) == 0x4001adf1 && W(b, 61) == 0x1a3dd097 && W(b, 62) == 0xa9df6f62 && W(b, 63) == 0x6aa60a39
    ensures Rounds(v, b, 64) ==
      Vars(0x1bdc6f6f, 0x86126910, 0xf6f443f8, 0xbcfce922, 0x25d2430a, 0x2fc08f85, 0xacc75916, 0x962d8621)
  {
    hide W, Rounds;
    FourSteps(v, b, 60,
      0xe18f259a, 0x921fccb6, 0x7c015a2c, 0x71629856, 0x51e15869, 0x43d8a034, 0xcb9d3dd0, 0x2f6c8c4e,
      0x90befffa, 0xa4506ceb, 0xbef9a3f7, 0xc67178f2, 0x4001adf1, 0x1a3dd097, 0xa9df6f62, 0x6aa60a39,
      0xbcfce922, 0xf6f443f8, 0x86126910, 0x1bdc6f6f, 0x962d8621, 0xacc75916, 0x2fc08f85, 0x25d2430a);
  }

  lemma FirstSixteen0(v: Vars, b: Bytes)
    requires |b| == 64 && Rounds(v, b, 0) ==
      Vars(0x6a09e667, 0xbb67ae85, 0x3c6ef372, 0xa54ff53a, 0x510e527f, 0x9b05688c, 0x1f83d9ab, 0x5be0cd19)
    requires Shows(b, 0,
      0x61626364, 0x62636465, 0x63646566, 0x64656667, 0x65666768, 0x66676869, 0x6768696a, 0x68696a6b,
      0x696a6b6c, 0x6a6b6c6d, 0x6b6c6d6e, 0x6c6d6e6f, 0x6d6e6f70, 0x6e6f7071, 0x80000000, 0x00000000)
    ensures Rounds(v, b, 16) ==
      Vars(0xc3486194, 0xdd16cbb3, 0xd68e6457, 0x101a4861, 0x1496a54f, 0x9162aded, 0x9243f8af, 0x839a0fc9)
  {
    hide W, Rounds;
    FirstRounds0(v, b);
    FirstRounds4(v, b);
    FirstRounds8(v, b);
    FirstRounds12(v, b);
  }

  lemma FirstSixteen16(v: Vars, b: Bytes)
    requires |b| == 64 && Rounds(v, b, 16) ==
      Vars(0xc3486194, 0xdd16cbb3, 0xd68e6457, 0x101a4861, 0x1496a54f, 0x9162aded, 0x9243f8af, 0x839a0fc9)
    requires Shows(b, 16,
      0xeb8012ad, 0xa7c3ae92, 0x76e93ba2, 0xba42e743, 0x92a92204, 0xd847e75e, 0x9e160036, 0xb280a7cb,
      0xddeb1516, 0xf36586f4, 0x969cd048, 0xe959d99d, 0x6accc0ec, 0xf54cb098, 0x2af1b2da, 0xee59c4c9)
    ensures Rounds(v, b, 32) ==
      Vars(0x5581ab07, 0xeb43f3ed, 0xdf7151a0, 0x74bcf468, 0xdf980085, 0x0635d880, 0x7629c961, 0x72abaecd)
  {
    hide W, Rounds;
    FirstRounds16(v, b);
    FirstRounds20(v, b);
    FirstRounds24(v, b);
    FirstRounds28(v, b);
  }

  lemma FirstSixteen32(v: Vars, b: Bytes)
    requires |b| == 64 && Rounds(v, b, 32) ==
      Vars(0x5581ab07, 0xeb43f3ed, 0xdf7151a0, 0x74bcf468, 0xdf980085, 0x0635d880, 0x7629c961, 0x72abaecd)
    requires Shows(b, 32,
      0xa835e16a, 0x1dff4429, 0xd6e15959, 0xc397cd6e, 0x6f1801ca, 0x21574205, 0x35ff7a84, 0x9743ee78,
      0xe44183e7, 0x0d09f00d, 0x9c89af54, 0x042d5bef, 0x71f134d0, 0x0f94f463, 0x7e49dc63, 0x6f65c997)
    ensures Rounds(v, b, 48) ==
      Vars(0x13d82741, 0x165be9cd, 0x18f0d19d, 0xde71e2f2, 0xa7802a4d, 0xa483f080, 0x6b88472c, 0xff61c636)
  {
    hide W, Rounds;
    FirstRounds32(v, b);
    FirstRounds36(v, b);
    FirstRounds40(v, b);
    FirstRounds44(v, b);
  }

  lemma FirstSixteen48(v: Vars, b: Bytes)
    requires |b| == 64 && Rounds(v, b, 48) ==
      Vars(0x13d82741, 0x165be9cd, 0x18f0d19d, 0xde71e2f2, 0xa7802a4d, 0xa483f080, 0x6b88472c, 0xff61c636)
    requires Shows(b, 48,
      0x0b706583, 0x179312ca, 0x503054e9, 0xba125c39, 0x7e9392c9, 0xd5cbaa1e, 0x78e0585d, 0xf6e7611c,
      0x8ac830ce, 0x8b47a303, 0xfd6e627f, 0x8c6e2c6a, 0x4001adf1, 0x1a3dd097, 0xa9df6f62, 0x6aa60a39)
    ensures Rounds(v, b, 64) ==
      Vars(0x1bdc6f6f, 0x86126910, 0xf6f443f8, 0xbcfce922, 0x25d2430a, 0x2fc08f85, 0xacc75916, 0x962d8621)
  {
    hide W, Rounds;
    FirstRounds48(v, b);
    FirstRounds52(v, b);
    FirstRounds56(v, b);
    FirstRounds60(v, b);
  }

  lemma FirstBlock(b: Bytes)
    requires |b| == 64
    requires Shows(b, 0,
      0x61626364, 0x62636465, 0x63646566, 0x64656667, 0x65666768, 0x66676869, 0x6768696a, 0x68696a6b,
      0x696a6b6c, 0x6a6b6c6d, 0x6b6c6d6e, 0x6c6d6e6f, 0x6d6e6f70, 0x6e6f7071, 0x80000000, 0x00000000)
    ensures Rounds(Vars(0x6a09e667, 0xbb67ae85, 0x3c6ef372, 0xa54ff53a, 0x510e527f, 0x9b05688c, 0x1f83d9ab, 0x5be0cd19),
                   b, 64) ==
      Vars(0x1bdc6f6f, 0x86126910, 0xf6f443f8, 0xbcfce922, 0x25d2430a, 0x2fc08f85, 0xacc75916, 0x962d8621)
  {
    hide Shows, Rounds, W;
    var v := Vars(0x6a09e667, 0xbb67ae85, 0x3c6ef372, 0xa54ff53a, 0x510e527f, 0x9b05688c, 0x1f83d9ab, 0x5be0cd19);
    RoundsStart(v, b);
    FirstSchedule16(b);
    FirstSchedule32(b);
    FirstSchedule48(b);
    FirstSixteen0(v, b);
    FirstSixteen16(v, b);
    FirstSixteen32(v, b);
    FirstSixteen48(v, b);
  }

  // ----- the two-block message, second block

  lemma SecondSchedule16(b: Bytes)
    requires |b| == 64
    requires Shows(b, 0,
      0x00000000, 0x00000000, 0x00000000, 0x00000000, 0x00000000, 0x00000000, 0x00000000, 0x00000000,
      0x00000000, 0x00000000, 0x00000000, 0x00000000, 0x00000000, 0x00000000, 0x00000000, 0x000001c0)
    ensures Shows(b, 16,
      0x00000000, 0x00d80000, 0x00000000, 0x00003677, 0x00000000, 0x1df5600d, 0x000001c0, 0x1c00501c,
      0x01b00000, 0x220a8d94, 0x0000a365, 0x177017e7, 0x63d38035, 0x090ab713, 0x4c7539ca, 0x0f19a8c9)
  {
    hide W;
    Extend(b, 16, 0x00000000, 0x00000000, 0x00000000, 0x00000000, 0x00000000);
    Extend(b, 17, 0x000001c0, 0x00000000, 0x00000000, 0x00000000, 0x00d80000);
    Extend(b, 18, 0x00000000, 0x00000000, 0x00000000, 0x00000000, 0x00000000);
    Extend(b, 19, 0x00d80000, 0x00000000, 0x00000000, 0x00000000, 0x00003677);
    Extend(b, 20, 0x00000000, 0x00000000, 0x00000000, 0x00000000, 0x00000000);
    Extend(b, 21, 0x00003677, 0x00000000, 0x00000000, 0x00000000, 0x1df5600d);
    Extend(b, 22, 0x00000000, 0x000001c0, 0x00000000, 0x00000000, 0x000001c0);
    Extend(b, 23, 0x1df5600d, 0x00000000, 0x00000000, 0x00000000, 0x1c00501c);
    Extend(b, 24, 0x000001c0, 0x00d80000, 0x00000000, 0x00000000, 0x01b00000);
    Extend(b, 25, 0x1c00501c, 0x00000000, 0x00000000, 0x00000000, 0x220a8d94);
    Extend(b, 26, 0x01b00000, 0x00003677, 0x00000000, 0x00000000, 0x0000a365);
    Extend(b, 27, 0x220a8d94, 0x00000000, 0x00000000, 0x00000000, 0x177017e7);
    Extend(b, 28, 0x0000a365, 0x1df5600d, 0x00000000, 0x00000000, 0x63d38035);
    Extend(b, 29, 0x177017e7, 0x000001c0, 0x00000000, 0x00000000, 0x090ab713);
    Extend(b, 30, 0x63d38035, 0x1c00501c, 0x000001c0, 0x00000000, 0x4c7539ca);
    Extend(b, 31, 0x090ab713, 0x01b00000, 0x00000000, 0x000001c0, 0x0f19a8c9);
  }

  lemma SecondSchedule32(b: Bytes)
    requires |b| == 64
    requires Shows(b, 16,
      0x00000000, 0x00d80000, 0x00000000, 0x00003677, 0x00000000, 0x1df5600d, 0x000001c0, 0x1c00501c,
      0x01b00000, 0x220a8d94, 0x0000a365, 0x177017e7, 0x63d38035, 0x090ab713, 0x4c7539ca, 0x0f19a8c9)
    ensures Shows(b, 32,
      0x5df4b0c4, 0xe257036a, 0xc97bb6f1, 0xc5b46f4d, 0xf8253c4e, 0xa558d189, 0x78696285, 0xed07117f,
      0x107358f6, 0x390ae496, 0x565010a2, 0xc51d7d44, 0x9e74c972, 0x6614b561, 0x30fc129d, 0x9ac684a8)
  {
    hide W;
    Extend(b, 32, 0x4c7539ca, 0x220a8d94, 0x00d80000, 0x00000000, 0x5df4b0c4);
    Extend(b, 33, 0x0f19a8c9, 0x0000a365, 0x00000000, 0x00d80000, 0xe257036a);
    Extend(b, 34, 0x5df4b0c4, 0x177017e7, 0x00003677, 0x00000000, 0xc97bb6f1);
    Extend(b, 35, 0xe257036a, 0x63d38035, 0x00000000, 0x00003677, 0xc5b46f4d);
    Extend(b, 36, 0xc97bb6f1, 0x090ab713, 0x1df5600d, 0x00000000, 0xf8253c4e);
    Extend(b, 37, 0xc5b46f4d, 0x4c7539ca, 0x000001c0, 0x1df5600d, 0xa558d189);
    Extend(b, 38, 0xf8253c4e, 0x0f19a8c9, 0x1c00501c, 0x000001c0, 0x78696285);
    Extend(b, 39, 0xa558d189, 0x5df4b0c4, 0x01b00000, 0x1c00501c, 0xed07117f);
    Extend(b, 40, 0x78696285, 0xe257036a, 0x220a8d94, 0x01b00000, 0x107358f6);
    Extend(b, 41, 0xed07117f, 0xc97bb6f1, 0x0000a365, 0x220a8d94, 0x390ae496);
    Extend(b, 42, 0x107358f6, 0xc5b46f4d, 0x177017e7, 0x0000a365, 0x565010a2);
    Extend(b, 43, 0x390ae496, 0xf8253c4e, 0x63d38035, 0x177017e7, 0xc51d7d44);
    Extend(b, 44, 0x565010a2, 0xa558d189, 0x090ab713, 0x63d38035, 0x9e74c972);
    Extend(b, 45, 0xc51d7d44, 0x78696285, 0x4c7539ca, 0x090ab713, 0x6614b561);
    Extend(b, 46, 0x9e74c972, 0xed07117f, 0x0f19a8c9, 0x4c7539ca, 0x30fc129d);
    Extend(b, 47, 0x6614b561, 0x107358f6, 0x5df4b0c4, 0x0f19a8c9, 0x9ac684a8);
  }

  lemma SecondSchedule48(b: Bytes)
    requires |b| == 64
    requires Shows(b, 32,
      0x5df4b0c4, 0xe257036a, 0xc97bb6f1, 0xc5b46f4d, 0xf8253c4e, 0xa558d189, 0x78696285, 0xed07117f,
      0x107358f6, 0x390ae496, 0x565010a2, 0xc51d7d44, 0x9e74c972, 0x6614b561, 0x30fc129d, 0x9ac684a8)
    ensures Shows(b, 48,
      0x2b658dbd, 0xe290f793, 0x9eebb24c, 0x9713b5de, 0x41061ab7, 0xe022e23b, 0x0772079e, 0x7de22d9c,
      0xc8b83778, 0x75a79849, 0xd93dbddb, 0x0a036c9d, 0xcb4f6ac6, 0x823f97e2, 0xea2f2a7a, 0xb9018b52)
  {
    hide W;
    Extend(b, 48, 0x30fc129d, 0x390ae496, 0xe257036a, 0x5df4b0c4, 0x2b658dbd);
    Extend(b, 49, 0x9ac684a8, 0x565010a2, 0xc97bb6f1, 0xe257036a, 0xe290f793);
    Extend(b, 50, 0x2b658dbd, 0xc51d7d44, 0xc5b46f4d, 0xc97bb6f1, 0x9eebb24c);
    Extend(b, 51, 0xe290f793, 0x9e74c972, 0xf8253c4e, 0xc5b46f4d, 0x9713b5de);
    Extend(b, 52, 0x9eebb24c, 0x6614b561, 0xa558d189, 0xf8253c4e, 0x41061ab7);
    Extend(b, 53, 0x9713b5de, 0x30fc129d, 0x78696285, 0xa558d189, 0xe022e23b);
    Extend(b, 54, 0x41061ab7, 0x9ac684a8, 0xed07117f, 0x78696285, 0x0772079e);
    Extend(b, 55, 0xe022e23b, 0x2b658dbd, 0x107358f6, 0xed07117f, 0x7de22d9c);
    Extend(b, 56, 0x0772079e, 0xe290f793, 0x390ae496, 0x107358f6, 0xc8b83778);
    Extend(b, 57, 0x7de22d9c, 0x9eebb24c, 0x565010a2, 0x390ae496, 0x75a79849);
    Extend(b, 58, 0xc8b83778, 0x9713b5de, 0xc51d7d44, 0x565010a2, 0xd93dbddb);
    Extend(b, 59, 0x75a79849, 0x41061ab7, 0x9e74c972, 0xc51d7d44, 0x0a036c9d);
    Extend(b, 60, 0xd93dbddb, 0xe022e23b, 0x6614b561, 0x9e74c972, 0xcb4f6ac6);
    Extend(b, 61, 0x0a036c9d, 0x0772079e, 0x30fc129d, 0x6614b561, 0x823f97e2);
    Extend(b, 62, 0xcb4f6ac6, 0x7de22d9c, 0x9ac684a8, 0x30fc129d, 0xea2f2a7a);
    Extend(b, 63, 0x823f97e2, 0xc8b83778, 0x2b658dbd, 0x9ac684a8, 0xb9018b52);
  }

  lemma SecondRounds0(v: Vars, b: Bytes)
    requires |b| == 64 && Rounds(v, b, 0) ==
      Vars(0x85e655d6, 0x417a1795, 0x3363376a, 0x624cde5c, 0x76e09589, 0xcac5f811, 0xcc4b32c1, 0xf20e533a)
    requires W(b, 0) == 0x00000000 && W(b, 1) == 0x00000000 && W(b, 2) == 0x00000000 && W(b, 3) == 0x00000000
    ensures Rounds(v, b, 4) ==
      Vars(0xf268faa9, 0xfd1eebdc, 0x7c3c0f86, 0x7c20c838, 0xe20362ef, 0xaf71b9ea, 0x8c51be64, 0x4670ae6e)
  {
    hide W, Rounds;
    FourSteps(v, b, 0,
      0x85e655d6, 0x417a1795, 0x3363376a, 0x624cde5c, 0x76e09589, 0xcac5f811, 0xcc4b32c1, 0xf20e533a,
      0x428a2f98, 0x71374491, 0xb5c0fbcf, 0xe9b5dba5, 0x00000000, 0x00000000, 0x00000000, 0x00000000,
      0x7c20c838, 0x7c3c0f86, 0xfd1eebdc, 0xf268faa9, 0x4670ae6e, 0x8c51be64, 0xaf71b9ea, 0xe20362ef);
  }

  lemma SecondRounds4(v: Vars, b: Bytes)
    requires |b| == 64 && Rounds(v, b, 4) ==
      Vars(0xf268faa9, 0xfd1eebdc, 0x7c3c0f86, 0x7c20c838, 0xe20362ef, 0xaf71b9ea, 0x8c51be64, 0x4670ae6e)
    requires W(b, 4) == 0x00000000 && W(b, 5) == 0x00000000 && W(b, 6) == 0x00000000 && W(b, 7) == 0x00000000
    ensures Rounds(v, b, 8) ==
      Vars(0xbf9a93a0, 0x89bba3f1, 0x3eeb6c06, 0x185a5d79, 0x059abdd1, 0x0a34df03, 0xfe20cda6, 0x8dff3001)
  {
    hide W, Rounds;
    FourSteps(v, b, 4,
      0xf268faa9, 0xfd1eebdc, 0x7c3c0f86, 0x7c20c838, 0xe20362ef, 0xaf71b9ea, 0x8c51be64, 0x4670ae6e,
      0x3956c25b, 0x59f111f1, 0x923f82a4, 0xab1c5ed5, 0x00000000, 0x00000000, 0x00000000, 0x00000000,
      0x185a5d79, 0x3eeb6c06, 0x89bba3f1, 0xbf9a93a0, 0x8dff3001, 0xfe20cda6, 0x0a34df03, 0x059abdd1);
  }

  lemma SecondRounds8(v: Vars, b: Bytes)
    requires |b| == 64 && Rounds(v, b, 8) ==
      Vars(0xbf9a93a0, 0x89bba3f1, 0x3eeb6c06, 0x185a5d79, 0x059abdd1, 0x0a34df03, 0xfe20cda6, 0x8dff3001)
    requires W(b, 8) == 0x00000000 && W(b, 9) == 0x00000000 && W(b, 10) == 0x00000000 && W(b, 11) == 0x00000000
    ensures Rounds(v, b, 12) ==
      Vars(0x5eb4ec40, 0x5b35025b, 0x2d964e86, 0x2c096744, 0xe11b4548, 0x10e77723, 0xaa27ed82, 0xabfa465b)
  {
    hide W, Rounds;
    FourSteps(v, b, 8,
      0xbf9a93a0, 0x89bba3f1, 0x3eeb6c06, 0x185a5d79, 0x059abdd1, 0x0a34df03, 0xfe20cda6, 0x8dff3001,
      0xd807aa98, 0x12835b01, 0x243185be, 0x550c7dc3, 0x00000000, 0x00000000, 0x00000000, 0x00000000,
      0x2c096744, 0x2d964e86, 0x5b35025b, 0x5eb4ec40, 0xabfa465b, 0xaa27ed82, 0x10e77723, 0xe11b4548);
  }

  lemma SecondRounds12(v: Vars, b: Bytes)
    requires |b| == 64 && Rounds(v, b, 12) ==
      Vars(0x5eb4ec40, 0x5b35025b, 0x2d964e86, 0x2c096744, 0xe11b4548, 0x10e77723, 0xaa27ed82, 0xabfa465b)
    requires W(b, 12) == 0x00000000 && W(b, 13) == 0x00000000 && W(b, 14) == 0x00000000 && W(b, 15) == 0x000001c0
    ensures Rounds(v, b, 16) ==
      Vars(0x16a8cc79, 0x0cea5cbc, 0xd74080fa, 0x35ee996d, 0x0fcb1f6f, 0x60356548, 0x68aa893f, 0x5c24e2a2)
  {
    hide W, Rounds;
    FourSteps(v, b, 12,
      0x5eb4ec40, 0x5b35025b, 0x2d964e86, 0x2c096744, 0xe11b4548, 0x10e77723, 0xaa27ed82, 0xabfa465b,
      0x72be5d74, 0x80deb1fe, 0x9bdc06a7, 0xc19bf174, 0x00000000, 0x00000000, 0x00000000, 0x000001c0,
      0x35ee996d, 0xd74080fa, 0x0cea5cbc, 0x16a8cc79, 0x5c24e2a2, 0x68aa893f, 0x60356548, 0x0fcb1f6f);
  }

  lemma SecondRounds16(v: Vars, b: Bytes)
    requires |b| == 64 && Rounds(v, b, 16) ==
      Vars(0x16a8cc79, 0x0cea5cbc, 0xd74080fa, 0x35ee996d, 0x0fcb1f6f, 0x60356548, 0x68aa893f, 0x5c24e2a2)
    requires W(b, 16) == 0x00000000 && W(b, 17) == 0x00d80000 && W(b, 18) == 0x00000000 && W(b, 19) == 0x00003677
    ensures Rounds(v, b, 20) ==
      Vars(0x76f1a2bc, 0xdcff40fd, 0x23dcb6c2, 0xf16f634e, 0x0dc84bb1, 0x69bf7b95, 0xca9182d3, 0x8b21cdc1)
  {
    hide W, Rounds;
    FourSteps(v, b, 16,
      0x16a8cc79, 0x0cea5cbc, 0xd74080fa, 0x35ee996d, 0x0fcb1f6f, 0x60356548, 0x68aa893f, 0x5c24e2a2,
      0xe49b69c1, 0xefbe4786, 0x0fc19dc6, 0x240ca1cc, 0x00000000, 0x00d80000, 0x00000000, 0x00003677,
      0xf16f634e, 0x23dcb6c2, 0xdcff40fd, 0x76f1a2bc, 0x8b21cdc1, 0xca9182d3, 0x69bf7b95, 0x0dc84bb1);
  }

  lemma SecondRounds20(v: Vars, b: Bytes)
    requires |b| == 64 && Rounds(v, b, 20) ==
      Vars(0x76f1a2bc, 0xdcff40fd, 0x23dcb6c2, 0xf16f634e, 0x0dc84bb1, 0x69bf7b95, 0xca9182d3, 0x8b21cdc1)
    requires W(b, 20) == 0x00000000 && W(b, 21) == 0x1df5600d && W(b, 22) == 0x000001c0 && W(b, 23) == 0x1c00501c
    ensures Rounds(v, b, 24) ==
      Vars(0xa4195b91, 0xf13ae55b, 0xd44dc81a, 0x20aad899, 0xeddbd6ed, 0x966aa287, 0x5bace62d, 0xcc4769f2)
  {
    hide W, Rounds;
    FourSteps(v, b, 20,
      0x76f1a2bc, 0xdcff40fd, 0x23dcb6c2, 0xf16f634e, 0x0dc84bb1, 0x69bf7b95, 0xca9182d3, 0x8b21cdc1,
      0x2de92c6f, 0x4a7484aa, 0x5cb0a9dc, 0x76f988da, 0x00000000, 0x1df5600d, 0x000001c0, 0x1c00501c,
      0x20aad899, 0xd44dc81a, 0xf13ae55b, 0xa4195b91, 0xcc4769f2, 0x5bace62d, 0x966aa287, 0xeddbd6ed);
  }

  lemma SecondRounds24(v: Vars, b: Bytes)
    requires |b| == 64 && Rounds(v, b, 24) ==
      Vars(0xa4195b91, 0xf13ae55b, 0xd44dc81a, 0x20aad899, 0xeddbd6ed, 0x966aa287, 0x5bace62d, 0xcc4769f2)
    requires W(b, 24) == 0x01b00000 && W(b, 25) == 0x220a8d94 && W(b, 26) == 0x0000a365 && W(b, 27) == 0x177017e7
    ensures Rounds(v, b, 28) ==
      Vars(0x0d936bab, 0x9450fbbc, 0xaa6cb982, 0x4984fa79, 0x6e495d4b, 0x09166dda, 0x0b5eeea4, 0xa530d939)
  {
    hide W, Rounds;
    FourSteps(v, b, 24,
      0xa4195b91, 0xf13ae55b, 0xd44dc81a, 0x20aad899, 0xeddbd6ed, 0x966aa287, 0x5bace62d, 0xcc4769f2,
      0x983e5152, 0xa831c66d, 0xb00327c8, 0xbf597fc7, 0x01b00000, 0x220a8d94, 0x0000a365, 0x177017e7,
      0x4984fa79, 0xaa6cb982, 0x9450fbbc, 0x0d936bab, 0xa530d939, 0x0b5eeea4, 0x09166dda, 0x6e495d4b);
  }

  lemma SecondRounds28(v: Vars, b: Bytes)
    requires |b| == 64 && Rounds(v, b, 28) ==
      Vars(0x0d936bab, 0x9450fbbc, 0xaa6cb982, 0x4984fa79, 0x6e495d4b, 0x09166dda, 0x0b5eeea4, 0xa530d939)
    requires W(b, 28) == 0x63d38035 && W(b, 29) == 0x090ab713 && W(b, 30) == 0x4c7539ca && W(b, 31) == 0x0f19a8c9
    ensures Rounds(v, b, 32) ==
      Vars(0xb0eab1c5, 0x02ef3a5f, 0x1cfa5eb0, 0xd958b529, 0xf6d93952, 0x5da10665, 0x6c49db9f, 0xc2fa99b1)
  {
    hide W, Rounds;
    FourSteps(v, b, 28,
      0x0d936bab, 0x9450fbbc, 0xaa6cb982, 0x4984fa79, 0x6e495d4b, 0x09166dda, 0x0b5eeea4, 0xa530d939,
      0xc6e00bf3, 0xd5a79147, 0x06ca6351, 0x14292967, 0x63d38035, 0x090ab713, 0x4c7539ca, 0x0f19a8c9,
      0xd958b529, 0x1cfa5eb0, 0x02ef3a5f, 0xb0eab1c5, 0xc2fa99b1, 0x6c49db9f, 0x5da10665, 0xf6d93952);
  }

  lemma SecondRounds32(v: Vars, b: Bytes)
    requires |b| == 64 && Rounds(v, b, 32) ==
      Vars(0xb0eab1c5, 0x02ef3a5f, 0x1cfa5eb0, 0xd958b529, 0xf6d93952, 0x5da10665, 0x6c49db9f, 0xc2fa99b1)
    requires W(b, 32) == 0x5df4b0c4 && W(b, 33) == 0xe257036a && W(b, 34) == 0xc97bb6f1 && W(b, 35) == 0xc5b46f4d
    ensures Rounds(v, b, 36) ==
      Vars(0xecde4e0d, 0x9907f1b6, 0x4bd1df96, 0x0bfba73c, 0x5dc119e6, 0x66c3043d, 0x905e44ac, 0x8b99e3a9)
  {
    hide W, Rounds;
    FourSteps(v, b, 32,
      0xb0eab1c5, 0x02ef3a5f, 0x1cfa5eb0, 0xd958b529, 0xf6d93952, 0x5da10665, 0x6c49db9f, 0xc2fa99b1,
      0x27b70a85, 0x2e1b2138, 0x4d2c6dfc, 0x53380d13, 0x5df4b0c4, 0xe257036a, 0xc97bb6f1, 0xc5b46f4d,
      0x0bfba73c, 0x4bd1df96, 0x9907f1b6, 0xecde4e0d, 0x8b99e3a9, 0x905e44ac, 0x66c3043d, 0x5dc119e6);
  }

  lemma SecondRounds36(v: Vars, b: Bytes)
    requires |b| == 64 && Rounds(v, b, 36) ==
      Vars(0xecde4e0d, 0x9907f1b6, 0x4bd1df96, 0x0bfba73c, 0x5dc119e6, 0x66c3043d, 0x905e44ac, 0x8b99e3a9)
    requires W(b, 36) == 0xf8253c4e && W(b, 37) == 0xa558d189 && W(b, 38) == 0x78696285 && W(b, 39) == 0xed07117f
    ensures Rounds(v, b, 40) ==
      Vars(0x221b8a5a, 0xadca7a96, 0xd949682b, 0x2f11c939, 0x0b82c5eb, 0xc6cce4ff, 0x32d99008, 0xfed4ce1d)
  {
    hide W, Rounds;
    FourSteps(v, b, 36,
      0xecde4e0d, 0x9907f1b6, 0x4bd1df96, 0x0bfba73c, 0x5dc119e6, 0x66c3043d, 0x905e44ac, 0x8b99e3a9,
      0x650a7354, 0x766a0abb, 0x81c2c92e, 0x92722c85, 0xf8253c4e, 0xa558d189, 0x78696285, 0xed07117f,
      0x2f11c939, 0xd949682b, 0xadca7a96, 0x221b8a5a, 0xfed4ce1d, 0x32d99008, 0xc6cce4ff, 0x0b82c5eb);
  }

  lemma SecondRounds40(v: Vars, b: Bytes)
    requires |b| == 64 && Rounds(v, b, 40) ==
      Vars(0x221b8a5a, 0xadca7a96, 0xd949682b, 0x2f11c939, 0x0b82c5eb, 0xc6cce4ff, 0x32d99008, 0xfed4ce1d)
    requires W(b, 40) == 0x107358f6 && W(b, 41) == 0x390ae496 && W(b, 42) == 0x565010a2 && W(b, 43) == 0xc51d7d44
    ensures Rounds(v, b, 44) ==
      Vars(0xf2ad6322, 0x8300fca2, 0x2c794876, 0x12d97845, 0xcc48c7f3, 0xe0e3457c, 0xff6759ba, 0xe4213ca2)
  {
    hide W, Rounds;
    FourSteps(v, b, 40,
      0x221b8a5a, 0xadca7a96, 0xd949682b, 0x2f11c939, 0x0b82c5eb, 0xc6cce4ff, 0x32d99008, 0xfed4ce1d,
      0xa2bfe8a1, 0xa81a664b, 0xc24b8b70, 0xc76c51a3, 0x107358f6, 0x390ae496, 0x565010a2, 0xc51d7d44,
      0x12d97845, 0x2c794876, 0x8300fca2, 0xf2ad6322, 0xe4213ca2, 0xff6759ba, 0xe0e3457c, 0xcc48c7f3);
  }

  lemma SecondRounds44(v: Vars, b: Bytes)
    requires |b| == 64 && Rounds(v, b, 44) ==
      Vars(0xf2ad6322, 0x8300fca2, 0x2c794876, 0x12d97845, 0xcc48c7f3, 0xe0e3457c, 0xff6759ba, 0xe4213ca2)
    requires W(b, 44) == 0x9e74c972 && W(b, 45) == 0x6614b561 && W(b, 46) == 0x30fc129d && W(b, 47) == 0x9ac684a8
    ensures Rounds(v, b, 48) ==
      Vars(0xd7354d5b, 0x0b3303a7, 0x104a7db4, 0x0f154e11, 0xaad55b6b, 0xbbe1c39a, 0x5348e8f6, 0x6f9517cb)
  {
    hide W, Rounds;
    FourSteps(v, b, 44,
      0xf2ad6322, 0x8300fca2, 0x2c794876, 0x12d97845, 0xcc48c7f3, 0xe0e3457c, 0xff6759ba, 0xe4213ca2,
      0xd192e819, 0xd6990624, 0xf40e3585, 0x106aa070, 0x9e74c972, 0x6614b561, 0x30fc129d, 0x9ac684a8,
      0x0f154e11, 0x104a7db4, 0x0b3303a7, 0xd7354d5b, 0x6f9517cb, 0x5348e8f6, 0xbbe1c39a, 0xaad55b6b);
  }

  lemma SecondRounds48(v: Vars, b: Bytes)
    requires |b| == 64 && Rounds(v, b, 48) ==
      Vars(0xd7354d5b, 0x0b3303a7, 0x104a7db4, 0x0f154e11, 0xaad55b6b, 0xbbe1c39a, 0x5348e8f6, 0x6f9517cb)
    requires W(b, 48) == 0x2b658dbd && W(b, 49) == 0xe290f793 && W(b, 50) == 0x9eebb24c && W(b, 51) == 0x9713b5de
    ensures Rounds(v, b, 52) ==
      Vars(0x1a6bcf6a, 0xd8aabcf9, 0x2748e5ec, 0xb736d7a6, 0xff5e99d0, 0x27844711, 0xd4b58576, 0x68f25260)
  {
    hide W, Rounds;
    FourSteps(v, b, 48,
      0xd7354d5b, 0x0b3303a7, 0x104a7db4, 0x0f154e11, 0xaad55b6b, 0xbbe1c39a, 0x5348e8f6, 0x6f9517cb,
      0x19a4c116, 0x1e376c08, 0x2748774c, 0x34b0bcb5, 0x2b658dbd, 0xe290f793, 0x9eebb24c, 0x9713b5de,
      0xb736d7a6, 0x2748e5ec, 0xd8aabcf9, 0x1a6bcf6a, 0x68f25260, 0xd4b58576, 0x27844711, 0xff5e99d0);
  }

  lemma SecondRounds52(v: Vars, b: Bytes)
    requires |b| == 64 && Rounds(v, b, 52) ==
      Vars(0x1a6bcf6a, 0xd8aabcf9, 0x2748e5ec, 0xb736d7a6, 0xff5e99d0, 0x27844711, 0xd4b58576, 0x68f25260)
    requires W(b, 52) == 0x41061ab7 && W(b, 53) == 0xe022e23b && W(b, 54) == 0x0772079e && W(b, 55) == 0x7de22d9c
    ensures Rounds(v, b, 56) ==
      Vars(0x92952710, 0xd9f0c115, 0xec02560a, 0x4eca6fa0, 0x226806d6, 0x624150c4, 0x7151df8e, 0x989ed071)
  {
    hide W, Rounds;
    FourSteps(v, b, 52,
      0x1a6bcf6a, 0xd8aabcf9, 0x2748e5ec, 0xb736d7a6, 0xff5e99d0, 0x27844711, 0xd4b58576, 0x68f25260,
      0x391c0cb3, 0x4ed8aa4a, 0x5b9cca4f, 0x682e6ff3, 0x41061ab7, 0xe022e23b, 0x0772079e, 0x7de22d9c,
      0x4eca6fa0, 0xec02560a, 0xd9f0c115, 0x92952710, 0x989ed071, 0x7151df8e, 0x624150c4, 0x226806d6);
  }

  lemma SecondRounds56(v: Vars, b: Bytes)
    requires |b| == 64 && Rounds(v, b, 56) ==
      Vars(0x92952710, 0xd9f0c115, 0xec02560a, 0x4eca6fa0, 0x226806d6, 0x624150c4, 0x7151df8e, 0x989ed071)
    requires W(b, 56) == 0xc8b83778 && W(b, 57) == 0x75a79849 && W(b, 58) == 0xd93dbddb && W(b, 59) == 0x0a036c9d
    ensures Rounds(v, b, 60) ==
      Vars(0x1c4cddd9, 0x286fe5f0, 0x4348eb1f, 0x20d4d0e4, 0xf487a853, 0x54076664, 0xc21eddf9, 0x4e515a4d)
  {
    hide W, Rounds;
    FourSteps(v, b, 56,
      0x92952710, 0xd9f0c115, 0xec02560a, 0x4eca6fa0, 0x226806d6, 0x624150c4, 0x7151df8e, 0x989ed071,
      0x748f82ee, 0x78a5636f, 0x84c87814, 0x8cc70208, 0xc8b83778, 0x75a79849, 0xd93dbddb, 0x0a036c9d,
      0x20d4d0e4, 0x4348eb1f, 0x286fe5f0, 0x1c4cddd9, 0x4e515a4d, 0xc21eddf9, 0x54076664, 0xf487a853);
  }

  lemma SecondRounds60(v: Vars, b: Bytes)
    requires |b| == 64 && Rounds(v, b, 60) ==
      Vars(0x1c4cddd9, 0x286fe5f0, 0x4348eb1f, 0x20d4d0e4, 0xf487a853, 0x54076664, 0xc21eddf9, 0x4e515a4d)
    requires W(b, 60) == 0xcb4f6ac6 && W(b, 61) == 0x823f97e2 && W(b, 62) == 0xea2f2a7a && W(b, 63) == 0xb9018b52
    ensures Rounds(v, b, 64) ==
      Vars(0x9ea7148b, 0x908c2123, 0xb25cef29, 0xa9f181dd, 0x2c5c4ed0, 0x9a392956, 0x2aa1bb13, 0x27ccb387)
  {
    hide W, Rounds;
    FourSteps(v, b, 60,
      0x1c4cddd9, 0x286fe5f0, 0x4348eb1f, 0x20d4d0e4, 0xf487a853, 0x54076664, 0xc21eddf9, 0x4e515a4d,
      0x90befffa, 0xa4506ceb, 0xbef9a3f7, 0xc67178f2, 0xcb4f6ac6, 0x823f97e2, 0xea2f2a7a, 0xb9018b52,
      0xa9f181dd, 0xb25cef29, 0x908c2123, 0x9ea7148b, 0x27ccb387, 0x2aa1bb13, 0x9a392956, 0x2c5c4ed0);
  }

  lemma SecondSixteen0(v: Vars, b: Bytes)
    requires |b| == 64 && Rounds(v, b, 0) ==
      Vars(0x85e655d6, 0x417a1795, 0x3363376a, 0x624cde5c, 0x76e09589, 0xcac5f811, 0xcc4b32c1, 0xf20e533a)
    requires Shows(b, 0,
      0x00000000, 0x00000000, 0x00000000, 0x00000000, 0x00000000, 0x00000000, 0x00000000, 0x00000000,
      0x00000000, 0x00000000, 0x00000000, 0x00000000, 0x00000000, 0x00000000, 0x00000000, 0x000001c0)
    ensures Rounds(v, b, 16) ==
      Vars(0x16a8cc79, 0x0cea5cbc, 0xd74080fa, 0x35ee996d, 0x0fcb1f6f, 0x60356548, 0x68aa893f, 0x5c24e2a2)
  {
    hide W, Rounds;
    SecondRounds0(v, b);
    SecondRounds4(v, b);
    SecondRounds8(v, b);
    SecondRounds12(v, b);
  }

  lemma SecondSixteen16(v: Vars, b: Bytes)
    requires |b| == 64 && Rounds(v, b, 16) ==
      Vars(0x16a8cc79, 0x0cea5cbc, 0xd74080fa, 0x35ee996d, 0x0fcb1f6f, 0x60356548, 0x68aa893f, 0x5c24e2a2)
    requires Shows(b, 16,
      0x00000000, 0x00d80000, 0x00000000, 0x00003677, 0x00000000, 0x1df5600d, 0x000001c0, 0x1c00501c,
      0x01b00000, 0x220a8d94, 0x0000a365, 0x177017e7, 0x63d38035, 0x090ab713, 0x4c7539ca, 0x0f19a8c9)
    ensures Rounds(v, b, 32) ==
      Vars(0xb0eab1c5, 0x02ef3a5f, 0x1cfa5eb0, 0xd958b529, 0xf6d93952, 0x5da10665, 0x6c49db9f, 0xc2fa99b1)
  {
    hide W, Rounds;
    SecondRounds16(v, b);
    SecondRounds20(v, b);
    SecondRounds24(v, b);
    SecondRounds28(v, b);
  }

  lemma SecondSixteen32(v: Vars, b: Bytes)
    requires |b| == 64 && Rounds(v, b, 32) ==
      Vars(0xb0eab1c5, 0x02ef3a5f, 0x1cfa5eb0, 0xd958b529, 0xf6d93952, 0x5da10665, 0x6c49db9f, 0xc2fa99b1)
    requires Shows(b, 32,
      0x5df4b0c4, 0xe257036a, 0xc97bb6f1, 0xc5b46f4d, 0xf8253c4e, 0xa558d189, 0x78696285, 0xed07117f,
      0x107358f6, 0x390ae496, 0x565010a2, 0xc51d7d44, 0x9e74c972, 0x6614b561, 0x30fc129d, 0x9ac684a8)
    ensures Rounds(v, b, 48) ==
      Vars(0xd7354d5b, 0x0b3303a7, 0x104a7db4, 0x0f154e11, 0xaad55b6b, 0xbbe1c39a, 0x5348e8f6, 0x6f9517cb)
  {
    hide W, Rounds;
    SecondRounds32(v, b);
    SecondRounds36(v, b);
    SecondRounds40(v, b);
    SecondRounds44(v, b);
  }

  lemma SecondSixteen48(v: Vars, b: Bytes)
    requires |b| == 64 && Rounds(v, b, 48) ==
      Vars(0xd7354d5b, 0x0b3303a7, 0x104a7db4, 0x0f154e11, 0xaad55b6b, 0xbbe1c39a, 0x5348e8f6, 0x6f9517cb)
    requires Shows(b, 48,
      0x2b658dbd, 0xe290f793, 0x9eebb24c, 0x9713b5de, 0x41061ab7, 0xe022e23b, 0x0772079e, 0x7de22d9c,
      0xc8b83778, 0x75a79849, 0xd93dbddb, 0x0a036c9d, 0xcb4f6ac6, 0x823f97e2, 0xea2f2a7a, 0xb9018b52)
    ensures Rounds(v, b, 64) ==
      Vars(0x9ea7148b, 0x908c2123, 0xb25cef29, 0xa9f181dd, 0x2c5c4ed0, 0x9a392956, 0x2aa1bb13, 0x27ccb387)
  {
    hide W, Rounds;
    SecondRounds48(v, b);
    SecondRounds52(v, b);
    SecondRounds56(v, b);
    SecondRounds60(v, b);
  }

  lemma SecondBlock(b: Bytes)
    requires |b| == 64
    requires Shows(b, 0,
      0x00000000, 0x00000000, 0x00000000, 0x00000000, 0x00000000, 0x00000000, 0x00000000, 0x00000000,
      0x00000000, 0x00000000, 0x00000000, 0x00000000, 0x00000000, 0x00000000, 0x00000000, 0x000001c0)
    ensures Rounds(Vars(0x85e655d6, 0x417a1795, 0x3363376a, 0x624cde5c, 0x76e09589, 0xcac5f811, 0xcc4b32c1, 0xf20e533a),
                   b, 64) ==
      Vars(0x9ea7148b, 0x908c2123, 0xb25cef29, 0xa9f181dd, 0x2c5c4ed0, 0x9a392956, 0x2aa1bb13, 0x27ccb387)
  {
    hide Shows, Rounds, W;
    var v := Vars(0x85e655d6, 0x417a1795, 0x3363376a, 0x624cde5c, 0x76e09589, 0xcac5f811, 0xcc4b32c1, 0xf20e533a);
    RoundsStart(v, b);
    SecondSchedule16(b);
    SecondSchedule32(b);
    SecondSchedule48(b);
    SecondSixteen0(v, b);
    SecondSixteen16(v, b);
    SecondSixteen32(v, b);
    SecondSixteen48(v, b);
  }
}
