/** The streaming SHA-256 of scripts/ci/literal-pid-reuse-helper.c, in place on its buffer. */
module Sha256Streaming {
  import opened Sha256Spec

  /** The round loop of `sha256_transform`, on the eight working variables. */
  method RunRounds(v: Vars, b: Bytes, w: array<bv32>) returns (r: Vars)
    requires |b| == 64 && w.Length == 64 && forall j | 0 <= j < 64 :: w[j] == W(b, j)
    ensures r == Rounds(v, b, 64)
  {
    hide W, BigSigma0, BigSigma1, Ch, Maj, Add;
    r := v;
    for i := 0 to 64
      invariant r == Rounds(v, b, i)
    {
      var s1, ch := BigSigma1(r.e), Ch(r.e, r.f, r.g);
      var t1 := Add(Add(Add(Add(r.h, s1), ch), K[i]), w[i]);
      var s0, maj := BigSigma0(r.a), Maj(r.a, r.b, r.c);
      var t2 := Add(s0, maj);
      r := Vars(Add(t1, t2), r.a, r.b, r.c, Add(r.d, t1), r.e, r.f, r.g);
    }
  }

  /** The message schedule loops of `sha256_transform`. */
  method FillSchedule(b: Bytes) returns (w: array<bv32>)
    requires |b| == 64
    ensures fresh(w) && w.Length == 64 && forall j | 0 <= j < 64 :: w[j] == W(b, j)
  {
    hide SmallSigma0, SmallSigma1, Word, Sum4;
    w := new bv32[64];
    for i := 0 to 16
      invariant forall j | 0 <= j < i :: w[j] == W(b, j)
    {
      w[i] := Word(b[i * 4], b[i * 4 + 1], b[i * 4 + 2], b[i * 4 + 3]);
    }
    for i := 16 to 64
      invariant forall j | 0 <= j < i :: w[j] == W(b, j)
    {
      var x, y := w[i - 15], w[i - 2];
      var s0, s1 := SmallSigma0(x), SmallSigma1(y);
      SumOrder(w[i - 16], s0, w[i - 7], s1);
      w[i] := Sum4(w[i - 16], s0, w[i - 7], s1);
    }
  }

  /** The whole blocks of the message `m` are hashed to `hash` and the rest is in the buffer. */
  ghost predicate Streams(m: Bytes, used: nat, hash: seq<bv32>, buffer: Bytes)
    ensures Streams(m, used, hash, buffer) ==> used < 64 && used <= |m|
  {
    && |buffer| == 64 && used < 64 && used <= |m| && (|m| - used) % 64 == 0
    && hash == HashBlocks(m[..|m| - used])
    && buffer[..used] == m[|m| - used..]
  }

  function Filled(buffer: Bytes, used: nat, data: Bytes): (r: Bytes)
    requires used + |data| <= |buffer|
    ensures |r| == |buffer|
  {
    buffer[..used] + data + buffer[used + |data|..]
  }

  lemma StreamsShort(m: Bytes, used: nat, hash: seq<bv32>, buffer: Bytes, data: Bytes)
    requires Streams(m, used, hash, buffer) && used + |data| < 64
    ensures Streams(m + data, used + |data|, hash, Filled(buffer, used, data))
  {
    hide HashBlocks;
    var m', whole := m + data, |m| - used;
    assert m'[..whole] == m[..whole];
    assert m'[whole..] == m[whole..] + data;
    assert Filled(buffer, used, data)[..used + |data|] == buffer[..used] + data;
  }

  lemma StreamsFull(m: Bytes, used: nat, hash: seq<bv32>, buffer: Bytes, data: Bytes)
    requires Streams(m, used, hash, buffer) && used + |data| == 64
    ensures |hash| == 8 && Streams(m + data, 0, Compress(hash, Filled(buffer, used, data)), Filled(buffer, used, data))
  {
    hide HashBlocks, Compress;
    var m', whole := m + data, |m| - used;
    assert |m'| == whole + 64 && |m'| % 64 == 0;
    assert m'[..whole] == m[..whole];
    assert m'[whole..] == m[whole..] + data;
    assert Filled(buffer, used, data) == buffer[..used] + data;
    NextBlock(m');
    assert m'[..|m'|] == m';
  }

  class Sha256State {
    var h: array<bv32>
    var bits: nat
    var block: array<bv8>
    var used: nat
    /** Every byte given to `Update` since the state was made. */
    ghost var message: Bytes

    ghost predicate Buffered()
      reads this, h, block
    {
      h.Length == 8 && block.Length == 64 && Streams(message, used, h[..], block[..])
    }

    ghost predicate Valid()
      reads this, h, block
    {
      Buffered() && bits == 8 * |message| % TWO64
    }

    constructor ()
      ensures Valid() && fresh(h) && fresh(block) && message == []
    {
      h := new bv32[8](i requires 0 <= i < 8 => INITIAL[i]);
      block := new bv8[64](_ => 0);
      bits, used, message := 0, 0, [];
      new;
      assert h[..] == INITIAL;
    }

    method Transform()
      requires h.Length == 8 && block.Length == 64
      modifies h
      ensures h[..] == Compress(old(h[..]), block[..])
    {
      hide Rounds, W, Add;
      var b := block[..];
      var w := FillSchedule(b);
      var v := Vars(h[0], h[1], h[2], h[3], h[4], h[5], h[6], h[7]);
      var r := RunRounds(v, b, w);
      h[0] := Add(h[0], r.a);
      h[1] := Add(h[1], r.b);
      h[2] := Add(h[2], r.c);
      h[3] := Add(h[3], r.d);
      h[4] := Add(h[4], r.e);
      h[5] := Add(h[5], r.f);
      h[6] := Add(h[6], r.g);
      h[7] := Add(h[7], r.h);
    }

    /** One turn of the update loop: fill the buffer, and transform it when it is full. */
    method Absorb(data: Bytes)
      requires Buffered() && 0 < |data| <= 64 - used
      modifies this`used, this`message, h, block
      ensures Buffered() && message == old(message) + data
      ensures used == (old(used) + |data|) % 64
    {
      hide Compress, Streams;
      var start := used;
      forall i | 0 <= i < |data| { block[start + i] := data[i]; }
      assert block[..] == Filled(old(block[..]), start, data);
      assert h[..] == old(h[..]);
      used := used + |data|;
      message := message + data;
      if used == 64 {
        StreamsFull(old(message), start, h[..], old(block[..]), data);
        Transform();
        used := 0;
      } else {
        StreamsShort(old(message), start, h[..], old(block[..]), data);
      }
    }

    method Update(data: Bytes)
      requires Valid()
      modifies this`used, this`message, this`bits, h, block
      ensures Valid() && message == old(message) + data
    {
      hide Streams;
      bits := (bits + |data| * 8) % TWO64;
      var p := 0;
      while p < |data|
        invariant 0 <= p <= |data|
        invariant h == old(h) && block == old(block) && bits == (old(bits) + |data| * 8) % TWO64
        invariant Buffered() && message == old(message) + data[..p]
      {
        var take := 64 - used;
        if take > |data| - p { take := |data| - p; }
        Absorb(data[p..p + take]);
        assert data[..p] + data[p..p + take] == data[..p + take];
        p := p + take;
      }
      assert data[..p] == data;
      LengthMod(|old(message)|, |data|);
    }

    /** The eight bytes of the length, filled from the last. */
    static method LengthBytes(bits: nat) returns (length: Bytes)
      requires bits < TWO64
      ensures length == BigEndian64(bits)
    {
      hide ByteAt;
      var a := new bv8[8](_ => 0);
      for i := 0 to 8
        invariant forall j | 8 - i <= j < 8 :: a[j] == BigEndian64(bits)[j]
      {
        a[7 - i] := ByteAt(bits, i);
      }
      length := a[..];
    }

    /** The digest loop of `sha256_final`. */
    method Digest() returns (digest: Bytes)
      requires h.Length == 8
      ensures digest == DigestBytes(h[..])
    {
      hide WordBytes;
      digest := [];
      for i := 0 to 8
        invariant digest + DigestBytes(h[i..]) == DigestBytes(h[..])
      {
        digest := digest + WordBytes(h[i]);
        assert h[i..][0] == h[i] && h[i..][1..] == h[i + 1..];
      }
    }

    method Final() returns (digest: Bytes)
      requires Valid()
      modifies this`used, this`message, this`bits, h, block
      ensures |old(message)| < 0x2000_0000_0000_0000 ==> digest == Sha256(old(message))
      ensures |digest| == 32
    {
      hide Streams, BigEndian64, HashBlocks, DigestBytes, Aligned;
      var bits := this.bits;
      ghost var m, n := message, |message|;
      Update([0x80]);
      ghost var k := 0;
      assert m + [0x80] == m + [0x80] + Zeros(0);
      while used != 56
        invariant Valid() && h == old(h) && block == old(block)
        invariant message == m + [0x80] + Zeros(k) && k <= ZeroCount(n)
        decreases ZeroCount(n) - k
      {
        UsedIs(message, used, h[..], block[..], n, k);
        Update([0]);
        ZeroNext(k);
        assert m + [0x80] + Zeros(k) + [0] == m + [0x80] + (Zeros(k) + [0]);
        k := k + 1;
      }
      UsedIs(message, used, h[..], block[..], n, k);
      assert k == ZeroCount(n);
      var length := LengthBytes(bits);
      Update(length);
      Finished(this.message, used, h[..], block[..], m);
      digest := Digest();
    }
  }

  function Concat(chunks: seq<Bytes>): Bytes {
    if chunks == [] then [] else Concat(chunks[..|chunks| - 1]) + chunks[|chunks| - 1]
  }

  /** However a message is split into updates, the digest is that of the whole message. */
  method HashChunks(chunks: seq<Bytes>) returns (digest: Bytes)
    requires |Concat(chunks)| < 0x2000_0000_0000_0000
    ensures digest == Sha256(Concat(chunks))
  {
    hide Sha256, Streams;
    var s := new Sha256State();
    for i := 0 to |chunks|
      invariant s.Valid() && fresh(s) && fresh(s.h) && fresh(s.block) && s.message == Concat(chunks[..i])
    {
      s.Update(chunks[i]);
      assert chunks[..i + 1][..i] == chunks[..i];
    }
    assert chunks[..|chunks|] == chunks;
    digest := s.Final();
  }

  /** After the padding every block is hashed. */
  lemma Finished(p: Bytes, used: nat, hash: seq<bv32>, buffer: Bytes, m: Bytes)
    requires Streams(p, used, hash, buffer)
    requires p == m + [0x80] + Zeros(ZeroCount(|m|)) + BigEndian64(8 * |m| % TWO64)
    ensures |m| < 0x2000_0000_0000_0000 ==> hash == HashBlocks(Pad(m))
  {
    hide HashBlocks, BigEndian64;
    PaddedLength(|m|);
    assert |p| % 64 == 0;
    assert used == 0;
    assert p[..|p|] == p;
  }

  lemma ZeroNext(k: nat)
    ensures Zeros(k) + [0] == Zeros(k + 1)
  {
  }

  /** After the byte 0x80 and `k` zero bytes the buffer holds 56 bytes exactly when that aligns. */
  lemma UsedIs(m: Bytes, used: nat, hash: seq<bv32>, buffer: Bytes, n: nat, k: nat)
    requires Streams(m, used, hash, buffer) && |m| == n + 1 + k
    ensures used == 56 <==> Aligned(n, k)
    ensures k <= ZeroCount(n) && used != 56 ==> k + 1 <= ZeroCount(n)
  {
    hide HashBlocks;
    assert |m| % 64 == used;
  }

  lemma NextBlock(m: Bytes)
    requires |m| >= 64 && |m| % 64 == 0
    ensures (|m| - 64) % 64 == 0
    ensures HashBlocks(m) == Compress(HashBlocks(m[..|m| - 64]), m[|m| - 64..])
  {
  }

  lemma LengthMod(n: nat, k: nat)
    ensures (8 * n % TWO64 + k * 8) % TWO64 == 8 * (n + k) % TWO64
  {
  }
}
