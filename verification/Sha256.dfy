/**
 * SHA-256 as the daemon streams it (daemon/src/sha256.c), proved against the
 * one-shot definition of FIPS 180-4.
 */
module Sha256 {
  import opened Bytes

  type word = bv32

  // ---- FIPS 180-4 ---------------------------------------------------------

  // Section 4.2.2.
  const K_0: seq<word> := [
    0x428a2f98, 0x71374491, 0xb5c0fbcf, 0xe9b5dba5, 0x3956c25b, 0x59f111f1, 0x923f82a4, 0xab1c5ed5,
    0xd807aa98, 0x12835b01, 0x243185be, 0x550c7dc3, 0x72be5d74, 0x80deb1fe, 0x9bdc06a7, 0xc19bf174]

  const K_16: seq<word> := [
    0xe49b69c1, 0xefbe4786, 0x0fc19dc6, 0x240ca1cc, 0x2de92c6f, 0x4a7484aa, 0x5cb0a9dc, 0x76f988da,
    0x983e5152, 0xa831c66d, 0xb00327c8, 0xbf597fc7, 0xc6e00bf3, 0xd5a79147, 0x06ca6351, 0x14292967]

  const K_32: seq<word> := [
    0x27b70a85, 0x2e1b2138, 0x4d2c6dfc, 0x53380d13, 0x650a7354, 0x766a0abb, 0x81c2c92e, 0x92722c85,
    0xa2bfe8a1, 0xa81a664b, 0xc24b8b70, 0xc76c51a3, 0xd192e819, 0xd6990624, 0xf40e3585, 0x106aa070]

  const K_48: seq<word> := [
    0x19a4c116, 0x1e376c08, 0x2748774c, 0x34b0bcb5, 0x391c0cb3, 0x4ed8aa4a, 0x5b9cca4f, 0x682e6ff3,
    0x748f82ee, 0x78a5636f, 0x84c87814, 0x8cc70208, 0x90befffa, 0xa4506ceb, 0xbef9a3f7, 0xc67178f2]

  function KAt(t: nat): word
    requires t < 64
  {
    if t < 16 then K_0[t] else if t < 32 then K_16[t - 16] else if t < 48 then K_32[t - 32] else K_48[t - 48]
  }

  // Section 5.3.3.
  const IV: seq<word> := [
    0x6a09e667, 0xbb67ae85, 0x3c6ef372, 0xa54ff53a, 0x510e527f, 0x9b05688c, 0x1f83d9ab, 0x5be0cd19]

  // Section 4.1.2; the rotations and shifts of section 3.2 are written out.
  function Ch(x: word, y: word, z: word): word { (x & y) ^ (!x & z) }
  function Maj(x: word, y: word, z: word): word { ((x & y) ^ (x & z)) ^ (y & z) }
  function BigSigma0(x: word): word { (((x >> 2) | (x << 30)) ^ ((x >> 13) | (x << 19))) ^ ((x >> 22) | (x << 10)) }
  function BigSigma1(x: word): word { (((x >> 6) | (x << 26)) ^ ((x >> 11) | (x << 21))) ^ ((x >> 25) | (x << 7)) }
  function SmallSigma0(x: word): word { (((x >> 7) | (x << 25)) ^ ((x >> 18) | (x << 14))) ^ (x >> 3) }
  function SmallSigma1(x: word): word { (((x >> 17) | (x << 15)) ^ ((x >> 19) | (x << 13))) ^ (x >> 10) }

  /** Addition modulo 2^32. */
  function Add(x: word, y: word): word { x + y }
  function Add4(x: word, y: word, z: word, u: word): word { x + y + z + u }

  predicate IsBlock(m: bytes) { |m| == 64 }

  function BigEndian(a: byte, b: byte, c: byte, d: byte): word {
    ((((a as word) << 24) | ((b as word) << 16)) | ((c as word) << 8)) | (d as word)
  }

  /** The message schedule word W_t of section 6.2.2. */
  function Schedule(m: bytes, t: nat): word
    requires IsBlock(m)
  {
    if t < 16 then BigEndian(m[4 * t], m[4 * t + 1], m[4 * t + 2], m[4 * t + 3])
    else Expand(Schedule(m, t - 2), Schedule(m, t - 7), Schedule(m, t - 15), Schedule(m, t - 16))
  }

  function Expand(w2: word, w7: word, w15: word, w16: word): word {
    Add4(SmallSigma1(w2), w7, SmallSigma0(w15), w16)
  }

  datatype Vars = Vars(a: word, b: word, c: word, d: word, e: word, f: word, g: word, h: word)

  function Round(v: Vars, k: word, w: word): Vars {
    var t1 := Add(Add(Add(Add(v.h, BigSigma1(v.e)), Ch(v.e, v.f, v.g)), k), w);
    var t2 := Add(BigSigma0(v.a), Maj(v.a, v.b, v.c));
    Vars(Add(t1, t2), v.a, v.b, v.c, Add(v.d, t1), v.e, v.f, v.g)
  }

  function Rounds(v: Vars, m: bytes, t: nat): Vars
    requires IsBlock(m) && t <= 64
  {
    if t == 0 then v else Round(Rounds(v, m, t - 1), KAt(t - 1), Schedule(m, t - 1))
  }

  predicate IsState(h: seq<word>) { |h| == 8 }

  function VarsOf(h: seq<word>): Vars
    requires IsState(h)
  {
    Vars(h[0], h[1], h[2], h[3], h[4], h[5], h[6], h[7])
  }

  /** One step of the hash computation of section 6.2.2. */
  function Compress(h: seq<word>, m: bytes): seq<word>
    requires IsState(h) && IsBlock(m)
  {
    var v := Rounds(VarsOf(h), m, 64);
    [Add(h[0], v.a), Add(h[1], v.b), Add(h[2], v.c), Add(h[3], v.d),
     Add(h[4], v.e), Add(h[5], v.f), Add(h[6], v.g), Add(h[7], v.h)]
  }

  /** The hash value after all the blocks of m, from the left. */
  function HashBlocks(m: bytes): (h: seq<word>)
    requires |m| % 64 == 0
    ensures IsState(h)
  {
    if m == [] then IV else Compress(HashBlocks(m[..|m| - 64]), m[|m| - 64..])
  }

  function Zeros(n: nat): bytes { seq(n, _ => 0) }

  function BigEndian64(x: nat): bytes { seq(8, i requires 0 <= i < 8 => ByteOf(x, 7 - i)) }

  /** How many zero bytes follow the 0x80 byte of the padding. */
  function ZeroBytes(n: nat): nat { (119 - n % 64) % 64 }

  /** Section 5.1.1, for messages of whole bytes. */
  function Padded(m: bytes): (p: bytes)
    ensures |p| % 64 == 0
  {
    m + [0x80] + Zeros(ZeroBytes(|m|)) + BigEndian64(8 * |m|)
  }

  /** Byte j of a word, most significant first. */
  function ByteOfWord(x: word, j: nat): byte
    requires j < 4
  {
    var y := if j == 0 then x >> 24 else if j == 1 then x >> 16 else if j == 2 then x >> 8 else x;
    ((y & 0xff) as bv8) as byte
  }

  function DigestBytes(h: seq<word>): bytes
    requires IsState(h)
  {
    seq(32, i requires 0 <= i < 32 => ByteOfWord(h[i / 4], i % 4))
  }

  /** The one-shot hash of a message. */
  function Digest(m: bytes): bytes { DigestBytes(HashBlocks(Padded(m))) }

  /**
   * The zero bits appended (seven from the 0x80 byte, then whole bytes) are the
   * smallest non-negative solution of l + 1 + k = 448 mod 512.
   */
  lemma PaddingIsMinimal(n: nat, k: nat)
    requires (8 * n + 1 + k) % 512 == 448
    ensures (8 * n + 1 + (7 + 8 * ZeroBytes(n))) % 512 == 448
    ensures 7 + 8 * ZeroBytes(n) <= k
  {
    var (q, r) := (n / 64, n % 64);
    var b := (8 * n + 1 + k) / 512;
    ZeroBytesAre(r, n);
    Congruent(8 * n + 1 + (7 + 8 * ZeroBytes(n)), if r <= 55 then q else q + 1);
    Smallest(q, r, b, k);
  }

  lemma ZeroBytesAre(r: nat, n: nat)
    requires r == n % 64
    ensures ZeroBytes(n) == if r <= 55 then 55 - r else 119 - r
  {
  }

  lemma Congruent(x: nat, q: nat)
    requires x == 512 * q + 448
    ensures x % 512 == 448
  {
  }

  lemma Smallest(q: nat, r: nat, b: nat, k: nat)
    requires r < 64 && 8 * (64 * q + r) + 1 + k == 512 * b + 448
    ensures 7 + 8 * (if r <= 55 then 55 - r else 119 - r) <= k
  {
    assert b >= q;
    assert r > 55 ==> b >= q + 1;
  }

  lemma HashAppendBlock(m: bytes, p: bytes)
    requires |m| % 64 == 0 && IsBlock(p)
    ensures |m + p| % 64 == 0 && HashBlocks(m + p) == Compress(HashBlocks(m), p)
  {
    assert (m + p)[..|m + p| - 64] == m && (m + p)[|m + p| - 64..] == p;
  }

  // One unfolding each, so that the proofs below need not look further.

  lemma ScheduleStep(m: bytes, t: nat)
    requires IsBlock(m) && t >= 16
    ensures Schedule(m, t)
         == Expand(Schedule(m, t - 2), Schedule(m, t - 7), Schedule(m, t - 15), Schedule(m, t - 16))
  {
    hide Expand, BigEndian;
  }

  lemma ScheduleStart(m: bytes, t: nat)
    requires IsBlock(m) && t < 16
    ensures Schedule(m, t) == BigEndian(m[4 * t], m[4 * t + 1], m[4 * t + 2], m[4 * t + 3])
  {
    hide Expand, BigEndian;
  }

  lemma RoundsStep(v: Vars, m: bytes, t: nat)
    requires IsBlock(m) && t < 64
    ensures Rounds(v, m, t + 1) == Round(Rounds(v, m, t), KAt(t), Schedule(m, t))
  {
    hide KAt, Round, Schedule;
  }

  lemma RoundsStart(v: Vars, m: bytes)
    requires IsBlock(m)
    ensures Rounds(v, m, 0) == v
  {
  }

  // ---- the streaming implementation -----------------------------------------

  /** The order in which the four terms are added does not matter. */
  lemma Add4Reversed(x: word, y: word, z: word, u: word)
    ensures Add4(x, y, z, u) == Add4(u, z, y, x)
  {
  }

  method ExpandSchedule(p: bytes) returns (w: array<word>)
    requires IsBlock(p)
    ensures w.Length == 64 && forall k :: 0 <= k < 64 ==> w[k] == Schedule(p, k)
  {
    hide Schedule, BigEndian, Add4, SmallSigma0, SmallSigma1;
    w := new word[64](_ => 0);
    for i := 0 to 16
      invariant forall k :: 0 <= k < i ==> w[k] == Schedule(p, k)
    {
      ScheduleStart(p, i);
      w[i] := BigEndian(p[4 * i], p[4 * i + 1], p[4 * i + 2], p[4 * i + 3]);
    }
    for i := 16 to 64
      invariant forall k :: 0 <= k < i ==> w[k] == Schedule(p, k)
    {
      ScheduleStep(p, i);
      var s0 := SmallSigma0(w[i - 15]);
      var s1 := SmallSigma1(w[i - 2]);
      Add4Reversed(w[i - 16], s0, w[i - 7], s1);
      w[i] := Add4(w[i - 16], s0, w[i - 7], s1);
    }
  }

  /** The 64 rounds over the working variables, from a state and a filled schedule. */
  method CompressRounds(s: seq<word>, ghost p: bytes, w: seq<word>) returns (r: Vars)
    requires IsState(s) && IsBlock(p)
    requires |w| == 64 && forall k :: 0 <= k < 64 ==> w[k] == Schedule(p, k)
    ensures r == Rounds(VarsOf(s), p, 64)
  {
    hide KAt, Schedule, Rounds, Add, BigSigma0, BigSigma1, Ch, Maj;
    var a, b, c, d := s[0], s[1], s[2], s[3];
    var e, f, g, h := s[4], s[5], s[6], s[7];
    RoundsStart(VarsOf(s), p);
    for i := 0 to 64
      invariant Vars(a, b, c, d, e, f, g, h) == Rounds(VarsOf(s), p, i)
    {
      RoundsStep(VarsOf(s), p, i);
      var t1 := Add(Add(Add(Add(h, BigSigma1(e)), Ch(e, f, g)), KAt(i)), w[i]);
      var t2 := Add(BigSigma0(a), Maj(a, b, c));
      h := g; g := f; f := e; e := Add(d, t1);
      d := c; c := b; b := a; a := Add(t1, t2);
    }
    r := Vars(a, b, c, d, e, f, g, h);
  }

  lemma FillIsRemainder(n: nat, fill: nat)
    requires fill < 64 && fill <= n && (n - fill) % 64 == 0
    ensures fill == n % 64
  {
  }

  lemma MoreZeros(z: nat)
    ensures |Zeros(z)| == z && Zeros(z + 1) == Zeros(z) + [0] && Zeros(0) == []
  {
  }

  lemma ZeroBytesFill(n: nat, z: nat)
    requires z <= ZeroBytes(n)
    ensures (n + 1 + z) % 64 == 56 <==> z == ZeroBytes(n)
  {
  }

  /**
   * A chaining value hs and the first `fill` bytes of a block stand for the
   * message m: hs covers its whole blocks, the block holds the rest.
   */
  ghost predicate Stands(m: bytes, hs: seq<word>, block: bytes, fill: nat) {
    && IsState(hs) && IsBlock(block)
    && fill < 64 && fill <= |m| && (|m| - fill) % 64 == 0
    && hs == HashBlocks(m[..|m| - fill])
    && block[..fill] == m[|m| - fill..]
  }

  /** block with p written over it from position at. */
  function Overwrite(block: bytes, at: nat, p: bytes): (b: bytes)
    requires at + |p| <= |block|
    ensures |b| == |block|
  {
    block[..at] + p + block[at + |p|..]
  }

  /** Bytes that do not complete a block just wait in it. */
  lemma StandsPartial(m: bytes, hs: seq<word>, block: bytes, fill: nat, p: bytes)
    requires Stands(m, hs, block, fill) && fill + |p| < 64
    ensures Stands(m + p, hs, Overwrite(block, fill, p), fill + |p|)
  {
    hide HashBlocks;
    assert (m + p)[..|m + p| - (fill + |p|)] == m[..|m| - fill];
  }

  /** Bytes that complete it are compressed with what was waiting. */
  lemma StandsFull(m: bytes, hs: seq<word>, block: bytes, fill: nat, p: bytes)
    requires Stands(m, hs, block, fill) && fill + |p| == 64
    ensures Stands(m + p, Compress(hs, Overwrite(block, fill, p)), Overwrite(block, fill, p), 0)
  {
    hide HashBlocks, Compress;
    var done, whole := m[..|m| - fill], Overwrite(block, fill, p);
    assert m + p == done + whole;
    HashAppendBlock(done, whole);
    assert (m + p)[..|m + p| - 0] == m + p;
  }

  /** A whole block of input is compressed without being copied. */
  lemma StandsBlock(m: bytes, hs: seq<word>, block: bytes, p: bytes)
    requires Stands(m, hs, block, 0) && IsBlock(p)
    ensures Stands(m + p, Compress(hs, p), block, 0)
  {
    hide HashBlocks, Compress;
    assert m[..|m| - 0] == m && (m + p)[..|m + p| - 0] == m + p;
    HashAppendBlock(m, p);
  }

  lemma Cut(m: bytes, p: bytes, take: nat)
    requires take <= |p|
    ensures m + p == (m + p[..take]) + p[take..]
  {
    assert p == p[..take] + p[take..];
  }

  const TWO64: nat := 0x1_0000_0000_0000_0000

  class Hasher {
    const h: array<word>
    var total: nat // a uint64_t
    const block: array<byte>
    var fill: nat
    ghost var message: bytes // everything fed so far

    ghost predicate Valid()
      reads this, h, block
    {
      && h as object != block as object
      && total == |message| % TWO64
      && Stands(message, h[..], block[..], fill)
    }

    constructor ()
      ensures Valid() && message == [] && fresh(h) && fresh(block)
    {
      h := new word[8](i requires 0 <= i < 8 => IV[i]);
      block := new byte[64](_ => 0);
      total, fill := 0, 0;
      message := [];
      new;
      assert h[..] == IV;
    }

    /** Fold one 64-byte block, from `block` or straight from the input, into h. */
    method CompressBlock(p: bytes)
      requires h.Length == 8 && IsBlock(p)
      modifies h
      ensures h[..] == Compress(old(h[..]), p)
    {
      hide Schedule, Rounds, Add;
      var w := ExpandSchedule(p);
      var r := CompressRounds(h[..], p, w[..]);
      h[0], h[1], h[2], h[3], h[4], h[5], h[6], h[7] :=
        Add(h[0], r.a), Add(h[1], r.b), Add(h[2], r.c), Add(h[3], r.d),
        Add(h[4], r.e), Add(h[5], r.f), Add(h[6], r.g), Add(h[7], r.h);
      assert h[..] == Compress(old(h[..]), p);
    }

    /** memcpy into the block. */
    method Copy(at: nat, p: bytes)
      requires at + |p| <= block.Length
      modifies block
      ensures block[..] == Overwrite(old(block[..]), at, p)
    {
      forall i | 0 <= i < |p| { block[at + i] := p[i]; }
    }

    method Update(data: bytes)
      requires Valid()
      modifies this, h, block
      ensures Valid() && message == old(message) + data
    {
      hide Overwrite, Compress, HashBlocks;
      total := (total + |data|) % TWO64;
      ghost var m := message; // what the state stands for so far
      message := message + data;
      assert total == |message| % TWO64;
      var p, n := data, |data|;
      if fill != 0 {
        var take := if 64 - fill < n then 64 - fill else n;
        ghost var was, state := block[..], h[..];
        Copy(fill, p[..take]);
        assert h[..] == state;
        m := m + p[..take];
        Cut(old(message), p, take);
        if fill + take < 64 {
          StandsPartial(old(message), state, was, fill, p[..take]);
          fill := fill + take;
          assert p[..take] == data;
          return;
        }
        StandsFull(old(message), state, was, fill, p[..take]);
        CompressBlock(block[..]);
        fill := 0;
        p, n := p[take..], n - take;
      }
      while n >= 64
        invariant message == old(message) + data && total == |message| % TWO64
        invariant n == |p| && message == m + p
        invariant fill == 0 && Stands(m, h[..], block[..], 0)
      {
        ghost var was := block[..];
        StandsBlock(m, h[..], was, p[..64]);
        CompressBlock(p[..64]);
        assert block[..] == was;
        Cut(m, p, 64);
        m := m + p[..64];
        p, n := p[64..], n - 64;
      }
      ghost var was, state := block[..], h[..];
      Copy(0, p);
      assert h[..] == state;
      StandsPartial(m, state, was, 0, p);
      fill := n;
    }

    /** The 0x80 byte and the zero bytes; the loop stops after exactly ZeroBytes rounds. */
    method Pad()
      requires Valid()
      modifies this, h, block
      ensures Valid() && message == old(message) + [0x80] + Zeros(ZeroBytes(|old(message)|))
    {
      hide HashBlocks, Hasher.Valid, ZeroBytes, Zeros;
      ghost var n := |message|;
      Update([0x80]);
      ghost var m := message;
      ghost var z := 0;
      MoreZeros(z);
      ZeroBytesFill(n, z);
      FillIs();
      while fill != 56
        invariant Valid() && z <= ZeroBytes(n) && message == m + Zeros(z)
        invariant fill == 56 <==> z == ZeroBytes(n)
        decreases ZeroBytes(n) - z
      {
        Update([0]);
        MoreZeros(z);
        z := z + 1;
        ZeroBytesFill(n, z);
        FillIs();
      }
    }

    lemma FillIs()
      requires Valid()
      ensures fill == |message| % 64
    {
      hide HashBlocks;
      FillIsRemainder(|message|, fill);
    }

    method Final() returns (out: array<byte>)
      requires Valid() && |message| < 0x2000_0000_0000_0000
      modifies this, h, block
      ensures fresh(out) && out[..] == Digest(old(message))
    {
      hide HashBlocks, DigestBytes, BigEndian64, Zeros;
      var bits := (total * 8) % TWO64;
      ghost var m := message;
      assert bits == 8 * |m|;
      Pad();
      var len := LengthBytes(bits);
      Update(len[..]);
      assert message == Padded(m);
      assert fill == 0 by { FillIsRemainder(|message|, fill); }
      assert message[..|message| - 0] == message;
      out := Output(h[..]);
    }
  }

  method Output(h: seq<word>) returns (out: array<byte>)
    requires IsState(h)
    ensures fresh(out) && out[..] == DigestBytes(h)
  {
    hide ByteOfWord;
    out := new byte[32](_ => 0);
    for i := 0 to 8
      invariant forall k :: 0 <= k < 4 * i ==> out[k] == ByteOfWord(h[k / 4], k % 4)
    {
      out[4 * i] := ByteOfWord(h[i], 0);
      out[4 * i + 1] := ByteOfWord(h[i], 1);
      out[4 * i + 2] := ByteOfWord(h[i], 2);
      out[4 * i + 3] := ByteOfWord(h[i], 3);
    }
  }

  method LengthBytes(bits: nat) returns (len: array<byte>)
    ensures fresh(len) && len[..] == BigEndian64(bits)
  {
    hide ShiftBytes;
    len := new byte[8](_ => 0);
    for i := 0 to 8
      invariant forall k :: 0 <= k < i ==> len[k] == ByteOf(bits, 7 - k)
    {
      len[i] := ShiftBytes(bits, 7 - i) % 256;
    }
  }

  /** However a message is cut into updates, the digest is that of the whole. */
  method HashPieces(pieces: seq<bytes>) returns (out: array<byte>)
    requires |Concat(pieces)| < 0x2000_0000_0000_0000
    ensures out[..] == Digest(Concat(pieces))
  {
    hide *;
    var s := new Hasher();
    assert Concat(pieces[..0]) == [] by { ConcatNone<byte>(); assert pieces[..0] == []; }
    for i := 0 to |pieces|
      invariant s.Valid() && fresh(s) && fresh(s.h) && fresh(s.block)
      invariant s.message == Concat(pieces[..i])
    {
      s.Update(pieces[i]);
      assert pieces[..i + 1] == pieces[..i] + [pieces[i]];
      ConcatAppend(pieces[..i], pieces[i]);
    }
    assert pieces[..|pieces|] == pieces;
    out := s.Final();
  }
}
