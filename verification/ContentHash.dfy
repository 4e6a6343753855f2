/**
 * Clip identity (daemon/src/db.c, dbi_content_hash): every (mime, bytes) pair,
 * in mime order, written as length-prefixed records into one SHA-256.
 */
module ContentHash {
  import opened Bytes
  import Order
  import Sha256

  /** One offered format; a mime is a C string, so it has no NUL. */
  datatype Format = Format(mime: bytes, data: bytes)

  predicate Offered(fs: seq<Format>) {
    && (forall f :: f in fs ==> 0 !in f.mime && |f.data| < Sha256.TWO64)
    && (forall i, j :: 0 <= i < j < |fs| ==> fs[i].mime != fs[j].mime)
  }

  /** strcmp(x, y) < 0. */
  predicate Before(x: bytes, y: bytes) {
    if y == [] then false
    else if x == [] then true
    else x[0] < y[0] || (x[0] == y[0] && Before(x[1..], y[1..]))
  }

  lemma {:induction false} BeforeIsTotal(x: bytes, y: bytes)
    ensures x == y <==> !Before(x, y) && !Before(y, x)
    ensures !(Before(x, y) && Before(y, x))
  {
    if x != [] && y != [] {
      BeforeIsTotal(x[1..], y[1..]);
      assert x == [x[0]] + x[1..] && y == [y[0]] + y[1..];
    }
  }

  lemma {:induction false} BeforeIsTransitive(x: bytes, y: bytes, z: bytes)
    requires Before(x, y) && Before(y, z)
    ensures Before(x, z)
  {
    if x != [] && x[0] == y[0] && y[0] == z[0] { BeforeIsTransitive(x[1..], y[1..], z[1..]); }
  }

  predicate InOrder(fs: seq<Format>) {
    forall i, j :: 0 <= i < j < |fs| ==> Before(fs[i].mime, fs[j].mime)
  }

  /** What qsort leaves in the index array: a permutation that puts the mimes in order. */
  ghost predicate Qsorted(fs: seq<Format>, idx: seq<nat>) {
    && |idx| == |fs|
    && (forall k :: 0 <= k < |idx| ==> idx[k] < |fs|)
    && (forall i, j :: 0 <= i < j < |idx| ==> idx[i] != idx[j])
    && (forall i, j :: 0 <= i < j < |idx| ==> !Before(fs[idx[j]].mime, fs[idx[i]].mime))
  }

  function Arrange(fs: seq<Format>, idx: seq<nat>): (r: seq<Format>)
    requires forall k :: 0 <= k < |idx| ==> idx[k] < |fs|
    ensures |r| == |idx|
  {
    seq(|idx|, k requires 0 <= k < |idx| => fs[idx[k]])
  }

  function LittleEndian64(x: nat): bytes { seq(8, i requires 0 <= i < 8 => ByteOf(x, i)) }

  function Record(f: Format): bytes {
    f.mime + [0] + LittleEndian64(|f.data|) + f.data
  }

  function Serialised(fs: seq<Format>): bytes {
    if fs == [] then [] else Record(fs[0]) + Serialised(fs[1..])
  }

  // ---- unique decoding -------------------------------------------------------

  lemma {:induction false} NulEndsMime(x: bytes, a: bytes, y: bytes, b: bytes)
    requires 0 !in x && 0 !in y && x + [0] + a == y + [0] + b
    ensures x == y && a == b
  {
    var s, t := x + [0] + a, y + [0] + b;
    assert s[0] == t[0] && s[1..] == t[1..];
    if x != [] && y != [] {
      assert s[1..] == x[1..] + [0] + a && t[1..] == y[1..] + [0] + b;
      NulEndsMime(x[1..], a, y[1..], b);
      assert x == [x[0]] + x[1..] && y == [y[0]] + y[1..];
    } else {
      assert x == y == [] && s[1..] == a && t[1..] == b;
    }
  }

  lemma {:induction false} ShiftedIsEqual(x: nat, y: nat, k: nat, n: nat)
    requires k <= n && forall i :: k <= i < n ==> ByteOf(x, i) == ByteOf(y, i)
    requires ShiftBytes(x, n) == ShiftBytes(y, n)
    ensures ShiftBytes(x, k) == ShiftBytes(y, k)
    decreases n - k
  {
    if k < n {
      ShiftedIsEqual(x, y, k + 1, n);
      ShiftOne(x, k);
      ShiftOne(y, k);
      assert ByteOf(x, k) == ByteOf(y, k);
    }
  }

  lemma {:induction false} ShiftOne(x: nat, k: nat)
    ensures ShiftBytes(x, k + 1) == ShiftBytes(x, k) / 256
  {
    if k > 0 { ShiftOne(x / 256, k - 1); }
  }

  lemma {:induction false} LengthIsRecovered(x: nat, y: nat)
    requires x < Sha256.TWO64 && y < Sha256.TWO64 && LittleEndian64(x) == LittleEndian64(y)
    ensures x == y
  {
    forall i | 0 <= i < 8 ensures ByteOf(x, i) == ByteOf(y, i) {
      assert LittleEndian64(x)[i] == ByteOf(x, i) && LittleEndian64(y)[i] == ByteOf(y, i);
    }
    ShiftedToNothing(x);
    ShiftedToNothing(y);
    ShiftedIsEqual(x, y, 0, 8);
  }

  lemma ShiftedToNothing(x: nat)
    requires x < Sha256.TWO64
    ensures ShiftBytes(x, 8) == 0
  {
    ShiftOne(x, 0); ShiftOne(x, 1); ShiftOne(x, 2); ShiftOne(x, 3);
    ShiftOne(x, 4); ShiftOne(x, 5); ShiftOne(x, 6); ShiftOne(x, 7);
  }

  lemma RecordIsRecovered(f: Format, a: bytes, g: Format, b: bytes)
    requires 0 !in f.mime && 0 !in g.mime && |f.data| < Sha256.TWO64 && |g.data| < Sha256.TWO64
    requires Record(f) + a == Record(g) + b
    ensures f == g && a == b
  {
    hide LittleEndian64;
    var lf, lg := LittleEndian64(|f.data|), LittleEndian64(|g.data|);
    var tf, tg := lf + f.data + a, lg + g.data + b;
    assert Record(f) + a == f.mime + [0] + tf && Record(g) + b == g.mime + [0] + tg;
    NulEndsMime(f.mime, tf, g.mime, tg);
    LengthOf(|f.data|);
    LengthOf(|g.data|);
    assert lf == tf[..8] && lg == tg[..8];
    LengthIsRecovered(|f.data|, |g.data|);
    var n := |f.data|;
    assert f.data == tf[8..8 + n] && g.data == tg[8..8 + n] && a == tf[8 + n..] && b == tg[8 + n..];
  }

  lemma LengthOf(x: nat)
    ensures |LittleEndian64(x)| == 8
  {
  }

  lemma SerialisedEmpty(fs: seq<Format>)
    ensures Serialised(fs) == [] <==> fs == []
  {
  }

  lemma {:induction false} SerialisedIsInjective(fs: seq<Format>, gs: seq<Format>)
    requires forall f :: f in fs || f in gs ==> 0 !in f.mime && |f.data| < Sha256.TWO64
    requires Serialised(fs) == Serialised(gs)
    ensures fs == gs
  {
    SerialisedEmpty(fs);
    SerialisedEmpty(gs);
    if fs != [] && gs != [] {
      RecordIsRecovered(fs[0], Serialised(fs[1..]), gs[0], Serialised(gs[1..]));
      SerialisedIsInjective(fs[1..], gs[1..]);
      assert fs == [fs[0]] + fs[1..] && gs == [gs[0]] + gs[1..];
    }
  }

  // ---- one order per set -------------------------------------------------------

  function Pairs(fs: seq<Format>): set<Format> { set f | f in fs }

  lemma PairsEmpty(fs: seq<Format>)
    ensures Pairs(fs) == {} <==> fs == []
  {
    if fs != [] { assert fs[0] in Pairs(fs); }
  }

  lemma {:induction false} OrderIsUnique(fs: seq<Format>, gs: seq<Format>)
    requires InOrder(fs) && InOrder(gs) && Pairs(fs) == Pairs(gs)
    ensures fs == gs
  {
    PairsEmpty(fs);
    PairsEmpty(gs);
    if fs != [] && gs != [] {
      assert fs[0] in Pairs(gs);
      var j :| 0 <= j < |gs| && gs[j] == fs[0];
      assert gs[0] in Pairs(fs);
      var i :| 0 <= i < |fs| && fs[i] == gs[0];
      BeforeIsTotal(fs[0].mime, gs[0].mime);
      forall f ensures f in Pairs(fs[1..]) <==> f in Pairs(gs[1..]) {
        BeforeIsTotal(fs[0].mime, fs[0].mime);
        if f in fs[1..] { assert f in Pairs(gs); assert f != gs[0]; }
        if f in gs[1..] { assert f in Pairs(fs); assert f != fs[0]; }
      }
      OrderIsUnique(fs[1..], gs[1..]);
      assert fs == [fs[0]] + fs[1..] && gs == [gs[0]] + gs[1..];
    }
  }

  function UpTo(n: nat): (r: set<nat>)
    ensures |r| == n && forall k: nat :: k in r <==> k < n
  {
    if n == 0 then {} else UpTo(n - 1) + {n - 1}
  }

  lemma ArrangedKeepsPairs(fs: seq<Format>, idx: seq<nat>)
    requires Qsorted(fs, idx)
    ensures Pairs(Arrange(fs, idx)) == Pairs(fs)
  {
    var r, used, all := Arrange(fs, idx), Order.Members(idx), UpTo(|fs|);
    Order.MembersCount(idx);
    assert used <= all;
    Exhausted(used, all);
    forall f | f in Pairs(fs) ensures f in Pairs(r) {
      var k :| 0 <= k < |fs| && fs[k] == f;
      assert k in all;
      assert k in used;
      var j :| 0 <= j < |idx| && idx[j] == k;
      assert r[j] == f;
    }
  }

  lemma Exhausted(x: set<nat>, y: set<nat>)
    requires x <= y && |x| == |y|
    ensures x == y
  {
    if x != y {
      var k :| k in y && k !in x;
      assert x <= y - {k};
      Order.Fits(x, y - {k});
    }
  }

  lemma ArrangedIsInOrder(fs: seq<Format>, idx: seq<nat>)
    requires Offered(fs) && Qsorted(fs, idx)
    ensures InOrder(Arrange(fs, idx))
  {
    var r := Arrange(fs, idx);
    forall i, j | 0 <= i < j < |r| ensures Before(r[i].mime, r[j].mime) {
      assert idx[i] != idx[j];
      BeforeIsTotal(fs[idx[i]].mime, fs[idx[j]].mime);
    }
  }

  /**
   * Identity is content: two clips feed the same bytes to the hash exactly when
   * they hold the same set of (mime, bytes) pairs, whatever the offer order.
   */
  lemma SameBytesIffSamePairs(fs: seq<Format>, i: seq<nat>, gs: seq<Format>, j: seq<nat>)
    requires Offered(fs) && Qsorted(fs, i) && Offered(gs) && Qsorted(gs, j)
    ensures Serialised(Arrange(fs, i)) == Serialised(Arrange(gs, j)) <==> Pairs(fs) == Pairs(gs)
  {
    var x, y := Arrange(fs, i), Arrange(gs, j);
    ArrangedKeepsPairs(fs, i);
    ArrangedKeepsPairs(gs, j);
    ArrangedIsInOrder(fs, i);
    ArrangedIsInOrder(gs, j);
    if Pairs(fs) == Pairs(gs) { OrderIsUnique(x, y); }
    if Serialised(x) == Serialised(y) {
      forall f | f in x || f in y ensures f in Pairs(fs) || f in Pairs(gs) {
        assert f in Pairs(x) || f in Pairs(y);
      }
      SerialisedIsInjective(x, y);
    }
  }

  lemma {:induction false} SerialisedAppend(fs: seq<Format>, f: Format)
    ensures Serialised(fs + [f]) == Serialised(fs) + Record(f)
  {
    if fs == [] {
      assert fs + [f] == [f] && [f][1..] == [];
      assert Serialised([f]) == Record(f) + Serialised([f][1..]);
    } else {
      SerialisedAppend(fs[1..], f);
      assert (fs + [f])[1..] == fs[1..] + [f];
      assert Record(fs[0]) + (Serialised(fs[1..]) + Record(f)) == (Record(fs[0]) + Serialised(fs[1..])) + Record(f);
    }
  }

  method LengthPrefix(n: nat) returns (len: array<byte>)
    ensures fresh(len) && len[..] == LittleEndian64(n)
  {
    hide ShiftBytes;
    len := new byte[8](_ => 0);
    for i := 0 to 8
      invariant forall k :: 0 <= k < i ==> len[k] == ByteOf(n, k)
    {
      len[i] := ShiftBytes(n, i) % 256;
    }
  }

  /** The identity of a clip; idx is the index array after qsort. */
  method Hash(fs: seq<Format>, idx: seq<nat>) returns (out: array<byte>)
    requires Offered(fs) && Qsorted(fs, idx)
    requires |Serialised(Arrange(fs, idx))| < 0x2000_0000_0000_0000
    ensures out[..] == Sha256.Digest(Serialised(Arrange(fs, idx)))
  {
    hide *;
    var s := new Sha256.Hasher();
    QsortedInRange(fs, idx);
    ghost var r := Arrange(fs, idx);
    SerialisedNone(r);
    for k := 0 to |idx|
      invariant s.Valid() && fresh(s) && fresh(s.h) && fresh(s.block)
      invariant s.message == Serialised(r[..k])
    {
      Arranged(fs, idx, k);
      var f := fs[idx[k]];
      s.Update(f.mime + [0]);
      var len := LengthPrefix(|f.data|);
      s.Update(len[..]);
      s.Update(f.data);
      SerialisedAppend(r[..k], f);
      RecordIs(Serialised(r[..k]), f);
      assert r[..k + 1] == r[..k] + [f];
    }
    assert r[..|idx|] == r;
    out := s.Final();
  }

  lemma SerialisedNone(r: seq<Format>)
    ensures Serialised(r[..0]) == []
  {
  }

  lemma QsortedInRange(fs: seq<Format>, idx: seq<nat>)
    requires Qsorted(fs, idx)
    ensures forall k :: 0 <= k < |idx| ==> idx[k] < |fs|
  {
  }

  lemma Arranged(fs: seq<Format>, idx: seq<nat>, k: nat)
    requires Qsorted(fs, idx) && k < |idx|
    ensures idx[k] < |fs| && Arrange(fs, idx)[k] == fs[idx[k]]
  {
  }

  lemma RecordIs(m: bytes, f: Format)
    ensures m + (f.mime + [0]) + LittleEndian64(|f.data|) + f.data == m + Record(f)
  {
    hide LittleEndian64;
  }

  lemma InsertInOrder(fs: seq<Format>, r: seq<nat>, at: nat)
    requires fs != [] && at <= |fs| - 1 && Qsorted(fs[..|fs| - 1], r)
    requires forall k :: 0 <= k < at ==> !Before(fs[|fs| - 1].mime, fs[r[k]].mime)
    requires forall k :: at <= k < |r| ==> !Before(fs[r[k]].mime, fs[|fs| - 1].mime)
    ensures Qsorted(fs, r[..at] + [|fs| - 1] + r[at..])
  {
  }

  /** Such an index array always exists. */
  lemma {:induction false} QsortPossible(fs: seq<Format>) returns (idx: seq<nat>)
    ensures Qsorted(fs, idx)
  {
    if fs == [] {
      idx := [];
    } else {
      var n := |fs| - 1;
      var r := QsortPossible(fs[..n]);
      var at := 0;
      while at < n && !Before(fs[n].mime, fs[r[at]].mime)
        invariant at <= n
        invariant forall k :: 0 <= k < at ==> !Before(fs[n].mime, fs[r[k]].mime)
      {
        at := at + 1;
      }
      forall k | at <= k < n ensures !Before(fs[r[k]].mime, fs[n].mime) {
        BeforeIsTotal(fs[n].mime, fs[r[k]].mime);
        if k > at && Before(fs[r[k]].mime, fs[n].mime) {
          BeforeIsTransitive(fs[r[k]].mime, fs[n].mime, fs[r[at]].mime);
        }
      }
      InsertInOrder(fs, r, at);
      idx := r[..at] + [n] + r[at..];
    }
  }
}
