/**
 * Base64 (daemon/src/util.c), section 4 of RFC 4648: an encoder by groups of
 * three and a decoder with a wrapping 32-bit accumulator.
 */
module Base64 {
  import opened Bytes

  const PAD: byte := 61 // =
  const TWO32: nat := 0x1_0000_0000

  type sextet = v: int | 0 <= v < 64

  /** The alphabet. */
  function Char(v: sextet): byte {
    if v < 26 then 65 + v else if v < 52 then 71 + v else if v < 62 then v - 4 else if v == 62 then 43 else 47
  }

  function Value(c: byte): Option<sextet> {
    if 65 <= c <= 90 then Some(c as int - 65)
    else if 97 <= c <= 122 then Some(c as int - 71)
    else if 48 <= c <= 57 then Some(c as int + 4)
    else if c == 43 then Some(62)
    else if c == 47 then Some(63)
    else None
  }

  predicate Blank(c: byte) { c == 32 || c == 10 || c == 13 || c == 9 }

  // ---- encoding ---------------------------------------------------------------

  /** Three bytes as four values. */
  function Four(a: byte, b: byte, c: byte): (v: seq<sextet>)
    ensures |v| == 4
  {
    [a as int / 4, a as int % 4 * 16 + b as int / 16, b as int % 16 * 4 + c as int / 64, c as int % 64]
  }

  function Chars(v: seq<sextet>): (s: bytes)
    ensures |s| == |v|
  {
    if v == [] then [] else Chars(v[..|v| - 1]) + [Char(v[|v| - 1])]
  }

  /** The values of whole groups of three. */
  function Groups(x: bytes): (v: seq<sextet>)
    requires |x| % 3 == 0
    ensures |v| % 4 == 0
  {
    if x == [] then [] else Groups(x[..|x| - 3]) + Four(x[|x| - 3], x[|x| - 2], x[|x| - 1])
  }

  /** The values of the last, incomplete group. */
  function LastGroup(x: bytes): (v: seq<sextet>)
    requires |x| < 3
  {
    if |x| == 0 then [] else if |x| == 1 then Four(x[0], 0, 0)[..2] else Four(x[0], x[1], 0)[..3]
  }

  function Padding(n: nat): bytes
    requires n < 3
  {
    if n == 0 then [] else if n == 1 then [PAD, PAD] else [PAD]
  }

  /** A to Z, a to z, 0 to 9, + and /. */
  lemma AlphabetIs(v: sextet)
    ensures Char(v) == if v < 26 then 'A' as int + v else if v < 52 then 'a' as int + (v - 26)
                       else if v < 62 then '0' as int + (v - 52) else if v < 63 then '+' as int else '/' as int
  {
  }

  /** What is skipped wherever it stands, and what pads. */
  lemma SkippedIs(c: byte)
    ensures Blank(c) <==> c == ' ' as int || c == '\n' as int || c == '\r' as int || c == '\t' as int
    ensures PAD == '=' as int
  {
  }

  /** The four values are the digits, in base 64, of the number whose bytes are the three. */
  lemma FourIsNumber(a: byte, b: byte, c: byte)
    ensures var v := Four(a, b, c);
            v[0] as int * 262144 + v[1] as int * 4096 + v[2] as int * 64 + v[3] as int == a as int * 65536 + b as int * 256 + c as int
  {
  }

  function Encoded(x: bytes): bytes {
    var n := |x| / 3 * 3;
    Chars(Groups(x[..n])) + Chars(LastGroup(x[n..])) + Padding(|x| - n)
  }

  /** Pads fill the text up to a multiple of four: four characters for every three bytes begun. */
  lemma EncodedLength(x: bytes)
    ensures |Encoded(x)| == (|x| + 2) / 3 * 4
  {
    hide Chars, Groups, Four;
    GroupsLength(x[..|x| / 3 * 3]);
  }

  lemma {:induction false} GroupsLength(x: bytes)
    requires |x| % 3 == 0
    ensures |Groups(x)| == |x| / 3 * 4
  {
    hide Four;
    if x != [] { GroupsLength(x[..|x| - 3]); }
  }

  lemma {:induction false} CharsAppend(u: seq<sextet>, v: seq<sextet>)
    ensures Chars(u + v) == Chars(u) + Chars(v)
  {
    if v == [] {
      assert u + v == u;
    } else {
      var n := |v| - 1;
      CharsAppend(u, v[..n]);
      assert (u + v)[..|u + v| - 1] == u + v[..n];
    }
  }

  method Encode(x: bytes) returns (out: bytes)
    ensures out == Encoded(x)
  {
    hide *;
    out := [];
    var i := 0;
    var n := |x|;
    EncodeStart(x);
    while i + 2 < n
      invariant i <= n && i % 3 == 0 && out == Chars(Groups(x[..i]))
      decreases n - i
    {
      var v := x[i] as int * 65536 + x[i + 1] as int * 256 + x[i + 2] as int;
      Split(x[i], x[i + 1], x[i + 2]);
      out := out + [Char(v / 262144), Char(v / 4096 % 64), Char(v / 64 % 64), Char(v % 64)];
      GroupStep(x, i);
      i := i + 3;
    }
    EncodeEnd(x, i);
    if i < n {
      var b := if i + 1 < n then x[i + 1] else 0;
      var v := x[i] as int * 65536 + b as int * 256;
      Split(x[i], b, 0);
      out := out + [Char(v / 262144), Char(v / 4096 % 64)];
      out := out + [if i + 1 < n then Char(v / 64 % 64) else PAD, PAD];
    }
  }

  lemma EncodeStart(x: bytes)
    ensures Chars(Groups(x[..0])) == []
  {
  }

  /** What is missing when only an incomplete group is left. */
  lemma EncodeEnd(x: bytes, i: nat)
    requires i <= |x| <= i + 2 && i % 3 == 0
    ensures |x| == i ==> Encoded(x) == Chars(Groups(x[..i]))
    ensures |x| == i + 1 ==> var f := Four(x[i], 0, 0);
              Encoded(x) == Chars(Groups(x[..i])) + [Char(f[0]), Char(f[1])] + [PAD, PAD]
    ensures |x| == i + 2 ==> var f := Four(x[i], x[i + 1], 0);
              Encoded(x) == Chars(Groups(x[..i])) + [Char(f[0]), Char(f[1])] + [Char(f[2]), PAD]
  {
    hide Four, Char, Groups;
    assert |x| / 3 * 3 == i;
    if |x| == i + 1 {
      LastStep(x[i..], 0);
    } else if |x| == i + 2 {
      LastStep(x[i..], x[i + 1]);
    }
  }

  /** The 24-bit word of a group has its four values as digits. */
  lemma Split(a: byte, b: byte, c: byte)
    ensures var v := a as int * 65536 + b as int * 256 + c as int;
            && v / 262144 == Four(a, b, c)[0] && v / 4096 % 64 == Four(a, b, c)[1]
            && v / 64 % 64 == Four(a, b, c)[2] && v % 64 == Four(a, b, c)[3]
  {
    var f := Four(a, b, c);
    assert a as int * 65536 + b as int * 256 + c as int
        == ((f[0] as int * 64 + f[1] as int) * 64 + f[2] as int) * 64 + f[3] as int;
    Digits4(f[0], f[1], f[2], f[3]);
  }

  lemma GroupStep(x: bytes, i: nat)
    requires i + 2 < |x| && i % 3 == 0
    ensures var f := Four(x[i], x[i + 1], x[i + 2]);
            Chars(Groups(x[..i + 3])) == Chars(Groups(x[..i])) + [Char(f[0]), Char(f[1]), Char(f[2]), Char(f[3])]
  {
    hide Four, Char;
    var f := Four(x[i], x[i + 1], x[i + 2]);
    assert x[..i + 3][..i] == x[..i];
    CharsAppend(Groups(x[..i]), f);
    CharsOf(f, 4);
    assert f[..4] == f;
  }

  lemma CharsOf(f: seq<sextet>, n: nat)
    requires 2 <= n <= |f| && n <= 4
    ensures Chars(f[..n]) == [Char(f[0]), Char(f[1])] + (if n > 2 then [Char(f[2])] else []) + (if n > 3 then [Char(f[3])] else [])
  {
    hide Char;
    assert f[..n][..n - 1] == f[..n - 1];
    if n > 2 {
      CharsOf(f, n - 1);
    } else {
      assert f[..1][..0] == [];
      assert Chars(f[..1]) == [Char(f[0])];
    }
  }

  lemma LastStep(x: bytes, b: byte)
    requires 1 <= |x| < 3 && b == if |x| == 2 then x[1] else 0
    ensures var f := Four(x[0], b, 0);
            Chars(LastGroup(x)) == [Char(f[0]), Char(f[1])] + if |x| == 2 then [Char(f[2])] else []
  {
    hide Four, Char;
    CharsOf(Four(x[0], b, 0), |x| + 1);
  }

  // ---- decoding ---------------------------------------------------------------

  datatype Parse = Rejected | Parsed(vals: seq<sextet>, pad: nat)

  /** One more character: white space is skipped and nothing may follow padding. */
  function Next(p: Parse, c: byte): Parse {
    if p.Rejected? || Blank(c) then p
    else if c == PAD then Parsed(p.vals, p.pad + 1)
    else if p.pad > 0 || Value(c).None? then Rejected
    else Parsed(p.vals + [Value(c).value], 0)
  }

  function Scan(t: bytes): (p: Parse)
    ensures p.Parsed? ==> |p.vals| + p.pad <= |t|
  {
    if t == [] then Parsed([], 0) else Next(Scan(t[..|t| - 1]), t[|t| - 1])
  }

  /** The byte completed by value number m + 1 when number m was u. */
  function Completed(m: nat, u: sextet, v: sextet): byte {
    if m % 4 == 1 then u as int * 4 + v as int / 16
    else if m % 4 == 2 then u as int % 16 * 16 + v as int / 4
    else u as int % 4 * 64 + v as int
  }

  /** The bytes whose bits the values spell. */
  function Regroup(v: seq<sextet>): bytes {
    if v == [] then [] else
      var m := |v| - 1;
      Regroup(v[..m]) + if m % 4 == 0 then [] else [Completed(m, v[m - 1], v[m])]
  }

  lemma ScanMore(s: bytes, c: byte)
    ensures Scan(s + [c]) == Next(Scan(s), c)
  {
    hide Next;
    assert (s + [c])[..|s|] == s;
  }

  /** What a text stands for: one value left over, or a third pad, is no text. */
  function Decoded(t: bytes): Option<bytes> {
    var p := Scan(t);
    if p.Rejected? || p.pad > 2 || |p.vals| % 4 == 1 then None else Some(Regroup(p.vals))
  }

  /** How many bits wait after m values. */
  function Waiting(m: nat): nat {
    if m % 4 == 0 then 0 else 8 - 2 * (m % 4)
  }

  function Power(b: nat): (p: nat)
    ensures p > 0
  {
    if b == 0 then 1 else 2 * Power(b - 1)
  }

  /** The accumulator ends in the waiting bits, the low ones of the last value. */
  ghost predicate Holds(acc: nat, vals: seq<sextet>) {
    vals != [] ==> acc % 64 == vals[|vals| - 1]
  }

  method Decode(t: bytes) returns (x: Option<bytes>)
    ensures x == Decoded(t)
  {
    hide *;
    var n := |t|;
    var out := new byte[n / 4 * 3 + 3];
    var o: nat := 0;
    var acc: nat := 0;
    var bits: nat, pad: nat := 0, 0;
    ghost var vals: seq<sextet> := [];
    ScanStart(t);
    var i := 0;
    while i < n
      invariant i <= n && Scan(t[..i]) == Parsed(vals, pad)
      invariant acc < TWO32 && bits == Waiting(|vals|) && Holds(acc, vals)
      invariant o == |Regroup(vals)| && o <= out.Length && out[..o] == Regroup(vals)
    {
      var c := t[i];
      ScanStep(t, i);
      NextIs(Scan(t[..i]), c);
      i := i + 1;
      if Blank(c) {
        continue;
      }
      if c == PAD {
        pad := pad + 1;
        continue;
      }
      if pad > 0 {
        RejectedStays(t, i);
        return None;
      }
      var p := Value(c);
      if p.None? {
        RejectedStays(t, i);
        return None;
      }
      RegroupStep(vals, p.value);
      AccStep(acc, vals, p.value);
      InBounds(vals + [p.value], t, i);
      acc := acc * 64 % TWO32 + p.value;
      bits := bits + 6;
      if bits >= 8 {
        bits := bits - 8;
        out[o] := acc / Power(bits) % 256;
        o := o + 1;
      }
      vals := vals + [p.value];
    }
    ScanEnd(t, vals, pad);
    if pad > 2 || bits >= 6 {
      return None;
    }
    return Some(out[..o]);
  }

  lemma ScanStart(t: bytes)
    ensures 0 < TWO32 && Scan(t[..0]) == Parsed([], 0) && Regroup([]) == [] && Waiting(0) == 0 && Holds(0, [])
  {
  }

  lemma ScanStep(t: bytes, i: nat)
    requires i < |t|
    ensures Scan(t[..i + 1]) == Next(Scan(t[..i]), t[i])
  {
    hide Next, Scan;
    ScanMore(t[..i], t[i]);
    assert t[..i + 1] == t[..i] + [t[i]];
  }

  lemma NextIs(p: Parse, c: byte)
    requires p.Parsed?
    ensures Blank(c) ==> Next(p, c) == p
    ensures !Blank(c) && c == PAD ==> Next(p, c) == Parsed(p.vals, p.pad + 1)
    ensures !Blank(c) && c != PAD && (p.pad > 0 || Value(c).None?) ==> Next(p, c) == Rejected
    ensures !Blank(c) && c != PAD && p.pad == 0 && Value(c).Some? ==> Next(p, c) == Parsed(p.vals + [Value(c).value], 0)
  {
  }

  lemma {:induction false} RejectedStays(t: bytes, i: nat)
    requires i <= |t| && Scan(t[..i]) == Rejected
    ensures Decoded(t) == None
    decreases |t| - i
  {
    hide Value, Blank, Regroup;
    if i == |t| {
      assert t[..i] == t;
    } else {
      ScanStep(t, i);
      RejectedStays(t, i + 1);
    }
  }

  lemma ScanEnd(t: bytes, vals: seq<sextet>, pad: nat)
    requires Scan(t[..|t|]) == Parsed(vals, pad)
    ensures Decoded(t) == if pad > 2 || Waiting(|vals|) >= 6 then None else Some(Regroup(vals))
  {
    hide Scan, Regroup;
    assert t[..|t|] == t;
  }

  lemma RegroupStep(v: seq<sextet>, x: sextet)
    ensures Waiting(|v|) < 2 ==> Regroup(v + [x]) == Regroup(v) && Waiting(|v| + 1) == Waiting(|v|) + 6
    ensures Waiting(|v|) >= 2 ==> v != []
    ensures Waiting(|v|) >= 2 ==> Waiting(|v| + 1) == Waiting(|v|) + 6 - 8
    ensures Waiting(|v|) >= 2 ==> Regroup(v + [x]) == Regroup(v) + [Completed(|v|, v[|v| - 1], x)]
  {
    hide Completed, Regroup;
    RegroupMore(v, x);
    assert Waiting(|v|) < 2 ==> |v| % 4 == 0;
    assert Regroup(v) + [] == Regroup(v);
  }

  lemma RegroupMore(v: seq<sextet>, x: sextet)
    ensures Regroup(v + [x]) == Regroup(v) + if |v| % 4 == 0 then [] else [Completed(|v|, v[|v| - 1], x)]
  {
    hide Completed;
    assert (v + [x])[..|v|] == v;
  }

  /** Wrapping loses nothing that is still needed. */
  lemma AccStep(acc: nat, v: seq<sextet>, x: sextet)
    requires acc < TWO32 && Holds(acc, v)
    ensures var next := acc * 64 % TWO32 + x;
            && next < TWO32 && Holds(next, v + [x])
            && (Waiting(|v|) >= 2 ==>
                  v != [] && next / Power(Waiting(|v| + 1)) % 256 == Completed(|v|, v[|v| - 1], x))
  {
    hide Completed, Power, Waiting;
    Shifted(acc, x);
    var next := acc * 64 % TWO32 + x;
    NextHolds(next, acc, x);
    if Waiting(|v|) >= 2 {
      HasWaiting(|v|);
      Emitted(next, |v|, v[|v| - 1], x);
    }
  }

  lemma NextHolds(next: nat, acc: nat, x: sextet)
    requires next % 4096 == acc % 64 * 64 + x
    ensures next % 64 == x
  {
    var (q, r) := (next / 4096, acc % 64);
    assert next == 4096 * q + (64 * r + x);
    LowSix(next, 64 * q + r, x);
  }

  lemma LowSix(n: nat, q: nat, x: sextet)
    requires n == 64 * q + x
    ensures n % 64 == x
  {
  }

  lemma HasWaiting(m: nat)
    ensures Waiting(m) >= 2 ==> m > 0 && m % 4 != 0
  {
  }

  lemma Emitted(next: nat, m: nat, u: sextet, x: sextet)
    requires next % 4096 == u as int * 64 + x && m % 4 != 0
    ensures next / Power(Waiting(m + 1)) % 256 == Completed(m, u, x)
  {
    hide Power, Waiting, Completed;
    Powers();
    WaitingAfter(m);
    CompletedAt(m, u, x);
    if m % 4 == 1 {
      Window16(next, u, x);
    } else if m % 4 == 2 {
      Window4(next, u, x);
    } else {
      Window1(next, u, x);
    }
  }

  lemma WaitingAfter(m: nat)
    ensures m % 4 == 1 ==> Waiting(m + 1) == 4
    ensures m % 4 == 2 ==> Waiting(m + 1) == 2
    ensures m % 4 == 3 ==> Waiting(m + 1) == 0
  {
  }

  lemma CompletedAt(m: nat, u: sextet, x: sextet)
    ensures m % 4 == 1 ==> Completed(m, u, x) == u as int * 4 + x as int / 16
    ensures m % 4 == 2 ==> Completed(m, u, x) == u as int % 16 * 16 + x as int / 4
    ensures m % 4 == 3 ==> Completed(m, u, x) == u as int % 4 * 64 + x as int
  {
  }

  lemma Powers()
    ensures Power(0) == 1 && Power(2) == 4 && Power(4) == 16
  {
    assert Power(1) == 2 && Power(3) == 8;
  }

  lemma Shifted(acc: nat, x: sextet)
    requires acc < TWO32
    ensures acc * 64 % TWO32 + x < TWO32 && (acc * 64 % TWO32 + x) % 4096 == acc % 64 * 64 + x
  {
    var q, r := acc / 0x400_0000, acc % 0x400_0000;
    assert acc * 64 == q * TWO32 + r * 64;
    assert acc * 64 % TWO32 == r * 64;
    LowDigit(q, r, acc);
    LowDigits(r, x);
  }

  lemma LowDigit(q: nat, r: nat, acc: nat)
    requires acc == q * 0x400_0000 + r
    ensures r % 64 == acc % 64
  {
    assert acc == 64 * (q * 0x10_0000 + r / 64) + r % 64;
  }

  lemma LowDigits(r: nat, x: sextet)
    ensures (r * 64 + x) % 4096 == r % 64 * 64 + x
  {
    assert r * 64 + x == 4096 * (r / 64) + (r % 64 * 64 + x);
  }

  lemma Quotient(n: nat, q: nat, r: nat)
    ensures n == 16 * q + r && r < 16 ==> n / 16 == q
    ensures n == 4 * q + r && r < 4 ==> n / 4 == q
    ensures n == 256 * q + r && r < 256 ==> n % 256 == r
  {
  }

  lemma Window16(next: nat, u: sextet, x: sextet)
    requires next % 4096 == u as int * 64 + x
    ensures next / 16 % 256 == u as int * 4 + x as int / 16
  {
    var (q, xq, xr) := (next / 4096, x as int / 16, x as int % 16);
    Quotient(next, 256 * q + u * 4 + xq, xr);
    Quotient(256 * q + u * 4 + xq, q, u * 4 + xq);
  }

  lemma Window4(next: nat, u: sextet, x: sextet)
    requires next % 4096 == u as int * 64 + x
    ensures next / 4 % 256 == u as int % 16 * 16 + x as int / 4
  {
    var (q, uq, ur, xq, xr) := (next / 4096, u as int / 16, u as int % 16, x as int / 4, x as int % 4);
    var y := 256 * (4 * q + uq) + (ur * 16 + xq);
    assert next == 4 * y + xr;
    Quotient(next, y, xr);
    Quotient(y, 4 * q + uq, ur * 16 + xq);
  }

  lemma Window1(next: nat, u: sextet, x: sextet)
    requires next % 4096 == u as int * 64 + x
    ensures next / 1 % 256 == u as int % 4 * 64 + x as int
  {
    var (q, uq, ur) := (next / 4096, u as int / 4, u as int % 4);
    assert next == 256 * (16 * q + uq) + (ur * 64 + x);
    Quotient(next, 16 * q + uq, ur * 64 + x);
  }

  /** How many bytes m values complete. */
  function Whole(m: nat): nat { m / 4 * 3 + if m % 4 == 0 then 0 else m % 4 - 1 }

  lemma WholeStep(m: nat)
    ensures Whole(m + 1) == Whole(m) + if m % 4 == 0 then 0 else 1
  {
    var (q, r) := (m / 4, m % 4);
    assert m + 1 == if r == 3 then 4 * (q + 1) else 4 * q + (r + 1);
  }

  lemma {:induction false} RegroupLength(v: seq<sextet>)
    ensures |Regroup(v)| == Whole(|v|)
  {
    hide Completed, Whole;
    if v == [] {
      assert Whole(0) == 0 by { WholeNone(); }
    } else {
      RegroupLength(v[..|v| - 1]);
      WholeStep(|v| - 1);
    }
  }

  lemma WholeNone()
    ensures Whole(0) == 0
  {
  }

  lemma WholeFits(m: nat, n: nat)
    requires m <= n
    ensures Whole(m) <= n / 4 * 3 + 3
  {
  }

  /** Every byte written has its place. */
  lemma InBounds(vals: seq<sextet>, t: bytes, i: nat)
    requires i <= |t| && Scan(t[..i]) == Parsed(vals, 0)
    ensures |Regroup(vals)| <= |t| / 4 * 3 + 3
  {
    hide Next, Regroup, Whole;
    RegroupLength(vals);
    WholeFits(|vals|, |t|);
  }

  // ---- the round trip ------------------------------------------------------------

  /** A text without its white space. */
  function Packed(t: bytes): bytes {
    if t == [] then [] else
      Packed(t[..|t| - 1]) + if Blank(t[|t| - 1]) then [] else [t[|t| - 1]]
  }

  lemma {:induction false} WhiteSpaceIsSkipped(t: bytes)
    ensures Scan(t) == Scan(Packed(t))
  {
    hide Blank, Value;
    if t != [] {
      var p, c := Packed(t[..|t| - 1]), t[|t| - 1];
      WhiteSpaceIsSkipped(t[..|t| - 1]);
      if Blank(c) {
        assert p + [] == p;
      } else {
        ScanMore(p, c);
      }
    }
  }

  lemma ValueOfChar(v: sextet)
    ensures Value(Char(v)) == Some(v) && Char(v) != PAD && !Blank(Char(v))
  {
  }

  lemma {:induction false} ScanChars(v: seq<sextet>)
    ensures Scan(Chars(v)) == Parsed(v, 0)
  {
    hide Char, Value, Blank;
    if v != [] {
      var m := |v| - 1;
      ScanChars(v[..m]);
      ValueOfChar(v[m]);
      ScanMore(Chars(v[..m]), Char(v[m]));
      assert v[..m] + [v[m]] == v;
    }
  }

  lemma ScanPadding(s: bytes, v: seq<sextet>, k: nat)
    requires Scan(s) == Parsed(v, 0) && k < 3
    ensures Scan(s + Padding(k)) == Parsed(v, if k == 0 then 0 else 3 - k)
  {
    hide Value, Scan;
    assert s + [] == s;
    ScanMore(s, PAD);
    ScanMore(s + [PAD], PAD);
    assert s + [PAD] + [PAD] == s + [PAD, PAD];
  }

  lemma {:induction false} RegroupAppend(v: seq<sextet>, w: seq<sextet>)
    requires |v| % 4 == 0
    ensures Regroup(v + w) == Regroup(v) + Regroup(w)
  {
    hide Completed, Regroup;
    RegroupNone();
    if w == [] {
      assert v + w == v;
    } else {
      var m := |w| - 1;
      RegroupAppend(v, w[..m]);
      assert v + w == v + w[..m] + [w[m]] && w == w[..m] + [w[m]];
      RegroupMore(v + w[..m], w[m]);
      RegroupMore(w[..m], w[m]);
      Period(|v|, m);
      if m > 0 {
        CompletedPeriod(|v| + m, m, w[m - 1], w[m]);
      }
    }
  }

  lemma Period(n: nat, m: nat)
    requires n % 4 == 0
    ensures (n + m) % 4 == m % 4
  {
  }

  lemma CompletedPeriod(m: nat, k: nat, u: sextet, x: sextet)
    requires m % 4 == k % 4
    ensures Completed(m, u, x) == Completed(k, u, x)
  {
  }

  lemma RegroupFour(a: byte, b: byte, c: byte)
    ensures Regroup(Four(a, b, c)) == [a, b, c] && Regroup(Four(a, b, c)[..3]) == [a, b] && Regroup(Four(a, b, c)[..2]) == [a]
  {
    hide Regroup, Completed;
    var f := Four(a, b, c);
    FourCompletes(a, b, c);
    RegroupNone();
    RegroupMore([], f[0]);
    RegroupMore([f[0]], f[1]);
    RegroupMore(f[..2], f[2]);
    RegroupMore(f[..3], f[3]);
    assert [] + [f[0]] == [f[0]] && [f[0]] + [f[1]] == f[..2] && f[..2] + [f[2]] == f[..3] && f[..3] + [f[3]] == f;
  }

  lemma FourCompletes(a: byte, b: byte, c: byte)
    ensures var f := Four(a, b, c);
            Completed(1, f[0], f[1]) == a && Completed(2, f[1], f[2]) == b && Completed(3, f[2], f[3]) == c
  {
  }

  lemma {:induction false} RegroupGroups(x: bytes)
    requires |x| % 3 == 0
    ensures Regroup(Groups(x)) == x
  {
    hide Four, Regroup;
    if x == [] {
      RegroupNone();
    } else {
      var n := |x| - 3;
      RegroupGroups(x[..n]);
      RegroupFour(x[n], x[n + 1], x[n + 2]);
      RegroupAppend(Groups(x[..n]), Four(x[n], x[n + 1], x[n + 2]));
      assert x[..n] + [x[n], x[n + 1], x[n + 2]] == x;
    }
  }

  lemma RegroupNone()
    ensures Regroup([]) == []
  {
  }

  lemma RegroupLast(x: bytes)
    requires |x| < 3
    ensures Regroup(LastGroup(x)) == x && |LastGroup(x)| == if |x| == 0 then 0 else |x| + 1
  {
    hide Four, Regroup;
    RegroupNone();
    if |x| > 0 {
      RegroupFour(x[0], if |x| == 2 then x[1] else 0, 0);
    }
  }

  /** Decoding undoes encoding, with white space inserted anywhere. */
  lemma RoundTrip(x: bytes, t: bytes)
    requires Packed(t) == Encoded(x)
    ensures Decoded(t) == Some(x)
  {
    hide *;
    var n := |x| / 3 * 3;
    var g, l := Groups(x[..n]), LastGroup(x[n..]);
    WhiteSpaceIsSkipped(t);
    EncodedIs(x);
    CharsAppend(g, l);
    ScanChars(g + l);
    ScanPadding(Chars(g + l), g + l, |x| - n);
    RegroupGroups(x[..n]);
    RegroupLast(x[n..]);
    RegroupAppend(g, l);
    assert x[..n] + x[n..] == x;
    DecodedIs(t);
  }

  lemma EncodedIs(x: bytes)
    ensures var n := |x| / 3 * 3; Encoded(x) == Chars(Groups(x[..n])) + Chars(LastGroup(x[n..])) + Padding(|x| - n)
  {
  }

  lemma DecodedIs(t: bytes)
    requires Scan(t).Parsed? && Scan(t).pad <= 2 && |Scan(t).vals| % 4 != 1
    ensures Decoded(t) == Some(Regroup(Scan(t).vals))
  {
  }

  /** The encoder's own output has no white space in it. */
  lemma {:induction false} CharsArePacked(v: seq<sextet>, k: nat)
    requires k < 3
    ensures Packed(Chars(v) + Padding(k)) == Chars(v) + Padding(k)
  {
    hide Char, Blank, Packed;
    PadNotBlank();
    var s := Chars(v);
    if k > 0 {
      PackedMore(s, PAD);
      PackedMore(s + [PAD], PAD);
      assert s + [] == s && s + [PAD] + [PAD] == s + [PAD, PAD];
      CharsArePacked(v, 0);
    } else if v != [] {
      var m := |v| - 1;
      ValueOfChar(v[m]);
      CharsArePacked(v[..m], 0);
      PackedMore(Chars(v[..m]), Char(v[m]));
      assert Chars(v[..m]) + [] == Chars(v[..m]) && s + [] == s;
    } else {
      PackedNone();
    }
  }

  lemma PackedMore(t: bytes, c: byte)
    ensures Packed(t + [c]) == Packed(t) + if Blank(c) then [] else [c]
  {
    hide Blank;
    assert (t + [c])[..|t|] == t;
  }

  lemma PackedNone()
    ensures Packed([]) == []
  {
  }

  lemma PadNotBlank()
    ensures !Blank(PAD)
  {
  }

  lemma PlainRoundTrip(x: bytes)
    ensures Decoded(Encoded(x)) == Some(x)
  {
    hide *;
    var n := |x| / 3 * 3;
    EncodedIs(x);
    CharsAppend(Groups(x[..n]), LastGroup(x[n..]));
    CharsArePacked(Groups(x[..n]) + LastGroup(x[n..]), |x| - n);
    RoundTrip(x, Encoded(x));
  }

  // ---- what the decoder takes -------------------------------------------------------

  function Pads(k: nat): bytes {
    if k == 0 then [] else Pads(k - 1) + [PAD]
  }

  /** White space apart, t is the characters of v and k pads. */
  ghost predicate Spells(t: bytes, v: seq<sextet>, k: nat) { Packed(t) == Chars(v) + Pads(k) }

  lemma CharOfValue(c: byte)
    requires Value(c).Some?
    ensures Char(Value(c).value) == c
  {
  }

  lemma CharsMore(v: seq<sextet>, x: sextet)
    ensures Chars(v + [x]) == Chars(v) + [Char(x)]
  {
    hide Char;
    assert (v + [x])[..|v|] == v;
  }

  lemma {:induction false} ScanSpells(t: bytes)
    requires Scan(t).Parsed?
    ensures Spells(t, Scan(t).vals, Scan(t).pad)
  {
    hide Char, Value, Blank, Chars;
    assert Chars([]) == [] by { CharsNone(); }
    if t != [] {
      var c := t[|t| - 1];
      var p := Scan(t[..|t| - 1]);
      ScanSpells(t[..|t| - 1]);
      if !Blank(c) && c != PAD {
        CharOfValue(c);
        CharsMore(p.vals, Value(c).value);
        assert Chars(p.vals) + [] + [c] == Chars(p.vals) + [c] + [];
      }
    }
  }

  lemma CharsNone()
    ensures Chars([]) == []
  {
  }

  lemma {:induction false} ScanPads(s: bytes, v: seq<sextet>, k: nat)
    requires Scan(s) == Parsed(v, 0)
    ensures Scan(s + Pads(k)) == Parsed(v, k)
  {
    hide Value, Scan;
    if k == 0 {
      assert s + [] == s;
    } else {
      ScanPads(s, v, k - 1);
      ScanMore(s + Pads(k - 1), PAD);
      assert s + Pads(k - 1) + [PAD] == s + Pads(k);
    }
  }

  /** Exactly these texts decode: no lone value, at most two pads, nothing after them. */
  lemma DecodesIff(t: bytes)
    ensures Decoded(t).Some? <==> exists v: seq<sextet>, k: nat :: Spells(t, v, k) && k <= 2 && |v| % 4 != 1
    ensures forall v: seq<sextet>, k: nat :: Spells(t, v, k) && k <= 2 && |v| % 4 != 1 ==> Decoded(t) == Some(Regroup(v))
  {
    hide Scan, Regroup, Packed, Chars, Pads;
    forall v: seq<sextet>, k: nat | Spells(t, v, k) && k <= 2 && |v| % 4 != 1
      ensures Decoded(t) == Some(Regroup(v))
    {
      WhiteSpaceIsSkipped(t);
      ScanChars(v);
      ScanPads(Chars(v), v, k);
    }
    if Decoded(t).Some? {
      ScanSpells(t);
    }
  }
}
