/**
 * UTF-8 as util.c and textutil.c handle it, against sections 3 and 4 of
 * RFC 3629. Bit masks on a byte are written as the ranges they select.
 */
module Utf8 {
  import opened Bytes

  // ---- the encoding ----------------------------------------------------------

  /** A Unicode scalar value. */
  predicate Scalar(cp: nat) { cp <= 0x10FFFF && !(0xD800 <= cp <= 0xDFFF) }

  function Encode(cp: nat): bytes
    requires Scalar(cp)
  {
    if cp < 0x80 then [cp]
    else if cp < 0x800 then [0xC0 + cp / 64, 0x80 + cp % 64]
    else if cp < 0x10000 then [0xE0 + cp / 4096, 0x80 + cp / 64 % 64, 0x80 + cp % 64]
    else [0xF0 + cp / 262144, 0x80 + cp / 4096 % 64, 0x80 + cp / 64 % 64, 0x80 + cp % 64]
  }

  predicate Scalars(cps: seq<nat>) { forall cp :: cp in cps ==> Scalar(cp) }

  function EncodeAll(cps: seq<nat>): bytes
    requires Scalars(cps)
  {
    if cps == [] then [] else Encode(cps[0]) + EncodeAll(cps[1..])
  }

  /** s is the encoding of some sequence of scalar values. */
  ghost predicate IsUtf8(s: bytes) {
    exists cps: seq<nat> :: Scalars(cps) && EncodeAll(cps) == s
  }

  // ---- one character ------------------------------------------------------------

  /** Length announced by a first byte; 0 for one that cannot start a character. */
  function Announced(c: byte): nat {
    if c < 0x80 then 1
    else if 0xC0 <= c < 0xE0 then 2
    else if 0xE0 <= c < 0xF0 then 3
    else if 0xF0 <= c < 0xF8 then 4
    else 0
  }

  predicate Continues(c: byte) { 0x80 <= c < 0xC0 }

  /** Shift one continuation byte in. */
  function Shift(cp: nat, c: byte): nat
    requires Continues(c)
  {
    cp * 64 + (c as int - 0x80)
  }

  /** The low bits of a first byte. */
  function Low(c: byte): nat {
    if Announced(c) == 2 then c as int - 0xC0
    else if Announced(c) == 3 then c as int - 0xE0
    else if Announced(c) == 4 then c as int - 0xF0
    else c as int
  }

  /** The character at the front of s, if there is a well-formed one. */
  function Front(s: bytes): (cp: Option<nat>)
    ensures cp.Some? ==> Scalar(cp.value)
  {
    if s == [] || Announced(s[0]) == 0 || |s| < Announced(s[0]) then None
    else
      var n := Announced(s[0]);
      if n == 1 then Some(Low(s[0]))
      else if !Continues(s[1]) then None
      else if n == 2 then Accept(n, Shift(Low(s[0]), s[1]))
      else if !Continues(s[2]) then None
      else if n == 3 then Accept(n, Shift(Shift(Low(s[0]), s[1]), s[2]))
      else if !Continues(s[3]) then None
      else Accept(n, Shift(Shift(Shift(Low(s[0]), s[1]), s[2]), s[3]))
  }

  /** Overlong forms, surrogates and values past U+10FFFF are refused. */
  function Accept(n: nat, cp: nat): Option<nat> {
    if (n == 2 && cp < 0x80) || (n == 3 && cp < 0x800) || (n == 4 && cp < 0x10000) then None
    else if cp > 0x10FFFF || 0xD800 <= cp <= 0xDFFF then None
    else Some(cp)
  }

  lemma Encode2(a: nat, b: nat)
    requires b < 64 && 0x80 <= a * 64 + b < 0x800
    ensures Encode(a * 64 + b) == [0xC0 + a, 0x80 + b]
  {
    assert (a * 64 + b) / 64 == a && (a * 64 + b) % 64 == b;
  }

  lemma Encode3(a: nat, b: nat, c: nat)
    requires b < 64 && c < 64 && Scalar((a * 64 + b) * 64 + c) && 0x800 <= (a * 64 + b) * 64 + c < 0x10000
    ensures Encode((a * 64 + b) * 64 + c) == [0xE0 + a, 0x80 + b, 0x80 + c]
  {
    Digits3(a, b, c);
  }

  lemma FrontIsEncoded2(s: bytes)
    requires Front(s).Some? && Announced(s[0]) == 2
    ensures [s[0], s[1]] == Encode(Front(s).value)
  {
    hide Encode;
    var a, b := Low(s[0]), s[1] as int - 0x80;
    assert Front(s) == Some(a * 64 + b);
    Encode2(a, b);
  }

  lemma FrontIsEncoded3(s: bytes)
    requires Front(s).Some? && Announced(s[0]) == 3
    ensures [s[0], s[1], s[2]] == Encode(Front(s).value)
  {
    hide Encode;
    var a, b, c := Low(s[0]), s[1] as int - 0x80, s[2] as int - 0x80;
    assert Front(s) == Some((a * 64 + b) * 64 + c);
    Encode3(a, b, c);
  }

  lemma Encode4(a: nat, b: nat, c: nat, d: nat)
    requires b < 64 && c < 64 && d < 64 && 0x10000 <= ((a * 64 + b) * 64 + c) * 64 + d <= 0x10FFFF
    ensures Encode(((a * 64 + b) * 64 + c) * 64 + d) == [0xF0 + a, 0x80 + b, 0x80 + c, 0x80 + d]
  {
    Digits4(a, b, c, d);
  }

  lemma FrontIsEncoded4(s: bytes)
    requires Front(s).Some? && Announced(s[0]) == 4
    ensures [s[0], s[1], s[2], s[3]] == Encode(Front(s).value)
  {
    hide Encode;
    var a, b, c, d := Low(s[0]), s[1] as int - 0x80, s[2] as int - 0x80, s[3] as int - 0x80;
    assert Front(s) == Some(((a * 64 + b) * 64 + c) * 64 + d);
    Encode4(a, b, c, d);
  }

  /** The front character is what its bytes encode. */
  lemma FrontIsEncoded(s: bytes)
    requires Front(s).Some?
    ensures var n := Announced(s[0]); 1 <= n <= |s| && s[..n] == Encode(Front(s).value)
  {
    hide Encode;
    var n := Announced(s[0]);
    if n == 1 {
      EncodeAscii(s[0] as int);
      assert s[..1] == [s[0]];
    } else if n == 2 {
      FrontIsEncoded2(s);
      assert s[..2] == [s[0], s[1]];
    } else if n == 3 {
      FrontIsEncoded3(s);
      assert s[..3] == [s[0], s[1], s[2]];
    } else {
      FrontIsEncoded4(s);
      assert s[..4] == [s[0], s[1], s[2], s[3]];
    }
  }

  lemma EncodeAscii(c: nat)
    requires c < 0x80
    ensures Encode(c) == [c]
  {
  }

  lemma EncodedIsFront(cp: nat, t: bytes)
    requires Scalar(cp)
    ensures var s := Encode(cp) + t; Front(s) == Some(cp) && Announced(s[0]) == |Encode(cp)|
  {
    if cp < 0x80 {
    } else if cp < 0x800 {
      EncodedIsFront2(cp, t);
    } else if cp < 0x10000 {
      EncodedIsFront3(cp, t);
    } else {
      EncodedIsFront4(cp, t);
    }
  }

  lemma EncodedIsFront2(cp: nat, t: bytes)
    requires 0x80 <= cp < 0x800
    ensures var s := Encode(cp) + t; Front(s) == Some(cp) && Announced(s[0]) == 2
  {
    var s := Encode(cp) + t;
    assert s[0] == 0xC0 + cp / 64 && s[1] == 0x80 + cp % 64;
  }

  lemma EncodedIsFront3(cp: nat, t: bytes)
    requires Scalar(cp) && 0x800 <= cp < 0x10000
    ensures var s := Encode(cp) + t; Front(s) == Some(cp) && Announced(s[0]) == 3
  {
    var s := Encode(cp) + t;
    assert s[0] == 0xE0 + cp / 4096 && s[1] == 0x80 + cp / 64 % 64 && s[2] == 0x80 + cp % 64;
    assert (cp / 4096 * 64 + cp / 64 % 64) == cp / 64;
    assert Low(s[0]) == cp / 4096;
    assert Shift(Low(s[0]), s[1]) == cp / 64;
  }

  lemma EncodedIsFront4(cp: nat, t: bytes)
    requires 0x10000 <= cp <= 0x10FFFF
    ensures var s := Encode(cp) + t; Front(s) == Some(cp) && Announced(s[0]) == 4
  {
    var s := Encode(cp) + t;
    assert s[0] == 0xF0 + cp / 262144 && s[1] == 0x80 + cp / 4096 % 64;
    assert s[2] == 0x80 + cp / 64 % 64 && s[3] == 0x80 + cp % 64;
    assert cp / 262144 * 64 + cp / 4096 % 64 == cp / 4096;
    assert cp / 4096 * 64 + cp / 64 % 64 == cp / 64;
    assert Low(s[0]) == cp / 262144;
    assert Shift(Low(s[0]), s[1]) == cp / 4096;
    assert Shift(cp / 4096, s[2]) == cp / 64;
  }

  // ---- strings --------------------------------------------------------------------

  /** s is made of well-formed characters. */
  predicate Well(s: bytes) {
    s == [] || (Front(s).Some? && Well(s[Announced(s[0])..]))
  }

  lemma {:induction false} WellEncodes(s: bytes) returns (cps: seq<nat>)
    requires Well(s)
    ensures Scalars(cps) && EncodeAll(cps) == s
  {
    if s == [] {
      cps := [];
    } else {
      var n := Announced(s[0]);
      FrontIsEncoded(s);
      var rest := WellEncodes(s[n..]);
      cps := [Front(s).value] + rest;
      assert cps[1..] == rest && s == s[..n] + s[n..];
    }
  }

  lemma {:induction false} EncodedIsWell(cps: seq<nat>)
    requires Scalars(cps)
    ensures Well(EncodeAll(cps))
  {
    if cps != [] {
      var t := EncodeAll(cps[1..]);
      EncodedIsFront(cps[0], t);
      EncodedIsWell(cps[1..]);
      assert (Encode(cps[0]) + t)[|Encode(cps[0])|..] == t;
    }
  }

  lemma WellIsUtf8(s: bytes)
    ensures Well(s) <==> IsUtf8(s)
  {
    if Well(s) { var cps := WellEncodes(s); }
    if IsUtf8(s) {
      var cps: seq<nat> :| Scalars(cps) && EncodeAll(cps) == s;
      EncodedIsWell(cps);
    }
  }

  // ---- the validator ------------------------------------------------------------------

  /** The value after the first k bytes of a character. */
  function Partial(s: bytes, k: nat): nat
    requires 1 <= k <= |s| && forall j :: 1 <= j < k ==> Continues(s[j])
  {
    if k == 1 then Low(s[0]) else Shift(Partial(s, k - 1), s[k - 1])
  }

  lemma FrontByParts(s: bytes)
    requires s != [] && Announced(s[0]) > 0 && |s| >= Announced(s[0])
    ensures (exists j :: 1 <= j < Announced(s[0]) && !Continues(s[j])) ==> Front(s) == None
    ensures (forall j :: 1 <= j < Announced(s[0]) ==> Continues(s[j])) ==>
              Front(s) == if Announced(s[0]) == 1 then Some(Low(s[0])) else Accept(Announced(s[0]), Partial(s, Announced(s[0])))
  {
    if forall j :: 1 <= j < Announced(s[0]) ==> Continues(s[j]) {
      var n := Announced(s[0]);
      if n > 1 { assert Partial(s, 2) == Shift(Low(s[0]), s[1]); }
      if n > 2 { assert Partial(s, 3) == Shift(Partial(s, 2), s[2]); }
      if n > 3 { assert Partial(s, 4) == Shift(Partial(s, 3), s[3]); }
    }
  }

  /** utf8_valid accepts exactly the encodings of sequences of scalar values. */
  method Valid(s: bytes) returns (ok: bool)
    ensures ok <==> IsUtf8(s)
  {
    hide Front, Accept, IsUtf8;
    WellIsUtf8(s);
    var i := 0;
    assert s[0..] == s;
    while i < |s|
      invariant i <= |s| && (Well(s) <==> Well(s[i..]))
    {
      ghost var rest := s[i..];
      WellStep(rest);
      var c := s[i];
      var len := Announced(c);
      if len == 0 { return false; }
      if len == 1 {
        assert rest[1..] == s[i + 1..];
        i := i + 1;
        continue;
      }
      if i + len > |s| { return false; }
      FrontByParts(rest);
      var cp := Low(c);
      for k := 1 to len
        invariant forall j :: 1 <= j < k ==> Continues(rest[j])
        invariant cp == Partial(rest, k)
      {
        if !Continues(s[i + k]) {
          assert rest[k] == s[i + k];
          return false;
        }
        cp := Shift(cp, s[i + k]);
      }
      AcceptMeans(len, cp);
      if (len == 2 && cp < 0x80) || (len == 3 && cp < 0x800) || (len == 4 && cp < 0x10000) { return false; }
      if cp > 0x10FFFF || (0xD800 <= cp <= 0xDFFF) { return false; }
      assert rest[len..] == s[i + len..];
      i := i + len;
    }
    ok := true;
  }

  lemma WellStep(s: bytes)
    requires s != []
    ensures Well(s) <==> Front(s).Some? && Well(s[Announced(s[0])..])
    ensures Announced(s[0]) == 0 || Announced(s[0]) > |s| ==> Front(s) == None
    ensures Announced(s[0]) == 1 ==> Front(s).Some?
  {
  }

  lemma AcceptMeans(n: nat, cp: nat)
    ensures Accept(n, cp).Some? <==>
            !((n == 2 && cp < 0x80) || (n == 3 && cp < 0x800) || (n == 4 && cp < 0x10000))
            && !(cp > 0x10FFFF || 0xD800 <= cp <= 0xDFFF)
  {
  }

  // ---- cutting and joining ---------------------------------------------------------------

  /** Only the announced bytes decide the front character; none after the first is ASCII. */
  lemma FrontIsLocal(s: bytes, t: bytes)
    requires Front(s).Some?
    requires |t| >= Announced(s[0]) && t[..Announced(s[0])] == s[..Announced(s[0])]
    ensures Front(t) == Front(s) && t[0] == s[0]
    ensures forall j :: 1 <= j < Announced(s[0]) ==> s[j] >= 0x80
  {
    var n := Announced(s[0]);
    assert forall j :: 0 <= j < n ==> t[j] == t[..n][j] == s[..n][j] == s[j];
    FrontByParts(s);
  }

  lemma {:induction false} WellConcat(a: bytes, b: bytes)
    requires Well(a) && Well(b)
    ensures Well(a + b)
  {
    hide Front, Announced;
    if a == [] {
      assert a + b == b;
    } else {
      var n := Announced(a[0]);
      WellStep(a);
      FrontIsEncoded0(a);
      assert (a + b)[..n] == a[..n];
      FrontIsLocal(a, a + b);
      WellConcat(a[n..], b);
      assert (a + b)[n..] == a[n..] + b;
      WellStep(a + b);
    }
  }

  lemma FrontIsEncoded0(s: bytes)
    requires Front(s).Some?
    ensures s != [] && 1 <= Announced(s[0]) <= |s|
  {
  }

  /** An ASCII byte is not inside a longer character. */
  lemma AsciiIsPast(s: bytes, i: nat)
    requires Front(s).Some? && 0 < i < |s| && s[i] < 0x80
    ensures i >= Announced(s[0])
  {
    hide Front;
    FrontIsEncoded0(s);
    FrontIsLocal(s, s);
  }

  /** An ASCII byte starts a character wherever it stands. */
  lemma {:induction false} WellAtAscii(s: bytes, i: nat)
    requires Well(s) && i < |s| && s[i] < 0x80
    ensures Well(s[..i]) && Well(s[i..]) && Well(s[i + 1..])
  {
    hide Front, Announced;
    WellStep(s);
    FrontIsEncoded0(s);
    if i == 0 {
      AnnouncedAscii(s[0]);
      assert s[0..] == s;
    } else {
      var n := Announced(s[0]);
      var t := s[n..];
      AsciiIsPast(s, i);
      WellAtAscii(t, i - n);
      assert t[..i - n] == s[..i][n..] && t[i - n..] == s[i..] && t[i - n + 1..] == s[i + 1..];
      assert s[..i][..n] == s[..n];
      FrontIsLocal(s, s[..i]);
      WellStep(s[..i]);
    }
  }

  lemma AnnouncedAscii(c: byte)
    requires c < 0x80
    ensures Announced(c) == 1
  {
  }

  lemma AsciiIsWell(c: byte)
    requires c < 0x80
    ensures Well([c])
  {
    assert [c][1..] == [];
  }

  // ---- prefixes and Latin-1 ------------------------------------------------------------

  /** Length a first byte claims when validity is not in question. */
  function Claimed(c: byte): nat {
    if c < 0x80 then 1 else if 0xC0 <= c < 0xE0 then 2 else if 0xE0 <= c < 0xF0 then 3 else 4
  }

  /** utf8_prefix: how many bytes the first `max` characters take. */
  function PrefixLength(s: bytes, max: nat): (n: nat)
    ensures n <= |s|
    decreases max
  {
    if s == [] || max == 0 || Claimed(s[0]) > |s| then 0
    else Claimed(s[0]) + PrefixLength(s[Claimed(s[0])..], max - 1)
  }

  function Characters(s: bytes): nat {
    if s == [] then 0
    else if Claimed(s[0]) > |s| then 1
    else 1 + Characters(s[Claimed(s[0])..])
  }

  /** A prefix of well-formed text is well formed, and is the whole exactly when it has few enough characters. */
  lemma {:induction false} PrefixIsWell(s: bytes, max: nat)
    requires Well(s)
    ensures Well(s[..PrefixLength(s, max)])
    ensures PrefixLength(s, max) == |s| <==> Characters(s) <= max
    ensures Characters(s[..PrefixLength(s, max)]) == if Characters(s) <= max then Characters(s) else max
    decreases max
  {
    hide Front;
    if s == [] {
    } else {
      var n := Claimed(s[0]);
      FrontIsEncoded0(s);
      assert n == Announced(s[0]) by { ClaimedIsAnnounced(s[0]); }
      if max > 0 {
        var p := PrefixLength(s, max);
        PrefixIsWell(s[n..], max - 1);
        FrontIsLocal(s, s[..p]);
        assert s[..p][n..] == s[n..][..p - n];
      }
    }
  }

  lemma ClaimedIsAnnounced(c: byte)
    requires Announced(c) > 0
    ensures Claimed(c) == Announced(c)
  {
  }

  method Prefix(s: bytes, max: nat) returns (i: nat)
    ensures i == PrefixLength(s, max)
  {
    i := 0;
    var chars := 0;
    assert s[0..] == s;
    while i < |s| && chars < max
      invariant i <= |s| && chars <= max && PrefixLength(s, max) == i + PrefixLength(s[i..], max - chars)
      decreases max - chars
    {
      var len := Claimed(s[i]);
      if i + len > |s| { return; }
      assert s[i..][len..] == s[i + len..];
      i := i + len;
      chars := chars + 1;
    }
  }

  function Widen(s: bytes): bytes {
    if s == [] then [] else Widen(s[..|s| - 1]) + Encode(s[|s| - 1])
  }

  /** latin1_to_utf8: every byte becomes the character it numbers, so the result is always valid. */
  method Latin1ToUtf8(s: bytes) returns (out: bytes)
    ensures out == Widen(s) && IsUtf8(out)
  {
    out := [];
    for i := 0 to |s|
      invariant out == Widen(s[..i])
    {
      assert s[..i + 1][..i] == s[..i];
      if s[i] < 0x80 {
        out := out + [s[i]];
      } else {
        out := out + [0xC0 + s[i] / 64, 0x80 + s[i] % 64];
      }
    }
    assert s[..|s|] == s;
    WidenIsWell(s);
    WellIsUtf8(out);
  }

  lemma {:induction false} WidenIsWell(s: bytes)
    ensures Well(Widen(s))
  {
    if s != [] {
      var c := s[|s| - 1];
      WidenIsWell(s[..|s| - 1]);
      EncodedIsWell([c]);
      assert EncodeAll([c]) == Encode(c) + [] == Encode(c);
      WellConcat(Widen(s[..|s| - 1]), Encode(c));
    }
  }
}
