/**
 * Handing window-class globs to Lua (daemon/src/hypr.c): a glob becomes an
 * anchored Lua pattern, and any string becomes a Lua string literal.
 */
module LuaGlob {
  import opened Bytes

  function LowerAll(s: bytes): bytes { seq(|s|, i requires 0 <= i < |s| => Lower(s[i])) }

  const STAR: byte := 42     // *
  const QUESTION: byte := 63 // ?
  const DOT: byte := 46      // .
  const PERCENT: byte := 37  // %
  const CARET: byte := 94    // ^
  const DOLLAR: byte := 36   // $
  const PLUS: byte := 43     // +
  const MINUS: byte := 45    // -

  /** ^ $ ( ) % . [ ] + - */
  predicate Magic(c: byte) { c in [94, 36, 40, 41, 37, 46, 91, 93, 43, 45] }

  // ---- globs -----------------------------------------------------------------------

  /** A glob in which only * and ? are special, and ? takes one byte. */
  predicate GlobMatches(g: bytes, s: bytes)
    decreases |g| + |s|
  {
    if g == [] then s == []
    else if g[0] == STAR then GlobMatches(g[1..], s) || (s != [] && GlobMatches(g, s[1..]))
    else s != [] && (g[0] == QUESTION || g[0] == s[0]) && GlobMatches(g[1..], s[1..])
  }

  /** The match of bytes with ASCII case folded. What fnmatch makes of characters is in Globs. */
  predicate GlobMatchesFolded(g: bytes, s: bytes) { GlobMatches(LowerAll(g), LowerAll(s)) }

  // ---- Lua patterns, section 6.4.1 of the Lua 5.4 manual -------------------------------

  predicate IsAlnum(c: byte) { 48 <= c <= 57 || 65 <= c <= 90 || 97 <= c <= 122 }

  /** Length of the character class at the front of p; 0 for captures, sets and letter classes. */
  function ClassLength(p: bytes): (n: nat)
    requires p != []
    ensures n <= |p|
  {
    if p[0] in [40, 41, 91] then 0
    else if p[0] == PERCENT then if |p| >= 2 && !IsAlnum(p[1]) then 2 else 0
    else 1
  }

  /** Does the class at the front of p contain c? */
  predicate InClass(c: byte, p: bytes)
    requires p != [] && ClassLength(p) > 0
  {
    if p[0] == PERCENT then c == p[1] else p[0] == DOT || c == p[0]
  }

  predicate IsSuffix(c: byte) { c == STAR || c == PLUS || c == MINUS || c == QUESTION }

  function ItemLength(p: bytes): (n: nat)
    requires p != [] && ClassLength(p) > 0
    ensures 0 < n <= |p|
  {
    var n := ClassLength(p);
    if n < |p| && IsSuffix(p[n]) then n + 1 else n
  }

  /** p is a sequence of single-character items, perhaps with repetitions. */
  predicate Simple(p: bytes) {
    p == [] || p == [DOLLAR] || (ClassLength(p) > 0 && Simple(p[ItemLength(p)..]))
  }

  /** Does p match a prefix of s? A final $ asks for the end of s. */
  predicate Matches(p: bytes, s: bytes)
    requires Simple(p)
    decreases |p| + |s|
  {
    if p == [] then true
    else if p == [DOLLAR] then s == []
    else
      var n := ClassLength(p);
      var rest := p[ItemLength(p)..];
      var one := s != [] && InClass(s[0], p);
      if n == |p| || !IsSuffix(p[n]) then one && Matches(rest, s[1..])
      else if p[n] == QUESTION then (one && Matches(rest, s[1..])) || Matches(rest, s)
      else if p[n] == PLUS then one && (Matches(rest, s[1..]) || Matches(p, s[1..]))
      else Matches(rest, s) || (one && Matches(p, s[1..]))
  }

  /** string.find(s, p) for an anchored pattern. */
  predicate Finds(p: bytes, s: bytes)
    requires p != [] && p[0] == CARET && Simple(p[1..])
  {
    Matches(p[1..], s)
  }

  // ---- the translation --------------------------------------------------------------------

  /** What one glob character becomes. */
  function Item(c: byte): bytes {
    var l := Lower(c);
    if l == STAR then [DOT, STAR]
    else if l == QUESTION then [DOT]
    else if Magic(l) then [PERCENT, l]
    else [l]
  }

  function Items(g: bytes): bytes {
    if g == [] then [] else Item(g[0]) + Items(g[1..])
  }

  function Pattern(g: bytes): bytes { [CARET] + Items(g) + [DOLLAR] }

  lemma ItemsAppend(g: bytes, c: byte)
    ensures Items(g + [c]) == Items(g) + Item(c)
  {
    hide Item;
    if g == [] {
      assert [c][1..] == [];
      assert g + [c] == [c];
    } else {
      ItemsAppend(g[1..], c);
      assert (g + [c])[1..] == g[1..] + [c];
    }
  }

  lemma ItemIs(c: byte)
    ensures var l := Lower(c);
            Item(c) == if l == STAR then [DOT, STAR] else if l == QUESTION then [DOT]
                       else if Magic(l) then [PERCENT, l] else [l]
  {
  }

  method GlobToLuaPattern(glob: bytes) returns (b: bytes)
    ensures b == Pattern(glob)
  {
    hide Item;
    b := [CARET];
    assert Items(glob[..0]) == [];
    for i := 0 to |glob|
      invariant b == [CARET] + Items(glob[..i])
    {
      var c := Lower(glob[i]);
      ItemIs(glob[i]);
      if c == STAR { b := b + [DOT, STAR]; }
      else if c == QUESTION { b := b + [DOT]; }
      else if Magic(c) { b := b + [PERCENT, c]; }
      else { b := b + [c]; }
      ItemsAppend(glob[..i], glob[i]);
      assert glob[..i + 1] == glob[..i] + [glob[i]];
    }
    assert glob[..|glob|] == glob;
    b := b + [DOLLAR];
  }

  // ---- the translation means the same ---------------------------------------------------------

  /** An item never reads as the repetition of the one before it. */
  lemma RestIsNoSuffix(g: bytes)
    ensures var r := Items(g) + [DOLLAR]; r != [] && !IsSuffix(r[0])
  {
    if g != [] {
      var l := Lower(g[0]);
      assert (Items(g) + [DOLLAR])[0] == Item(g[0])[0];
      assert l == PLUS || l == MINUS ==> Magic(l);
    }
  }

  /** A literal, escaped or not, or a dot takes exactly one byte. */
  lemma OneByteItem(c: byte, r: bytes, s: bytes)
    requires Lower(c) != STAR && r != [] && !IsSuffix(r[0]) && Simple(r)
    ensures var p := Item(c) + r;
            Simple(p)
            && (Matches(p, s) <==> s != [] && (Lower(c) == QUESTION || Lower(c) == s[0]) && Matches(r, s[1..]))
  {
    var p, l := Item(c) + r, Lower(c);
    assert p != [DOLLAR];
    if Magic(l) && l != QUESTION {
      assert p[0] == PERCENT && p[1] == l && !IsAlnum(l);
      assert p[2] == r[0] && p[2..] == r && ItemLength(p) == 2;
    } else {
      assert p[1] == r[0] && p[1..] == r;
      assert p[0] == if l == QUESTION then DOT else l;
      assert p[0] !in [40, 41, 91] && p[0] != PERCENT;
      assert ItemLength(p) == 1;
    }
  }

  /** A star takes any number of bytes. */
  lemma StarItem(r: bytes, s: bytes)
    requires Simple(r)
    ensures var p := [DOT, STAR] + r;
            Simple(p) && (Matches(p, s) <==> Matches(r, s) || (s != [] && Matches(p, s[1..])))
  {
    var p := [DOT, STAR] + r;
    assert p[0] == DOT && p[1] == STAR && p[2..] == r && ItemLength(p) == 2;
  }

  lemma {:induction false} ItemsMatch(g: bytes, s: bytes)
    ensures Simple(Items(g) + [DOLLAR])
    ensures Matches(Items(g) + [DOLLAR], s) <==> GlobMatches(LowerAll(g), s)
    decreases |g| + |s|
  {
    hide Item, Matches, Simple, Magic, IsSuffix;
    if g == [] {
      EndOnly(s);
      assert [] + [DOLLAR] == [DOLLAR];
    } else {
      var r := Items(g[1..]) + [DOLLAR];
      assert Items(g) + [DOLLAR] == Item(g[0]) + r;
      assert LowerAll(g)[1..] == LowerAll(g[1..]);
      RestIsNoSuffix(g[1..]);
      ItemsMatch(g[1..], s);
      if s != [] { ItemsMatch(g[1..], s[1..]); }
      if Lower(g[0]) == STAR {
        ItemIs(g[0]);
        StarItem(r, s);
        if s != [] { ItemsMatch(g, s[1..]); }
      } else {
        OneByteItem(g[0], r, s);
      }
    }
  }

  lemma EndOnly(s: bytes)
    ensures Simple([DOLLAR]) && (Matches([DOLLAR], s) <==> s == [])
  {
  }

  /** The pattern finds the lowercased class exactly when the case-folded glob matches the bytes of the class. */
  lemma PatternMeansGlob(glob: bytes, cls: bytes)
    ensures Pattern(glob)[0] == CARET && Simple(Pattern(glob)[1..])
    ensures Finds(Pattern(glob), LowerAll(cls)) <==> GlobMatchesFolded(glob, cls)
  {
    assert Pattern(glob)[1..] == Items(glob) + [DOLLAR];
    ItemsMatch(glob, LowerAll(cls));
  }

  // ---- string literals, section 3.1 of the Lua 5.4 manual -----------------------------------------

  const QUOTE: byte := 34
  const BACKSLASH: byte := 92

  /** %03u */
  function ThreeDigits(c: byte): bytes {
    [48 + c / 100, 48 + c / 10 % 10, 48 + c % 10]
  }

  /** How one byte is written inside the quotes. */
  function Escaped(c: byte): bytes {
    if c == QUOTE || c == BACKSLASH then [BACKSLASH, c]
    else if c == 10 then [BACKSLASH, 110]
    else if c < 0x20 || c == 0x7F then [BACKSLASH] + ThreeDigits(c)
    else [c]
  }

  function AllEscaped(s: bytes): bytes {
    if s == [] then [] else Escaped(s[0]) + AllEscaped(s[1..])
  }

  function Quoted(s: bytes): bytes { [QUOTE] + AllEscaped(s) + [QUOTE] }

  lemma EscapedAppend(s: bytes, c: byte)
    ensures AllEscaped(s + [c]) == AllEscaped(s) + Escaped(c)
  {
    if s == [] {
      assert [c][1..] == [] && s + [c] == [c];
    } else {
      EscapedAppend(s[1..], c);
      assert (s + [c])[1..] == s[1..] + [c];
    }
  }

  lemma NothingEscaped(s: bytes)
    ensures AllEscaped(s[..0]) == []
  {
  }

  method LuaQuote(s: bytes) returns (b: bytes)
    ensures b == Quoted(s)
  {
    hide ThreeDigits, AllEscaped;
    b := [QUOTE];
    NothingEscaped(s);
    for i := 0 to |s|
      invariant b == [QUOTE] + AllEscaped(s[..i])
    {
      var c := s[i];
      if c == QUOTE || c == BACKSLASH { b := b + [BACKSLASH, c]; }
      else if c == 10 { b := b + [BACKSLASH, 110]; }
      else if c < 0x20 || c == 0x7F { b := b + ([BACKSLASH] + ThreeDigits(c)); }
      else { b := b + [c]; }
      EscapedAppend(s[..i], c);
      assert s[..i + 1] == s[..i] + [c];
    }
    assert s[..|s|] == s;
    b := b + [QUOTE];
  }

  predicate IsDigit(c: byte) { 48 <= c <= 57 }

  /** How many of the first three bytes are digits. */
  function DigitRun(t: bytes): (n: nat)
    ensures n <= |t| && n <= 3
  {
    if t == [] || !IsDigit(t[0]) then 0
    else if |t| == 1 || !IsDigit(t[1]) then 1
    else if |t| == 2 || !IsDigit(t[2]) then 2
    else 3
  }

  function Decimal(t: bytes, n: nat): nat
    requires n <= |t|
  {
    if n == 0 then 0 else Decimal(t, n - 1) * 10 + if IsDigit(t[n - 1]) then t[n - 1] as int - 48 else 0
  }

  /** The byte a one-letter escape stands for. */
  function Letter(c: byte): Option<byte> {
    if c == 97 then Some(7) else if c == 98 then Some(8) else if c == 102 then Some(12)
    else if c == 110 then Some(10) else if c == 114 then Some(13) else if c == 116 then Some(9)
    else if c == 118 then Some(11)
    else if c == QUOTE || c == BACKSLASH || c == 39 || c == 10 then Some(c)
    else None
  }

  /**
   * What Lua reads after an opening double quote, if the literal is well formed
   * and ends with the text. The x, z and u escapes are not read.
   */
  function ReadRest(t: bytes): Option<bytes>
    decreases |t|
  {
    if t == [] || t[0] == 10 || t[0] == 13 then None
    else if t[0] == QUOTE then (if |t| == 1 then Some([]) else None)
    else if t[0] != BACKSLASH then Then(t[0], ReadRest(t[1..]))
    else if |t| == 1 then None
    else if IsDigit(t[1]) then
      var n := DigitRun(t[1..]);
      var v := Decimal(t[1..], n);
      if v > 255 then None else Then(v, ReadRest(t[1 + n..]))
    else match Letter(t[1])
      case Some(c) => Then(c, ReadRest(t[2..]))
      case None => None
  }

  function Then(c: byte, rest: Option<bytes>): Option<bytes> {
    if rest.Some? then Some([c] + rest.value) else None
  }

  function ReadLiteral(t: bytes): Option<bytes> {
    if t == [] || t[0] != QUOTE then None else ReadRest(t[1..])
  }

  /** Three digits always: a digit that follows is never taken into the escape. */
  lemma ReadOne(c: byte, rest: bytes)
    ensures ReadRest(Escaped(c) + rest) == Then(c, ReadRest(rest))
  {
    hide Decimal;
    var t := Escaped(c) + rest;
    if c == QUOTE || c == BACKSLASH || c == 10 {
      assert t[0] == BACKSLASH && t[2..] == rest;
    } else if c < 0x20 || c == 0x7F {
      assert t[0] == BACKSLASH && t[1] == 48 + c / 100 && t[2] == 48 + c / 10 % 10 && t[3] == 48 + c % 10;
      assert t[4..] == rest && t[1..][0] == t[1] && t[1..][1] == t[2] && t[1..][2] == t[3];
      DecimalOfThree(t[1..], c);
    } else {
      assert t[1..] == rest;
    }
  }

  lemma DecimalOfThree(t: bytes, c: byte)
    requires |t| >= 3 && t[..3] == ThreeDigits(c)
    ensures IsDigit(t[0]) && DigitRun(t) == 3 && Decimal(t, 3) == c as int
  {
    assert t[0] == t[..3][0] && t[1] == t[..3][1] && t[2] == t[..3][2];
    DigitsOf(c);
    assert Decimal(t, 1) == c as int / 100;
  }

  lemma DigitsOf(c: nat)
    ensures c / 100 * 10 + c / 10 % 10 == c / 10
    ensures c / 10 * 10 + c % 10 == c
  {
    assert c / 100 == c / 10 / 10;
  }

  lemma {:induction false} ReadAll(s: bytes)
    ensures ReadRest(AllEscaped(s) + [QUOTE]) == Some(s)
  {
    hide Escaped;
    if s == [] {
      assert [] + [QUOTE] == [QUOTE];
    } else {
      ReadAll(s[1..]);
      ReadOne(s[0], AllEscaped(s[1..]) + [QUOTE]);
      assert AllEscaped(s) + [QUOTE] == Escaped(s[0]) + (AllEscaped(s[1..]) + [QUOTE]);
      assert [s[0]] + s[1..] == s;
    }
  }

  /** Reading a quoted string back gives the string. */
  lemma QuotedReadsBack(s: bytes)
    ensures ReadLiteral(Quoted(s)) == Some(s)
  {
    ReadAll(s);
    assert Quoted(s)[1..] == AllEscaped(s) + [QUOTE];
  }

  /** End to end: the text sent to Lua decides a class as the glob does. */
  lemma SentPatternMeansGlob(glob: bytes, cls: bytes)
    ensures var p := ReadLiteral(Quoted(Pattern(glob)));
            && p.Some? && p.value != [] && p.value[0] == CARET && Simple(p.value[1..])
            && (Finds(p.value, LowerAll(cls)) <==> GlobMatchesFolded(glob, cls))
  {
    QuotedReadsBack(Pattern(glob));
    PatternMeansGlob(glob, cls);
  }
}
