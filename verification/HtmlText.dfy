/**
 * Visible text of an HTML fragment (daemon/src/textutil.c): bytes are copied
 * one at a time while tags, comments, scripts and entities are cut out.
 */
module HtmlText {
  import opened Bytes
  import opened Utf8

  const LT: byte := 60
  const GT: byte := 62
  const AMP: byte := 38
  const SEMICOLON: byte := 59
  const SLASH: byte := 47
  const HASH: byte := 35
  const NL: byte := 10
  const TAB: byte := 9
  const SPACE: byte := 32

  function Ascii(s: string): bytes {
    seq(|s|, i requires 0 <= i < |s| => (s[i] as int) % 128)
  }

  /** put_utf8: anything that is not a usable character becomes U+FFFD. */
  function PutUtf8(cp: nat): bytes {
    if cp == 0 || !Scalar(cp) then Encode(0xFFFD) else Encode(cp)
  }

  lemma PutUtf8IsWell(cp: nat)
    ensures Well(PutUtf8(cp))
  {
    var c := if cp == 0 || !Scalar(cp) then 0xFFFD else cp;
    EncodedIsWell([c]);
    assert EncodeAll([c]) == Encode(c) + EncodeAll([c][1..]) == Encode(c);
  }

  // ---- entities -------------------------------------------------------------------

  const NAMED: seq<(string, nat)> := [
    ("amp", 0x26), ("lt", 0x3C), ("gt", 0x3E), ("quot", 0x22), ("apos", 0x27),
    ("nbsp", 0xA0), ("copy", 0xA9), ("reg", 0xAE), ("hellip", 0x2026),
    ("mdash", 0x2014), ("ndash", 0x2013), ("lsquo", 0x2018), ("rsquo", 0x2019),
    ("ldquo", 0x201C), ("rdquo", 0x201D), ("bull", 0x2022), ("middot", 0xB7)]

  /** The entry of a named entity, searched from i on. */
  function Lookup(name: bytes, i: nat): Option<nat>
    decreases |NAMED| - i
  {
    if i >= |NAMED| then None
    else if Ascii(NAMED[i].0) == name then Some(NAMED[i].1)
    else Lookup(name, i + 1)
  }

  function DigitValue(c: byte): nat {
    if 48 <= c <= 57 then c as int - 48
    else if 97 <= c <= 122 then c as int - 87
    else if 65 <= c <= 90 then c as int - 55
    else 99
  }

  predicate IsSpace(c: byte) { c == 32 || 9 <= c <= 13 }

  /** Number and count of the leading digits of t in a base. */
  function Digits(t: bytes, base: nat, acc: nat): (nat, nat) {
    if t == [] || DigitValue(t[0]) >= base then (acc, 0)
    else var (v, n) := Digits(t[1..], base, acc * base + DigitValue(t[0])); (v, n + 1)
  }

  const TWO64: nat := 0x1_0000_0000_0000_0000

  /** strtoul on a C string: the value, and how many bytes were used. */
  function Strtoul(t: bytes, base: nat): (nat, nat) {
    if t != [] && IsSpace(t[0]) then
      var (v, n) := Strtoul(t[1..], base); (v, if n == 0 then 0 else n + 1)
    else
      var sign := if t != [] && t[0] in [43, 45] then 1 else 0;
      var u := t[sign..];
      var prefix := if base == 16 && |u| > 2 && u[0] == 48 && u[1] in [120, 88] && DigitValue(u[2]) < 16 then 2 else 0;
      var (v, n) := Digits(u[prefix..], base, 0);
      if n == 0 then (0, 0)
      else
        var w := if v >= TWO64 then TWO64 - 1
                 else if sign == 1 && t[0] == 45 then (TWO64 - v) % TWO64 else v;
        (w, sign + prefix + n)
  }

  /** Up to the first NUL. */
  function CString(t: bytes): bytes {
    if t == [] || t[0] == 0 then [] else [t[0]] + CString(t[1..])
  }

  /** The character a numeric entity body names; None when it is not a number throughout. */
  function Numeric(body: bytes): Option<nat> {
    var t := CString(body);
    var hex := t != [] && t[0] in [120, 88];
    var digits := if hex then t[1..] else t;
    var (v, n) := Strtoul(digits, if hex then 16 else 10);
    if n == |digits| then Some(v) else None
  }

  /** Position of the ';' within the first twelve bytes, else where the search gave up. */
  function EntityEnd(s: bytes, end: nat): (e: nat)
    requires end <= |s|
    ensures end <= e <= |s| || e == end
    decreases |s| - end
  {
    if end < |s| && end < 12 && s[end] != SEMICOLON then EntityEnd(s, end + 1) else end
  }

  datatype Decoded = Decoded(used: nat, text: bytes)

  /** The entity at the front of s; nothing used when it is not one we know. */
  function Entity(s: bytes): (d: Decoded)
    requires s != [] && s[0] == AMP
    ensures d.used <= |s|
    ensures d.used > 0 ==> s[d.used - 1] == SEMICOLON && Well(d.text)
  {
    var end := EntityEnd(s, 1);
    if end >= |s| || s[end] != SEMICOLON then Decoded(0, [])
    else if s[1] == HASH then
      var len := end - 2;
      if len == 0 || len >= 16 then Decoded(0, [])
      else match Numeric(s[2..end])
        case None => Decoded(0, [])
        case Some(cp) => PutUtf8IsWell(cp); Decoded(end + 1, PutUtf8(cp))
    else match Lookup(s[1..end], 0)
      case None => Decoded(0, [])
      case Some(cp) => PutUtf8IsWell(cp); Decoded(end + 1, PutUtf8(cp))
  }

  // ---- tags --------------------------------------------------------------------------

  predicate IsAlnum(c: byte) { 48 <= c <= 57 || 65 <= c <= 90 || 97 <= c <= 122 }

  /** tag_is: equal but for ASCII case. */
  predicate TagIs(tag: bytes, name: bytes) {
    |tag| == |name| && forall i :: 0 <= i < |tag| ==> Lower(tag[i]) == Lower(name[i])
  }

  const BLOCKS := ["p", "div", "br", "li", "tr", "h1", "h2", "h3", "h4", "h5", "h6",
                   "pre", "blockquote", "table", "ul", "ol", "hr", "section", "article"]

  predicate IsBlock(tag: bytes) { exists k :: 0 <= k < |BLOCKS| && TagIs(tag, Ascii(BLOCKS[k])) }

  function NameEnd(s: bytes, j: nat): (e: nat)
    requires j <= |s|
    ensures j <= e <= |s|
    decreases |s| - j
  {
    if j < |s| && IsAlnum(s[j]) then NameEnd(s, j + 1) else j
  }

  /** Just past the first c at or after j; the end of s when there is none. */
  function Past(s: bytes, j: nat, c: byte): (e: nat)
    requires j <= |s|
    ensures j <= e <= |s|
    ensures e < |s| ==> e > j && s[e - 1] == c
    decreases |s| - j
  {
    if j == |s| then j else if s[j] == c then j + 1 else Past(s, j + 1, c)
  }

  const OPEN_COMMENT: bytes := [60, 33, 45, 45]
  const CLOSE_COMMENT: bytes := [45, 45, 62]

  /** Just past the first "-->" at or after j; the end of s when there is none. */
  function PastComment(s: bytes, j: nat): (e: nat)
    requires j <= |s|
    ensures j <= e <= |s|
    ensures e < |s| ==> e > j && s[e - 1] == GT
    decreases |s| - j
  {
    if |s| - j < 3 then |s|
    else if s[j..j + 3] == CLOSE_COMMENT then j + 3
    else PastComment(s, j + 1)
  }

  /** A separator, unless the text is empty or already at the start of a line. */
  function Separate(out: bytes, c: byte): bytes {
    if out != [] && out[|out| - 1] != NL then out + [c] else out
  }

  // ---- the scanner ----------------------------------------------------------------------

  datatype State = State(i: nat, skip: Option<bytes>, out: bytes)

  const SCRIPT: bytes := Ascii("script")
  const STYLE: bytes := Ascii("style")

  /** A tag at st.i: what it does to the text and to skipping. */
  function Tag(s: bytes, st: State): (r: State)
    requires st.i < |s| && s[st.i] == LT
    ensures st.i < r.i <= |s| && (r.i < |s| ==> s[r.i - 1] == GT)
  {
    var j := st.i + 1;
    var closing := j < |s| && s[j] == SLASH;
    var start := if closing then j + 1 else j;
    var end := NameEnd(s, start);
    var name := s[start..end];
    if OPEN_COMMENT <= s[st.i..] then st.(i := PastComment(s, st.i + 4))
    else
      var after := Past(s, end, GT);
      if st.skip.Some? then
        State(after, if closing && TagIs(name, st.skip.value) then None else st.skip, st.out)
      else
        var skip := if closing then None
                    else if TagIs(name, SCRIPT) then Some(SCRIPT)
                    else if TagIs(name, STYLE) then Some(STYLE) else None;
        var out := if IsBlock(name) then Separate(st.out, NL) else st.out;
        State(after, skip, if IsCell(name) && !closing then Separate(out, TAB) else out)
  }

  predicate IsCell(tag: bytes) { TagIs(tag, Ascii("td")) || TagIs(tag, Ascii("th")) }

  /** One turn of the scanning loop. */
  function Step(s: bytes, st: State): (r: State)
    requires st.i < |s|
    ensures st.i < r.i <= |s|
  {
    if s[st.i] == LT then Tag(s, st)
    else if st.skip.Some? then st.(i := st.i + 1)
    else
      var d := if s[st.i] == AMP then Entity(s[st.i..]) else Decoded(0, []);
      if d.used > 0 then State(st.i + d.used, None, st.out + d.text)
      else State(st.i + 1, None, st.out + [s[st.i]])
  }

  function Scan(s: bytes, st: State): bytes
    requires st.i <= |s|
    decreases |s| - st.i
  {
    if st.i == |s| then st.out else Scan(s, Step(s, st))
  }

  predicate Blank(c: byte) { c == NL || c == SPACE || c == TAB }

  function Trimmed(b: bytes): bytes {
    if b != [] && Blank(b[|b| - 1]) then Trimmed(b[..|b| - 1]) else b
  }

  function Visible(s: bytes): bytes { Trimmed(Scan(s, State(0, None, []))) }

  // ---- what it guarantees --------------------------------------------------------------------

  /**
   * In text, what is out so far and what is still to come make up well-formed
   * text together; while skipping, what is out is well formed by itself.
   */
  ghost predicate Sound(s: bytes, st: State) {
    st.i <= |s| && if st.skip.Some? then Well(st.out) else Well(st.out + s[st.i..])
  }

  lemma SoundAtAscii(s: bytes, st: State)
    requires Well(s) && Sound(s, st) && st.i < |s| && s[st.i] < 0x80
    ensures Well(st.out) && Well(s[st.i..])
  {
    hide Well;
    WellAtAscii(s, st.i);
    if st.skip.None? {
      var t := st.out + s[st.i..];
      WellAtAscii(t, |st.out|);
      assert t[..|st.out|] == st.out;
    }
  }

  /** After a cut that ends just past an ASCII byte, or at the end, text can go on. */
  lemma SoundAfterCut(s: bytes, out: bytes, i: nat)
    requires Well(s) && Well(out) && 0 < i <= |s| && (i < |s| ==> s[i - 1] < 0x80)
    ensures Well(out + s[i..])
  {
    hide Well;
    if i < |s| {
      WellAtAscii(s, i - 1);
      WellConcat(out, s[i..]);
    } else {
      assert out + s[i..] == out;
    }
  }

  lemma SeparateIsWell(out: bytes, c: byte)
    requires Well(out) && c < 0x80
    ensures Well(Separate(out, c))
  {
    hide Well;
    AsciiIsWell(c);
    WellConcat(out, [c]);
  }

  /** A tag adds at most its separators. */
  lemma TagOut(s: bytes, st: State)
    requires st.i < |s| && s[st.i] == LT
    ensures var o, r := st.out, Tag(s, st).out;
            r == o || r == Separate(o, NL) || r == Separate(o, TAB) || r == Separate(Separate(o, NL), TAB)
  {
    hide IsBlock, TagIs, IsCell, Separate, PastComment, Past, NameEnd;
  }

  lemma TagKeepsSound(s: bytes, st: State)
    requires Well(s) && Sound(s, st) && st.i < |s| && s[st.i] == LT
    ensures Sound(s, Tag(s, st))
  {
    hide Well, Tag, Separate;
    SoundAtAscii(s, st);
    TagOut(s, st);
    SeparateIsWell(st.out, NL);
    SeparateIsWell(st.out, TAB);
    SeparateIsWell(Separate(st.out, NL), TAB);
    SoundAfterCut(s, Tag(s, st).out, Tag(s, st).i);
  }

  lemma StepKeepsSound(s: bytes, st: State)
    requires Well(s) && Sound(s, st) && st.i < |s|
    ensures Sound(s, Step(s, st))
  {
    hide Well, Tag, Entity;
    if s[st.i] == LT {
      TagKeepsSound(s, st);
    } else if st.skip.None? {
      var d := if s[st.i] == AMP then Entity(s[st.i..]) else Decoded(0, []);
      if d.used > 0 {
        SoundAtAscii(s, st);
        WellConcat(st.out, d.text);
        assert s[st.i..][d.used - 1] == s[st.i + d.used - 1];
        SoundAfterCut(s, st.out + d.text, st.i + d.used);
      } else {
        assert st.out + s[st.i..] == (st.out + [s[st.i]]) + s[st.i + 1..];
      }
    }
  }

  lemma {:induction false} ScanIsWell(s: bytes, st: State)
    requires Well(s) && Sound(s, st)
    ensures Well(Scan(s, st))
    decreases |s| - st.i
  {
    hide Well, Step;
    if st.i == |s| {
      assert st.out + s[st.i..] == st.out;
    } else {
      StepKeepsSound(s, st);
      ScanIsWell(s, Step(s, st));
    }
  }

  lemma {:induction false} TrimmedIsWell(b: bytes)
    requires Well(b)
    ensures Well(Trimmed(b))
  {
    hide Well;
    if b != [] && Blank(b[|b| - 1]) {
      WellAtAscii(b, |b| - 1);
      TrimmedIsWell(b[..|b| - 1]);
    }
  }

  /** Cutting byte by byte never breaks a character: valid input gives valid output. */
  lemma VisibleIsUtf8(s: bytes)
    requires IsUtf8(s)
    ensures IsUtf8(Visible(s))
  {
    hide Well, IsUtf8, Step;
    WellIsUtf8(s);
    assert [] + s[0..] == s;
    ScanIsWell(s, State(0, None, []));
    TrimmedIsWell(Scan(s, State(0, None, [])));
    WellIsUtf8(Visible(s));
  }

  /** Text without markup is returned as it is, but for blanks at the end. */
  lemma PlainTextIsKept(s: bytes)
    requires LT !in s && AMP !in s
    ensures Visible(s) == Trimmed(s)
  {
    PlainScan(s, 0);
    assert s[..0] == [];
  }

  lemma {:induction false} PlainScan(s: bytes, i: nat)
    requires i <= |s| && LT !in s && AMP !in s
    ensures Scan(s, State(i, None, s[..i])) == s
    decreases |s| - i
  {
    hide Tag, Entity;
    if i < |s| {
      assert Step(s, State(i, None, s[..i])) == State(i + 1, None, s[..i] + [s[i]]);
      assert s[..i] + [s[i]] == s[..i + 1];
      PlainScan(s, i + 1);
    } else {
      assert s[..i] == s;
    }
  }

  /** No tag survives: '<' comes out only where an entity asked for it. */
  lemma NoTagSurvives(s: bytes)
    requires AMP !in s
    ensures LT !in Visible(s)
  {
    ScanDropsTags(s, State(0, None, []));
    TrimmedIsPrefix(Scan(s, State(0, None, [])));
  }

  lemma {:induction false} ScanDropsTags(s: bytes, st: State)
    requires AMP !in s && st.i <= |s| && LT !in st.out
    ensures LT !in Scan(s, st)
    decreases |s| - st.i
  {
    hide IsBlock, TagIs, IsCell, PastComment, Past, NameEnd, Entity;
    if st.i < |s| { ScanDropsTags(s, Step(s, st)); }
  }

  lemma {:induction false} TrimmedIsPrefix(b: bytes)
    ensures Trimmed(b) <= b
    ensures var t := Trimmed(b);
            && (t != [] ==> t[|t| - 1] != ' ' as int && t[|t| - 1] != '\t' as int && t[|t| - 1] != '\n' as int)
            && forall k :: |t| <= k < |b| ==> b[k] == ' ' as int || b[k] == '\t' as int || b[k] == '\n' as int
  {
    if b != [] && Blank(b[|b| - 1]) { TrimmedIsPrefix(b[..|b| - 1]); }
  }

  /** Inside a script or a style nothing comes out, and only its own closing tag ends it. */
  lemma SkippingAddsNothing(s: bytes, st: State)
    requires st.i < |s| && st.skip.Some?
    ensures var r := Step(s, st);
            && r.out == st.out
            && (r.skip == st.skip
                || (r.skip == None && s[st.i] == LT && st.i + 1 < |s| && s[st.i + 1] == SLASH
                    && TagIs(s[st.i + 2..NameEnd(s, st.i + 2)], st.skip.value)))
  {
    hide TagIs, Past, PastComment, NameEnd, IsBlock, IsCell, Separate, Entity;
  }

  // ---- documents -----------------------------------------------------------------------------

  /** The name of a character that has one. */
  function NameFor(cp: nat): Option<string> {
    if cp == '&' as int then Some("amp") else if cp == '<' as int then Some("lt") else if cp == '>' as int then Some("gt")
    else if cp == '"' as int then Some("quot") else if cp == '\'' as int then Some("apos") else if cp == 160 then Some("nbsp")
    else if cp == 169 then Some("copy") else if cp == 174 then Some("reg") else if cp == 8230 then Some("hellip")
    else if cp == 8212 then Some("mdash") else if cp == 8211 then Some("ndash") else if cp == 8216 then Some("lsquo")
    else if cp == 8217 then Some("rsquo") else if cp == 8220 then Some("ldquo") else if cp == 8221 then Some("rdquo")
    else if cp == 8226 then Some("bull") else if cp == 183 then Some("middot") else None
  }

  const DIGITS := "0123456789abcdef"

  function DigitFor(v: nat): byte
    requires v < 16
  {
    (DIGITS[v] as int) % 128
  }

  /** n written in base ten or sixteen. */
  function Numeral(n: nat, hex: bool): (d: bytes)
    ensures d != []
  {
    var (more, last) := if hex then (n / 16, n % 16) else (n / 10, n % 10);
    (if more == 0 then [] else Numeral(more, hex)) + [DigitFor(last)]
  }

  /** How a character is written: as it is, by its name, or by its number. */
  datatype Writing = Raw | ByName | Decimal | Hexadecimal

  datatype Piece =
    | Letter(cp: nat, how: Writing)
    | Markup(closing: bool, name: bytes, rest: bytes)
    | Comment(body: bytes)
    | Hidden(script: bool, attributes: bytes, body: bytes, rest: bytes)

  predicate Wordy(name: bytes) {
    forall c :: c in name ==> '0' as int <= c <= '9' as int || 'a' as int <= c <= 'z' as int || 'A' as int <= c <= 'Z' as int
  }

  /** What may follow a tag's name, up to its end. */
  predicate Trailing(rest: bytes) { GT !in rest && (rest == [] || !Wordy(rest[..1])) }

  ghost predicate EndsFirst(body: bytes) {
    forall k :: 0 <= k < |body| ==> !Stands(body + CLOSE_COMMENT, k, CLOSE_COMMENT)
  }

  ghost predicate Proper(p: Piece) {
    match p
    case Letter(cp, how) =>
      && Scalar(cp) && cp != 0
      && (how.Raw? ==> cp != '&' as int && cp != '<' as int) && (how.ByName? ==> NameFor(cp).Some?)
    case Markup(closing, name, rest) =>
      && Wordy(name) && Trailing(rest)
      && (name == [] && !closing && rest != [] ==> rest[0] != '/' as int && !(['!' as int, '-' as int, '-' as int] <= rest))
      && (!closing ==> !TagIs(name, SCRIPT) && !TagIs(name, STYLE))
    case Comment(body) => EndsFirst(body)
    case Hidden(_, attributes, body, rest) => Trailing(attributes) && LT !in body && Trailing(rest)
  }

  function HiddenName(script: bool): bytes { if script then SCRIPT else STYLE }

  function SourceOf(p: Piece): bytes {
    match p
    case Letter(cp, how) =>
      (match how
       case Raw => if Scalar(cp) then Encode(cp) else []
       case ByName => [AMP] + Ascii(if NameFor(cp).Some? then NameFor(cp).value else "") + [SEMICOLON]
       case Decimal => [AMP, HASH] + Numeral(cp, false) + [SEMICOLON]
       case Hexadecimal => [AMP, HASH, 'x' as int] + Numeral(cp, true) + [SEMICOLON])
    case Markup(closing, name, rest) => [LT] + (if closing then [SLASH] else []) + name + rest + [GT]
    case Comment(body) => OPEN_COMMENT + body + CLOSE_COMMENT
    case Hidden(script, attributes, body, rest) =>
      [LT] + HiddenName(script) + attributes + [GT] + body + [LT, SLASH] + HiddenName(script) + rest + [GT]
  }

  /** The text after a piece: characters are themselves, a block starts a line, a cell is set off. */
  function Shown(out: bytes, p: Piece): bytes {
    match p
    case Letter(cp, _) => if Scalar(cp) then out + Encode(cp) else out
    case Markup(closing, name, _) =>
      var o := if IsBlock(name) && out != [] && out[|out| - 1] != NL then out + [NL] else out;
      if IsCell(name) && !closing && o != [] && o[|o| - 1] != NL then o + [TAB] else o
    case Comment(_) => out
    case Hidden(_, _, _, _) => out
  }

  function Document(ps: seq<Piece>): bytes {
    if ps == [] then [] else SourceOf(ps[0]) + Document(ps[1..])
  }

  function Text(out: bytes, ps: seq<Piece>): bytes
    decreases |ps|
  {
    if ps == [] then out else Text(Shown(out, ps[0]), ps[1..])
  }

  /** t stands in s from i on. */
  predicate Stands(s: bytes, i: nat, t: bytes) { i + |t| <= |s| && s[i..i + |t|] == t }

  lemma StandsBoth(s: bytes, i: nat, t: bytes, u: bytes)
    requires Stands(s, i, t + u)
    ensures Stands(s, i, t) && Stands(s, i + |t|, u)
  {
    assert s[i..i + |t|] == s[i..i + |t + u|][..|t|] == t;
    assert s[i + |t|..i + |t| + |u|] == s[i..i + |t + u|][|t|..] == u;
  }

  lemma StandsAt(s: bytes, i: nat, t: bytes, k: nat)
    requires Stands(s, i, t) && k < |t|
    ensures i + k < |s| && s[i + k] == t[k]
  {
    assert s[i..i + |t|][k] == s[i + k];
  }

  lemma OneStep(s: bytes, st: State)
    requires st.i < |s|
    ensures Scan(s, st) == Scan(s, Step(s, st))
  {
    hide Step;
  }

  lemma PlainStep(s: bytes, i: nat, out: bytes)
    requires i < |s| && s[i] != LT && s[i] != AMP
    ensures Step(s, State(i, None, out)) == State(i + 1, None, out + [s[i]])
  {
    hide Tag, Entity;
  }

  /** Bytes that are neither markup nor references come out as they are. */
  lemma {:induction false} BytesScan(s: bytes, i: nat, out: bytes, t: bytes)
    requires Stands(s, i, t) && LT !in t && AMP !in t
    ensures Scan(s, State(i, None, out)) == Scan(s, State(i + |t|, None, out + t))
    decreases |t|
  {
    hide Scan, Step, Stands;
    if t == [] {
      assert out + t == out;
    } else {
      StandsAt(s, i, t, 0);
      assert t[0] in t && t == [t[0]] + t[1..];
      PlainStep(s, i, out);
      OneStep(s, State(i, None, out));
      StandsBoth(s, i, [t[0]], t[1..]);
      assert forall c :: c in t[1..] ==> c in t;
      BytesScan(s, i + 1, out + [t[0]], t[1..]);
      assert out + [t[0]] + t[1..] == out + t;
    }
  }

  lemma RawIsPlain(cp: nat)
    requires Scalar(cp) && cp != '&' as int && cp != '<' as int
    ensures LT !in Encode(cp) && AMP !in Encode(cp)
  {
  }

  /** A reference is read to its semicolon. */
  lemma {:induction false} EndOfEntity(t: bytes, body: bytes, end: nat)
    requires 1 <= end <= 1 + |body| <= 12 && Stands(t, 1, body + [SEMICOLON]) && SEMICOLON !in body
    ensures EntityEnd(t, end) == 1 + |body|
    decreases |body| - end
  {
    StandsAt(t, 1, body + [SEMICOLON], end - 1);
    if end <= |body| {
      assert body[end - 1] in body;
      EndOfEntity(t, body, end + 1);
    }
  }

  /** With no semicolon within reach an ampersand is no reference. */
  lemma FarIsNoEntity(s: bytes)
    requires s != [] && s[0] == AMP && forall k :: 1 <= k < |s| && k <= 12 ==> s[k] != ';' as int
    ensures Entity(s).used == 0
  {
    hide Numeric, Lookup;
    EndIsNear(s, 1);
  }

  lemma {:induction false} EndIsNear(s: bytes, end: nat)
    requires end <= |s| && end <= 12
    ensures EntityEnd(s, end) <= 12
    decreases |s| - end
  {
    if end < |s| && end < 12 && s[end] != SEMICOLON { EndIsNear(s, end + 1); }
  }

  lemma NamesDiffer()
    ensures forall i, j :: 0 <= i < j < |NAMED| ==> NAMED[i].0 != NAMED[j].0
    ensures forall i :: 0 <= i < |NAMED| ==> 0 < |NAMED[i].0| <= 6 && forall c :: c in NAMED[i].0 ==> 'a' <= c <= 'z'
  {
  }

  /** Each entry of the table is the name of its character, and each name is in the table. */
  lemma NameIsListed(cp: nat) returns (k: nat)
    requires NameFor(cp).Some?
    ensures k < |NAMED| && NAMED[k] == (NameFor(cp).value, cp)
  {
    k := if cp == 38 then 0 else if cp == 60 then 1 else if cp == 62 then 2 else if cp == 34 then 3 else if cp == 39 then 4
         else if cp == 160 then 5 else if cp == 169 then 6 else if cp == 174 then 7 else if cp == 8230 then 8
         else if cp == 8212 then 9 else if cp == 8211 then 10 else if cp == 8216 then 11 else if cp == 8217 then 12
         else if cp == 8220 then 13 else if cp == 8221 then 14 else if cp == 8226 then 15 else 16;
  }

  lemma AsciiIsInjective(a: string, b: string)
    requires (forall c :: c in a ==> 'a' <= c <= 'z') && (forall c :: c in b ==> 'a' <= c <= 'z') && Ascii(a) == Ascii(b)
    ensures a == b
  {
    assert |a| == |Ascii(a)| == |b|;
    forall i | 0 <= i < |a| ensures a[i] == b[i] {
      assert a[i] in a && b[i] in b && Ascii(a)[i] == Ascii(b)[i];
    }
  }

  lemma {:induction false} LookupFinds(k: nat, i: nat)
    requires i <= k < |NAMED|
    ensures Lookup(Ascii(NAMED[k].0), i) == Some(NAMED[k].1)
    decreases k - i
  {
    hide Ascii, NAMED;
    NamesDiffer();
    if i < k {
      if Ascii(NAMED[i].0) == Ascii(NAMED[k].0) { AsciiIsInjective(NAMED[i].0, NAMED[k].0); }
      LookupFinds(k, i + 1);
    }
  }

  // References by number.

  lemma DigitIs(v: nat)
    requires v < 16
    ensures var c := DigitFor(v);
            DigitValue(c) == v && (v < 10 ==> 48 <= c <= 57) && (v >= 10 ==> 97 <= c <= 102)
  {
  }

  /** Digits are read from the left; one more at the right counts for its value. */
  lemma {:induction false} DigitsMore(t: bytes, c: byte, base: nat, acc: nat)
    requires Digits(t, base, acc).1 == |t| && DigitValue(c) < base
    ensures Digits(t + [c], base, acc) == (Digits(t, base, acc).0 * base + DigitValue(c), |t| + 1)
  {
    hide DigitValue;
    if t == [] {
      assert t + [c] == [c] && [c][1..] == [];
      assert Digits([c][1..], base, acc * base + DigitValue(c)) == (acc * base + DigitValue(c), 0);
    } else {
      assert (t + [c])[1..] == t[1..] + [c] && (t + [c])[0] == t[0];
      DigitsMore(t[1..], c, base, acc * base + DigitValue(t[0]));
    }
  }

  /** A numeral has few digits, and reads back. */
  lemma {:induction false} NumeralIs(n: nat, hex: bool)
    ensures var d := Numeral(n, hex);
            && Digits(d, if hex then 16 else 10, 0) == (n, |d|)
            && forall c :: c in d ==> 48 <= c <= 57 || (hex && 97 <= c <= 102)
  {
    hide DigitValue, Digits, DigitFor;
    var (more, last) := if hex then (n / 16, n % 16) else (n / 10, n % 10);
    var base := if hex then 16 else 10;
    var init := if more == 0 then [] else Numeral(more, hex);
    DigitIs(last);
    if more == 0 { NoDigits(base); } else { NumeralIs(more, hex); }
    DigitsMore(init, DigitFor(last), base, 0);
  }

  lemma NoDigits(base: nat)
    ensures Digits([], base, 0) == (0, 0)
  {
  }

  lemma {:induction false} NumeralIsShort(n: nat, hex: bool, k: nat)
    requires n < Power(k + 1)
    ensures |Numeral(n, hex)| <= k + 1
    decreases k
  {
    if k > 0 {
      NumeralIsShort(n / 10, false, k - 1);
      NumeralIsShort(n / 16, true, k - 1);
    }
  }

  function Power(k: nat): nat { if k == 0 then 1 else 10 * Power(k - 1) }

  lemma {:induction false} NoNul(t: bytes)
    requires 0 !in t
    ensures CString(t) == t
  {
    if t != [] {
      assert t[0] in t && forall c :: c in t[1..] ==> c in t;
      NoNul(t[1..]);
    }
  }

  /** strtoul reads digits alone as their number. */
  lemma StrtoulIs(d: bytes, hex: bool, n: nat)
    requires d != [] && Digits(d, if hex then 16 else 10, 0) == (n, |d|) && n < TWO64
    requires forall c :: c in d ==> 48 <= c <= 57 || (hex && 97 <= c <= 102)
    ensures Strtoul(d, if hex then 16 else 10) == (n, |d|)
  {
    hide Digits;
    assert d[0] in d && d[0..] == d;
    if |d| > 1 { assert d[1] in d; }
  }

  // What strtoul reads: white space, a sign, for base sixteen a prefix, digits, and where it stops.

  predicate White(s: bytes) {
    forall c :: c in s ==> c == ' ' as int || c == '\t' as int || c == '\n' as int || c == 11 || c == 12 || c == '\r' as int
  }

  predicate IsDigit(c: byte, hex: bool) {
    || '0' as int <= c <= '9' as int
    || (hex && ('a' as int <= c <= 'f' as int || 'A' as int <= c <= 'F' as int))
  }

  function DigitOf(c: byte): nat {
    if '0' as int <= c <= '9' as int then c as int - '0' as int
    else if 'a' as int <= c then 10 + (c as int - 'a' as int)
    else if 'A' as int <= c then 10 + (c as int - 'A' as int) else 0
  }

  function NumberOf(d: bytes, hex: bool): nat {
    if d == [] then 0 else NumberOf(d[..|d| - 1], hex) * (if hex then 16 else 10) + DigitOf(d[|d| - 1])
  }

  predicate AllDigits(d: bytes, hex: bool) { d != [] && forall c :: c in d ==> IsDigit(c, hex) }
  predicate StopsDigits(rest: bytes, hex: bool) { rest == [] || !IsDigit(rest[0], hex) }

  lemma DigitIsValue(c: byte, hex: bool)
    ensures IsDigit(c, hex) <==> DigitValue(c) < if hex then 16 else 10
    ensures IsDigit(c, hex) ==> DigitOf(c) == DigitValue(c)
    ensures IsDigit(c, hex) ==> !IsSpace(c) && c !in [43, 45, 120, 88]
  {
  }

  lemma {:induction false} DigitsOf(d: bytes, hex: bool)
    requires forall c :: c in d ==> IsDigit(c, hex)
    ensures Digits(d, if hex then 16 else 10, 0) == (NumberOf(d, hex), |d|)
  {
    hide DigitValue, DigitOf, IsDigit, Digits;
    var base := if hex then 16 else 10;
    NoDigits(base);
    if d != [] {
      var (init, last) := (d[..|d| - 1], d[|d| - 1]);
      assert d == init + [last] && last in d && forall c :: c in init ==> c in d;
      DigitsOf(init, hex);
      DigitIsValue(last, hex);
      DigitsMore(init, last, base, 0);
    }
  }

  lemma {:induction false} DigitsStop(d: bytes, rest: bytes, hex: bool, acc: nat)
    requires (forall c :: c in d ==> IsDigit(c, hex)) && StopsDigits(rest, hex)
    ensures Digits(d + rest, if hex then 16 else 10, acc) == Digits(d, if hex then 16 else 10, acc)
    ensures Digits(d, if hex then 16 else 10, acc).1 == |d|
  {
    hide DigitValue, IsDigit;
    var base := if hex then 16 else 10;
    if d == [] {
      assert d + rest == rest;
      if rest != [] { DigitIsValue(rest[0], hex); }
    } else {
      assert d[0] in d && (d + rest)[0] == d[0] && (d + rest)[1..] == d[1..] + rest && forall c :: c in d[1..] ==> c in d;
      DigitIsValue(d[0], hex);
      DigitsStop(d[1..], rest, hex, acc * base + DigitValue(d[0]));
    }
  }

  /** The value, as an unsigned 64-bit number: too large a one is the largest, a negative one wraps. */
  function Clamped(v: nat, sign: bytes): nat {
    if v >= 0x1_0000_0000_0000_0000 then 0xFFFF_FFFF_FFFF_FFFF
    else if sign == ['-' as int] && v > 0 then 0x1_0000_0000_0000_0000 - v else v
  }

  predicate IsSign(sign: bytes) { sign == [] || sign == ['+' as int] || sign == ['-' as int] }
  predicate IsPrefix(prefix: bytes, hex: bool) {
    prefix == [] || (hex && (prefix == ['0' as int, 'x' as int] || prefix == ['0' as int, 'X' as int]))
  }

  /** A number that only looks like a prefix. */
  predicate LooksPrefixed(d: bytes, rest: bytes) {
    d == ['0' as int] && |rest| > 1 && (rest[0] == 'x' as int || rest[0] == 'X' as int) && IsDigit(rest[1], true)
  }

  /** strtoul reads just such a number, and stops behind its digits. */
  lemma {:induction false} StrtoulReads(space: bytes, sign: bytes, prefix: bytes, d: bytes, rest: bytes, hex: bool)
    requires White(space) && IsSign(sign) && IsPrefix(prefix, hex) && AllDigits(d, hex) && StopsDigits(rest, hex)
    requires hex && prefix == [] ==> !LooksPrefixed(d, rest)
    ensures Strtoul(space + (sign + (prefix + (d + rest))), if hex then 16 else 10)
         == (Clamped(NumberOf(d, hex), sign), |space| + |sign| + |prefix| + |d|)
    decreases |space|
  {
    hide Digits, DigitValue, NumberOf, Clamped;
    var t := space + (sign + (prefix + (d + rest)));
    if space != [] {
      assert space[0] in space && t[1..] == space[1..] + (sign + (prefix + (d + rest))) && forall c :: c in space[1..] ==> c in space;
      StrtoulReads(space[1..], sign, prefix, d, rest, hex);
      OneSpace(t, if hex then 16 else 10);
    } else {
      assert t == sign + (prefix + (d + rest));
      SignedReads(t, sign, prefix, d, rest, hex);
    }
  }

  lemma OneSpace(t: bytes, base: nat)
    requires t != [] && IsSpace(t[0])
    ensures var (v, n) := Strtoul(t[1..], base); Strtoul(t, base) == (v, if n == 0 then 0 else n + 1)
  {
  }

  lemma SignedReads(t: bytes, sign: bytes, prefix: bytes, d: bytes, rest: bytes, hex: bool)
    requires t == sign + (prefix + (d + rest))
    requires IsSign(sign) && IsPrefix(prefix, hex) && AllDigits(d, hex) && StopsDigits(rest, hex)
    requires hex && prefix == [] ==> !LooksPrefixed(d, rest)
    ensures Strtoul(t, if hex then 16 else 10) == (Clamped(NumberOf(d, hex), sign), |sign| + |prefix| + |d|)
  {
    hide *;
    var u := prefix + (d + rest);
    SignSeen(t, sign, u);
    FirstIs(prefix, d, rest, hex);
    DigitsOf(d, hex);
    DigitsStop(d, rest, hex, 0);
    PrefixSeen(prefix, d, rest, hex);
    PrefixIs(prefix, hex);
    assert u[|prefix|..] == d + rest;
    StrtoulUnfolds(t, |sign|, |prefix|, if hex then 16 else 10, NumberOf(d, hex), |d|);
    ClampedIs(NumberOf(d, hex), sign, t);
  }

  lemma SignSeen(t: bytes, sign: bytes, u: bytes)
    requires IsSign(sign) && t == sign + u
    ensures |sign| <= 1 && t[|sign|..] == u
    ensures u != [] && u[0] != 43 && u[0] != 45 ==> |sign| == if t[0] in [43, 45] then 1 else 0
    ensures u != [] && !IsSpace(u[0]) ==> !IsSpace(t[0])
    ensures t != [] && t[0] == 45 && |sign| == 1 <==> sign == [45]
  {
  }

  lemma FirstIs(prefix: bytes, d: bytes, rest: bytes, hex: bool)
    requires IsPrefix(prefix, hex) && AllDigits(d, hex)
    ensures |d| > 0 && forall c :: c in d ==> IsDigit(c, hex)
    ensures var u := prefix + (d + rest); u != [] && u[0] != 43 && u[0] != 45 && !IsSpace(u[0])
  {
    assert d[0] in d;
    DigitIsValue(d[0], hex);
  }

  lemma PrefixIs(prefix: bytes, hex: bool)
    requires IsPrefix(prefix, hex)
    ensures |prefix| == 0 || (hex && |prefix| == 2)
  {
  }

  lemma StrtoulUnfolds(t: bytes, sign: nat, prefix: nat, base: nat, v: nat, n: nat)
    requires t != [] && !IsSpace(t[0]) && sign == (if t[0] in [43, 45] then 1 else 0)
    requires prefix == (var u := t[sign..]; if base == 16 && |u| > 2 && u[0] == 48 && u[1] in [120, 88] && DigitValue(u[2]) < 16 then 2 else 0)
    requires sign + prefix <= |t| && Digits(t[sign..][prefix..], base, 0) == (v, n) && n > 0
    ensures Strtoul(t, base) ==
            (if v >= TWO64 then TWO64 - 1 else if sign == 1 && t[0] == 45 then (TWO64 - v) % TWO64 else v, sign + prefix + n)
  {
    hide Digits, DigitValue, IsSpace;
  }

  lemma ClampedIs(v: nat, sign: bytes, t: bytes)
    requires IsSign(sign) && t != [] && (t[0] == 45 && |sign| == 1 <==> sign == [45])
    ensures Clamped(v, sign) ==
            if v >= TWO64 then TWO64 - 1 else if |sign| == 1 && t[0] == 45 then (TWO64 - v) % TWO64 else v
  {
    assert TWO64 == 0x1_0000_0000_0000_0000;
  }

  lemma PrefixSeen(prefix: bytes, d: bytes, rest: bytes, hex: bool)
    requires IsPrefix(prefix, hex) && AllDigits(d, hex) && StopsDigits(rest, hex)
    requires hex && prefix == [] ==> !LooksPrefixed(d, rest)
    ensures var u := prefix + (d + rest);
            hex ==> (|u| > 2 && u[0] == 48 && u[1] in [120, 88] && DigitValue(u[2]) < 16 <==> |prefix| == 2)
  {
    hide DigitValue;
    var u := prefix + (d + rest);
    assert d[0] in d;
    DigitIsValue(d[0], hex);
    if |d| > 1 { assert d[1] in d; DigitIsValue(d[1], hex); }
    if hex && |rest| > 1 { DigitIsValue(rest[1], hex); }
    if prefix == [] { assert u == d + rest; }
  }

  /** A reference by number is one only if the number is all there is. */
  lemma NumericReads(space: bytes, sign: bytes, prefix: bytes, d: bytes, rest: bytes, hex: bool)
    requires White(space) && IsSign(sign) && IsPrefix(prefix, hex) && AllDigits(d, hex) && StopsDigits(rest, hex)
    requires hex && prefix == [] ==> !LooksPrefixed(d, rest)
    requires 0 !in rest
    ensures forall x :: x in {'x' as int, 'X' as int} ==>
              Numeric((if hex then [x] else []) + (space + (sign + (prefix + (d + rest))))) ==
              if rest == [] then Some(Clamped(NumberOf(d, hex), sign)) else None
  {
    hide Strtoul, Clamped, NumberOf, CString, IsDigit;
    var t := space + (sign + (prefix + (d + rest)));
    StrtoulReads(space, sign, prefix, d, rest, hex);
    NoNulInside(space, sign, prefix, d, rest, hex);
    forall x | x in {'x' as int, 'X' as int}
      ensures Numeric((if hex then [x] else []) + t) == if rest == [] then Some(Clamped(NumberOf(d, hex), sign)) else None
    {
      var body := (if hex then [x] else []) + t;
      NoNul(body);
      assert body[if hex then 1 else 0..] == t;
    }
  }

  lemma NoNulInside(space: bytes, sign: bytes, prefix: bytes, d: bytes, rest: bytes, hex: bool)
    requires White(space) && IsSign(sign) && IsPrefix(prefix, hex) && AllDigits(d, hex) && 0 !in rest
    ensures var t := space + (sign + (prefix + (d + rest))); 0 !in t && t != [] && (!hex ==> t[0] != 120 && t[0] != 88)
  {
    assert d[0] in d;
    if space != [] { assert space[0] in space; }
  }

  /** A number in decimal, or in hexadecimal after an x, names its character. */
  lemma NumberIsRead(cp: nat, hex: bool)
    requires cp < TWO64
    ensures Numeric((if hex then ['x' as int] else []) + Numeral(cp, hex)) == Some(cp)
  {
    hide Strtoul, Digits, Numeral, CString;
    var d := Numeral(cp, hex);
    var body := (if hex then ['x' as int] else []) + d;
    NumeralIs(cp, hex);
    NoNul(body);
    assert d[0] in d;
    StrtoulIs(d, hex, cp);
    assert body[if hex then 1 else 0..] == d;
  }

  /** A reference at the front of s gives its character. */
  lemma EntityIsRead(s: bytes, cp: nat, how: Writing)
    requires Proper(Letter(cp, how)) && !how.Raw? && Stands(s, 0, SourceOf(Letter(cp, how)))
    ensures s != [] && s[0] == AMP && Entity(s) == Decoded(|SourceOf(Letter(cp, how))|, Encode(cp))
  {
    hide Numeric, Lookup, Numeral, Ascii, NAMED, NameFor, EntityEnd, Stands, Well;
    var body := BodyOf(cp, how);
    BodyIs(cp, how);
    BodyStands(s, body);
    EndOfEntity(s, body, 1);
    if how.ByName? {
      var k := NameIsListed(cp);
      LookupFinds(k, 0);
    } else {
      var hex := how.Hexadecimal?;
      NumberIsRead(cp, hex);
      assert body[1..] == (if hex then ['x' as int] else []) + Numeral(cp, hex);
      assert s[2..1 + |body|] == s[1..1 + |body|][1..] == body[1..] && s[1] == s[1..1 + |body|][0];
    }
  }

  /** What stands between '&' and ';'. */
  function BodyOf(cp: nat, how: Writing): bytes {
    match how
    case Raw => []
    case ByName => Ascii(if NameFor(cp).Some? then NameFor(cp).value else "")
    case Decimal => [HASH] + Numeral(cp, false)
    case Hexadecimal => [HASH, 'x' as int] + Numeral(cp, true)
  }

  lemma BodyStands(s: bytes, body: bytes)
    requires Stands(s, 0, [AMP] + body + [SEMICOLON])
    ensures |s| >= |body| + 2 && s[0] == AMP && s[1..1 + |body|] == body && s[1 + |body|] == SEMICOLON
    ensures Stands(s, 1, body + [SEMICOLON])
  {
    var t := [AMP] + body + [SEMICOLON];
    assert s[0] == t[0] && s[1..1 + |body|] == t[1..1 + |body|] && s[1 + |body|] == t[1 + |body|];
    assert s[1..1 + |body| + 1] == t[1..];
  }

  lemma BodyIs(cp: nat, how: Writing)
    requires Proper(Letter(cp, how)) && !how.Raw?
    ensures var body := BodyOf(cp, how);
            && SourceOf(Letter(cp, how)) == [AMP] + body + [SEMICOLON] && SEMICOLON !in body && 0 < |body| <= 9
            && (how.ByName? <==> body[0] != HASH)
  {
    hide Numeral, NAMED, NameFor;
    if how.ByName? {
      var k := NameIsListed(cp);
      NameIsWord(k);
    } else {
      var hex := how.Hexadecimal?;
      NumeralIs(cp, hex);
      assert Power(7) == 10000000 by { assert Power(4) == 10000; }
      NumeralIsShort(cp, hex, 6);
    }
  }

  lemma NameIsWord(k: nat)
    requires k < |NAMED|
    ensures var b := Ascii(NAMED[k].0); 0 < |b| <= 6 && SEMICOLON !in b && b[0] != HASH
  {
    hide NAMED;
    NamesDiffer();
    var b := Ascii(NAMED[k].0);
    forall i | 0 <= i < |b| ensures b[i] != SEMICOLON && b[i] != HASH { assert NAMED[k].0[i] in NAMED[k].0; }
  }

  /** A character comes out, however it is written. */
  lemma LetterScans(s: bytes, i: nat, out: bytes, p: Piece)
    requires p.Letter? && Proper(p) && Stands(s, i, SourceOf(p))
    ensures Scan(s, State(i, None, out)) == Scan(s, State(i + |SourceOf(p)|, None, Shown(out, p)))
  {
    hide Scan, Tag, Entity, Numeral, Ascii, NameFor, Encode;
    if p.how.Raw? {
      RawIsPlain(p.cp);
      BytesScan(s, i, out, Encode(p.cp));
    } else {
      var src := SourceOf(p);
      assert s[i..][..|src|] == s[i..i + |src|];
      EntityIsRead(s[i..], p.cp, p.how);
      OneStep(s, State(i, None, out));
    }
  }

  lemma {:induction false} NameEnds(s: bytes, j: nat, name: bytes, rest: bytes)
    requires Wordy(name) && Trailing(rest) && Stands(s, j, name + rest + [GT])
    ensures j <= |s| && NameEnd(s, j) == j + |name|
    decreases |name|
  {
    var t := name + rest + [GT];
    StandsAt(s, j, t, 0);
    if name == [] {
      if rest != [] { assert t[0] == rest[0] && rest[..1] == [rest[0]]; }
    } else {
      assert name[0] in name && t == [name[0]] + (name[1..] + rest + [GT]);
      StandsBoth(s, j, [name[0]], name[1..] + rest + [GT]);
      assert forall c :: c in name[1..] ==> c in name;
      NameEnds(s, j + 1, name[1..], rest);
    }
  }

  lemma {:induction false} PastIs(s: bytes, j: nat, rest: bytes, c: byte)
    requires c !in rest && Stands(s, j, rest + [c])
    ensures j <= |s| && Past(s, j, c) == j + |rest| + 1
    decreases |rest|
  {
    var t := rest + [c];
    StandsAt(s, j, t, 0);
    if rest != [] {
      assert rest[0] in rest && t == [rest[0]] + (rest[1..] + [c]);
      StandsBoth(s, j, [rest[0]], rest[1..] + [c]);
      assert forall x :: x in rest[1..] ==> x in rest;
      PastIs(s, j + 1, rest[1..], c);
    }
  }

  /** A tag is read to its end. */
  lemma TagReads(s: bytes, i: nat, skip: Option<bytes>, out: bytes, closing: bool, name: bytes, rest: bytes)
    requires Wordy(name) && Trailing(rest)
    requires name == [] && !closing && rest != [] ==> rest[0] != '/' as int && !(['!' as int, '-' as int, '-' as int] <= rest)
    requires Stands(s, i, [LT] + (if closing then [SLASH] else []) + name + rest + [GT])
    ensures i < |s| && s[i] == LT
    ensures var r := Tag(s, State(i, skip, out));
            && r.i == i + (if closing then 2 else 1) + |name| + |rest| + 1
            && (skip.Some? ==> r.out == out && r.skip == if closing && TagIs(name, skip.value) then None else skip)
            && (skip.None? ==>
                  && r.out == Shown(out, Markup(closing, name, rest))
                  && r.skip == if closing then None else if TagIs(name, SCRIPT) then Some(SCRIPT)
                               else if TagIs(name, STYLE) then Some(STYLE) else None)
  {
    hide Scan, Tag, Shown, TagIs, IsBlock, IsCell, Wordy, Trailing, NameEnd, Past, Stands;
    var (head, tail) := ([LT] + (if closing then [SLASH] else []), name + rest + [GT]);
    var start := i + |head|;
    assert [LT] + (if closing then [SLASH] else []) + name + rest + [GT] == head + tail;
    StandsBoth(s, i, head, tail);
    StandsAt(s, i, head + tail, 0);
    StandsAt(s, i, head + tail, 1);
    NotSlashed(name, rest);
    SecondByte(s, closing, name, rest, head + tail);
    NameEnds(s, start, name, rest);
    assert tail == name + (rest + [GT]);
    StandsBoth(s, start, name, rest + [GT]);
    TrailingHasNoEnd(rest);
    PastIs(s, start + |name|, rest, GT);
    NoComment(s, i, closing, name, rest);
    NameStands(s, start, name);
    TagFrom(s, i, skip, out, closing, name, rest);
  }

  lemma NameStands(s: bytes, i: nat, t: bytes)
    requires Stands(s, i, t)
    ensures i + |t| <= |s| && s[i..i + |t|] == t
  {
  }

  lemma TagFrom(s: bytes, i: nat, skip: Option<bytes>, out: bytes, closing: bool, name: bytes, rest: bytes)
    requires i < |s| && s[i] == LT && i + 1 < |s| && !(OPEN_COMMENT <= s[i..])
    requires closing <==> s[i + 1] == SLASH
    requires var start := if closing then i + 2 else i + 1;
             && start <= |s| && NameEnd(s, start) == start + |name| <= |s| && s[start..start + |name|] == name
             && Past(s, start + |name|, GT) == start + |name| + |rest| + 1
    ensures var r := Tag(s, State(i, skip, out));
            && r.i == i + (if closing then 2 else 1) + |name| + |rest| + 1
            && (skip.Some? ==> r.out == out && r.skip == if closing && TagIs(name, skip.value) then None else skip)
            && (skip.None? ==>
                  && r.out == Shown(out, Markup(closing, name, rest))
                  && r.skip == if closing then None else if TagIs(name, SCRIPT) then Some(SCRIPT)
                               else if TagIs(name, STYLE) then Some(STYLE) else None)
  {
    hide *;
    MarkupShows(out, closing, name, rest);
    var start := if closing then i + 2 else i + 1;
    TagUnfolds(s, State(i, skip, out), start, closing);
    var end := NameEnd(s, start);
    assert s[start..end] == name && Past(s, end, GT) == end + |rest| + 1;
  }

  lemma TagUnfolds(s: bytes, st: State, start: nat, closing: bool)
    requires st.i + 1 < |s| && s[st.i] == LT && !(OPEN_COMMENT <= s[st.i..])
    requires (closing <==> s[st.i + 1] == SLASH) && start == if closing then st.i + 2 else st.i + 1
    ensures start <= |s|
    ensures var end := NameEnd(s, start);
            var name := s[start..end];
            var o := if IsBlock(name) then Separate(st.out, NL) else st.out;
            Tag(s, st) ==
            State(Past(s, end, GT),
                  if st.skip.Some? then (if closing && TagIs(name, st.skip.value) then None else st.skip)
                  else if closing then None else if TagIs(name, SCRIPT) then Some(SCRIPT)
                  else if TagIs(name, STYLE) then Some(STYLE) else None,
                  if st.skip.Some? then st.out else if IsCell(name) && !closing then Separate(o, TAB) else o)
  {
    hide TagIs, IsBlock, IsCell, NameEnd, Past, PastComment, Separate, SCRIPT, STYLE, OPEN_COMMENT;
  }

  lemma MarkupShows(out: bytes, closing: bool, name: bytes, rest: bytes)
    ensures var o := if IsBlock(name) then Separate(out, NL) else out;
            Shown(out, Markup(closing, name, rest)) == if IsCell(name) && !closing then Separate(o, TAB) else o
  {
    hide IsBlock, IsCell;
  }

  lemma SecondByte(s: bytes, closing: bool, name: bytes, rest: bytes, t: bytes)
    requires t == ([LT] + (if closing then [SLASH] else [])) + (name + rest + [GT])
    requires (name != [] ==> name[0] != SLASH) && (name == [] && !closing && rest != [] ==> rest[0] != SLASH)
    ensures |t| > 1 && t[0] == LT && (t[1] == SLASH <==> closing)
  {
  }

  lemma TrailingHasNoEnd(rest: bytes)
    requires Trailing(rest)
    ensures GT !in rest
  {
  }

  lemma NotSlashed(name: bytes, rest: bytes)
    requires Wordy(name)
    ensures name != [] ==> name[0] != SLASH && name[0] != 33
  {
    if name != [] { assert name[0] in name; }
  }

  lemma NoComment(s: bytes, i: nat, closing: bool, name: bytes, rest: bytes)
    requires Wordy(name)
    requires name == [] && !closing && rest != [] ==> rest[0] != '/' as int && !(['!' as int, '-' as int, '-' as int] <= rest)
    requires Stands(s, i, [LT] + (if closing then [SLASH] else []) + name + rest + [GT])
    ensures !(OPEN_COMMENT <= s[i..])
  {
    var t := [LT] + (if closing then [SLASH] else []) + name + rest + [GT];
    StandsAt(s, i, t, 1);
    NotSlashed(name, rest);
    if OPEN_COMMENT <= s[i..] {
      assert s[i + 1] == s[i..][1] == 33 && s[i + 2] == s[i..][2] == 45 && s[i + 3] == s[i..][3] == 45;
      assert !closing && name == [] && rest != [] && rest[0] == 33;
      assert t == [LT] + rest + [GT];
      StandsAt(s, i, t, 2);
      assert |rest| > 1 && rest[1] == 45;
      StandsAt(s, i, t, 3);
      assert false;
    }
  }

  lemma MarkupScans(s: bytes, i: nat, out: bytes, p: Piece)
    requires p.Markup? && Proper(p) && Stands(s, i, SourceOf(p))
    ensures Scan(s, State(i, None, out)) == Scan(s, State(i + |SourceOf(p)|, None, Shown(out, p)))
  {
    hide Scan, Tag, TagIs, IsBlock, IsCell, Wordy, Trailing, Shown;
    TagReads(s, i, None, out, p.closing, p.name, p.rest);
    OneStep(s, State(i, None, out));
  }

  lemma {:induction false} CommentCloses(s: bytes, j: nat, body: bytes)
    requires EndsFirst(body) && Stands(s, j, body + CLOSE_COMMENT)
    ensures j <= |s| && PastComment(s, j) == j + |body| + 3
    decreases |body|
  {
    var t := body + CLOSE_COMMENT;
    assert s[j..j + 3] == t[..3] by { assert s[j..j + |t|][..3] == s[j..j + 3]; }
    if body == [] {
      assert t == CLOSE_COMMENT && t[..3] == t;
    } else {
      assert !Stands(t, 0, CLOSE_COMMENT) && t[0..0 + 3] == t[..3];
      assert t == [body[0]] + (body[1..] + CLOSE_COMMENT);
      StandsBoth(s, j, [body[0]], body[1..] + CLOSE_COMMENT);
      forall k | 0 <= k < |body| - 1 ensures !Stands(body[1..] + CLOSE_COMMENT, k, CLOSE_COMMENT) {
        assert !Stands(t, k + 1, CLOSE_COMMENT) && t[1..] == body[1..] + CLOSE_COMMENT;
        assert t[k + 1..k + 4] == t[1..][k..k + 3];
      }
      CommentCloses(s, j + 1, body[1..]);
    }
  }

  lemma CommentStep(s: bytes, st: State)
    requires Stands(s, st.i, OPEN_COMMENT)
    ensures st.i + 4 <= |s| && s[st.i] == LT && Tag(s, st) == st.(i := PastComment(s, st.i + 4))
  {
    hide TagIs, IsBlock, IsCell, NameEnd, Past, PastComment;
    assert s[st.i..][..4] == s[st.i..st.i + 4] && s[st.i] == s[st.i..st.i + 4][0];
  }

  lemma CommentParts(p: Piece)
    requires p.Comment?
    ensures SourceOf(p) == OPEN_COMMENT + (p.body + CLOSE_COMMENT) && |OPEN_COMMENT| == 4 && |CLOSE_COMMENT| == 3
    ensures (Proper(p) ==> EndsFirst(p.body)) && forall out :: Shown(out, p) == out
  {
    hide EndsFirst;
  }

  lemma CommentScans(s: bytes, i: nat, out: bytes, p: Piece)
    requires p.Comment? && Proper(p) && Stands(s, i, SourceOf(p))
    ensures Scan(s, State(i, None, out)) == Scan(s, State(i + |SourceOf(p)|, None, Shown(out, p)))
  {
    hide *;
    CommentParts(p);
    StandsBoth(s, i, OPEN_COMMENT, p.body + CLOSE_COMMENT);
    CommentStep(s, State(i, None, out));
    CommentCloses(s, i + 4, p.body);
    TagStep(s, State(i, None, out));
  }

  /** What is hidden is passed over. */
  lemma {:induction false} BodyScans(s: bytes, i: nat, skip: bytes, out: bytes, body: bytes)
    requires LT !in body && Stands(s, i, body)
    ensures Scan(s, State(i, Some(skip), out)) == Scan(s, State(i + |body|, Some(skip), out))
    decreases |body|
  {
    hide Scan, Tag, Entity;
    if body != [] {
      StandsAt(s, i, body, 0);
      assert body[0] in body && body == [body[0]] + body[1..];
      OneStep(s, State(i, Some(skip), out));
      StandsBoth(s, i, [body[0]], body[1..]);
      assert forall c :: c in body[1..] ==> c in body;
      BodyScans(s, i + 1, skip, out, body[1..]);
    }
  }

  lemma BlocksAre()
    ensures forall k :: 0 <= k < |BLOCKS| ==> |BLOCKS[k]| != 6 && (|BLOCKS[k]| == 5 ==> BLOCKS[k][0] == 't')
  {
  }

  lemma HiddenSpelled()
    ensures SCRIPT == [115, 99, 114, 105, 112, 116] && STYLE == [115, 116, 121, 108, 101]
  {
  }

  lemma HiddenIs(script: bool)
    ensures var n := HiddenName(script);
            && Wordy(n) && n != [] && TagIs(n, n) && (n == SCRIPT <==> script) && (n == STYLE <==> !script)
            && (script ==> TagIs(n, SCRIPT)) && (!script ==> !TagIs(n, SCRIPT) && TagIs(n, STYLE))
  {
    hide SCRIPT, STYLE, Lower;
    HiddenSpelled();
  }

  lemma HiddenIsNoBlock(script: bool)
    ensures !IsBlock(HiddenName(script)) && !IsCell(HiddenName(script))
  {
    hide BLOCKS;
    BlocksAre();
    var n := HiddenName(script);
    forall k | 0 <= k < |BLOCKS| ensures !TagIs(n, Ascii(BLOCKS[k])) {
      assert |Ascii(BLOCKS[k])| == |BLOCKS[k]|;
      assert |BLOCKS[k]| == 5 ==> Lower(Ascii(BLOCKS[k])[0]) == 't' as int && Lower(n[0]) == 's' as int;
    }
  }

  lemma TagStep(s: bytes, st: State)
    requires st.i < |s| && s[st.i] == LT
    ensures Step(s, st) == Tag(s, st) && Scan(s, st) == Scan(s, Tag(s, st))
  {
    OneStep(s, st);
  }

  lemma HiddenShows(out: bytes, script: bool, rest: bytes)
    ensures Shown(out, Markup(false, HiddenName(script), rest)) == out
  {
    hide IsBlock, IsCell, HiddenName;
    HiddenIsNoBlock(script);
  }

  lemma HiddenParts(p: Piece)
    requires p.Hidden?
    ensures var n := HiddenName(p.script);
            && SourceOf(p) == ([LT] + [] + n + p.attributes + [GT]) + (p.body + ([LT] + [SLASH] + n + p.rest + [GT]))
            && (Proper(p) ==> Trailing(p.attributes) && LT !in p.body && Trailing(p.rest)) && forall out :: Shown(out, p) == out
  {
    hide HiddenName, Trailing;
  }

  lemma HiddenScans(s: bytes, i: nat, out: bytes, p: Piece)
    requires p.Hidden? && Proper(p) && Stands(s, i, SourceOf(p))
    ensures Scan(s, State(i, None, out)) == Scan(s, State(i + |SourceOf(p)|, None, Shown(out, p)))
  {
    hide *;
    var n := HiddenName(p.script);
    HiddenIs(p.script);
    HiddenParts(p);
    HiddenShows(out, p.script, p.attributes);
    var (a, b, c) := ([LT] + [] + n + p.attributes + [GT], p.body, [LT] + [SLASH] + n + p.rest + [GT]);
    StandsBoth(s, i, a, b + c);
    StandsBoth(s, i + |a|, b, c);
    TagReads(s, i, None, out, false, n, p.attributes);
    TagStep(s, State(i, None, out));
    BodyScans(s, i + |a|, n, out, b);
    TagReads(s, i + |a| + |b|, Some(n), out, true, n, p.rest);
    TagStep(s, State(i + |a| + |b|, Some(n), out));
  }

  /**
   * The text of a document is what its pieces show, one after the other, but for
   * blanks at the end: characters however they are written, a new line for a
   * block, a tab before a cell, nothing for comments, scripts and styles.
   */
  lemma DocumentText(ps: seq<Piece>)
    requires forall p :: p in ps ==> Proper(p)
    ensures Visible(Document(ps)) == Trimmed(Text([], ps))
  {
    hide Scan, Trimmed, Document, Text;
    assert Document(ps)[0..] == Document(ps);
    PiecesScan(Document(ps), 0, [], ps);
  }

  lemma {:induction false} PiecesScan(s: bytes, i: nat, out: bytes, ps: seq<Piece>)
    requires (forall p :: p in ps ==> Proper(p)) && i <= |s| && s[i..] == Document(ps)
    ensures Scan(s, State(i, None, out)) == Text(out, ps)
    decreases |ps|
  {
    hide Proper, Step, SourceOf, Shown;
    if ps != [] {
      var p := ps[0];
      assert p in ps && Stands(s, i, SourceOf(p)) by { assert s[i..][..|SourceOf(p)|] == s[i..i + |SourceOf(p)|]; }
      assert s[i + |SourceOf(p)|..] == s[i..][|SourceOf(p)|..] == Document(ps[1..]);
      match p {
        case Letter(_, _) => LetterScans(s, i, out, p);
        case Markup(_, _, _) => MarkupScans(s, i, out, p);
        case Comment(_) => CommentScans(s, i, out, p);
        case Hidden(_, _, _, _) => HiddenScans(s, i, out, p);
      }
      assert forall q :: q in ps[1..] ==> q in ps;
      PiecesScan(s, i + |SourceOf(p)|, Shown(out, p), ps[1..]);
    }
  }

  // ---- the code ----------------------------------------------------------------------------------

  /** entity */
  method DecodeEntity(s: bytes) returns (d: Decoded)
    requires s != [] && s[0] == AMP
    ensures d == Entity(s)
  {
    hide Numeric, Well, PutUtf8;
    var end := 1;
    while end < |s| && end < 12 && s[end] != SEMICOLON
      invariant 1 <= end <= |s| && EntityEnd(s, end) == EntityEnd(s, 1)
    {
      end := end + 1;
    }
    if end >= |s| || s[end] != SEMICOLON { return Decoded(0, []); }
    if s[1] == HASH {
      var len := end - 2;
      if len == 0 || len >= 16 { return Decoded(0, []); }
      var cp := Numeric(s[2..end]);
      return if cp.None? then Decoded(0, []) else Decoded(end + 1, PutUtf8(cp.value));
    }
    var i := 0;
    while i < |NAMED|
      invariant i <= |NAMED| && Lookup(s[1..end], i) == Lookup(s[1..end], 0)
    {
      if Ascii(NAMED[i].0) == s[1..end] { return Decoded(end + 1, PutUtf8(NAMED[i].1)); }
      i := i + 1;
    }
    d := Decoded(0, []);
  }

  method FindPast(s: bytes, j: nat, c: byte) returns (e: nat)
    requires j <= |s|
    ensures e == Past(s, j, c)
  {
    e := j;
    while e < |s|
      invariant j <= e <= |s| && Past(s, j, c) == Past(s, e, c)
    {
      if s[e] == c { return e + 1; }
      e := e + 1;
    }
  }

  method FindPastComment(s: bytes, j: nat) returns (e: nat)
    requires j <= |s|
    ensures e == PastComment(s, j)
  {
    e := j;
    while |s| - e >= 3
      invariant j <= e <= |s| && PastComment(s, j) == PastComment(s, e)
    {
      if s[e..e + 3] == CLOSE_COMMENT { return e + 3; }
      e := e + 1;
    }
    e := |s|;
  }

  /** What a tag's name asks for, and where it ends. */
  method ReadTag(s: bytes, i: nat) returns (closing: bool, name: bytes, end: nat)
    requires i < |s| && s[i] == LT
    ensures closing == (i + 1 < |s| && s[i + 1] == SLASH)
    ensures var start := if closing then i + 2 else i + 1;
            start <= |s| && end == NameEnd(s, start) && name == s[start..end]
  {
    var j := i + 1;
    closing := j < |s| && s[j] == SLASH;
    if closing { j := j + 1; }
    var start := j;
    while j < |s| && IsAlnum(s[j])
      invariant start <= j <= |s| && NameEnd(s, start) == NameEnd(s, j)
    {
      j := j + 1;
    }
    end := j;
    name := s[start..end];
  }

  /** The tag at position i, with the text so far in out. */
  method OnTag(s: bytes, i: nat, skip: Option<bytes>, out: bytes) returns (st: State)
    requires i < |s| && s[i] == LT
    ensures st == Tag(s, State(i, skip, out))
  {
    hide TagIs, NameEnd, Past, PastComment, IsCell;
    var closing, name, end := ReadTag(s, i);
    if i + 3 < |s| && s[i..i + 4] == OPEN_COMMENT {
      CommentOpens(s, i);
      var e := FindPastComment(s, i + 4);
      return State(e, skip, out);
    }
    CommentOpens(s, i);
    var after := FindPast(s, end, GT);
    if skip.Some? {
      return State(after, if closing && TagIs(name, skip.value) then None else skip, out);
    }
    var skip' := skip;
    if !closing && (TagIs(name, SCRIPT) || TagIs(name, STYLE)) {
      skip' := Some(if TagIs(name, SCRIPT) then SCRIPT else STYLE);
    }
    var out' := out;
    var k := 0;
    while k < |BLOCKS|
      invariant k <= |BLOCKS| && out' == out
      invariant forall m :: 0 <= m < k ==> !TagIs(name, Ascii(BLOCKS[m]))
    {
      if TagIs(name, Ascii(BLOCKS[k])) {
        out' := Separate(out, NL);
        break;
      }
      k := k + 1;
    }
    assert out' == if IsBlock(name) then Separate(out, NL) else out;
    if IsCell(name) && !closing { out' := Separate(out', TAB); }
    st := State(after, skip', out');
  }

  lemma CommentOpens(s: bytes, i: nat)
    requires i < |s|
    ensures OPEN_COMMENT <= s[i..] <==> i + 3 < |s| && s[i..i + 4] == OPEN_COMMENT
  {
    if i + 3 < |s| { assert s[i..][..4] == s[i..i + 4]; }
  }

  method HtmlToText(s: bytes) returns (out: bytes)
    ensures out == Visible(s)
    ensures IsUtf8(s) ==> IsUtf8(out)
  {
    hide Tag, Entity, IsUtf8, Well;
    out := [];
    var i := 0;
    var skip: Option<bytes> := None;
    while i < |s|
      invariant i <= |s| && Scan(s, State(0, None, [])) == Scan(s, State(i, skip, out))
    {
      ghost var st := State(i, skip, out);
      if s[i] == LT {
        var r := OnTag(s, i, skip, out);
        i, skip, out := r.i, r.skip, r.out;
        continue;
      }
      if skip.Some? {
        i := i + 1;
        continue;
      }
      if s[i] == AMP {
        var d := DecodeEntity(s[i..]);
        EntityUsed(s[i..]);
        if d.used > 0 {
          out := out + d.text;
          i := i + d.used;
          continue;
        }
      }
      out := out + [s[i]];
      i := i + 1;
    }
    ghost var all := out;
    while out != [] && Blank(out[|out| - 1])
      invariant Trimmed(out) == Trimmed(all)
      decreases |out|
    {
      out := out[..|out| - 1];
    }
    if IsUtf8(s) { VisibleIsUtf8(s); }
  }

  lemma EntityUsed(s: bytes)
    requires s != [] && s[0] == AMP
    ensures Entity(s).used <= |s|
  {
  }
}
