/**
 * Listing and searching (daemon/src/db.c): terms, the two query plans, the
 * page, and the counts.
 */
module Search {
  import opened Bytes
  import opened Schema
  import Order
  import Utf8

  // ---- LIKE ---------------------------------------------------------------------

  const PERCENT: byte := 37
  const UNDERSCORE: byte := 95
  const BACKSLASH: byte := 92
  const QUOTE: byte := 34

  /** Equal but for the case of ASCII letters. */
  predicate SameRun(a: bytes, b: bytes) {
    |a| == |b| && forall i :: 0 <= i < |a| ==> Lower(a[i]) == Lower(b[i])
  }

  /** One character: its first byte and the bytes that continue it. */
  function AfterChar(s: bytes): (r: bytes)
    requires s != []
    ensures |r| < |s|
  {
    SkipContinuation(s[1..])
  }

  function SkipContinuation(s: bytes): (r: bytes)
    ensures |r| <= |s|
  {
    if s != [] && Utf8.Continues(s[0]) then SkipContinuation(s[1..]) else s
  }

  /** SQLite's LIKE with ESCAPE '\'. */
  predicate Like(p: bytes, s: bytes)
    decreases |p| + |s|
  {
    if p == [] then s == []
    else if p[0] == PERCENT then Like(p[1..], s) || (s != [] && Like(p, s[1..]))
    else if p[0] == UNDERSCORE then s != [] && Like(p[1..], AfterChar(s))
    else if p[0] == BACKSLASH then |p| > 1 && s != [] && Lower(p[1]) == Lower(s[0]) && Like(p[2..], s[1..])
    else s != [] && Lower(p[0]) == Lower(s[0]) && Like(p[1..], s[1..])
  }

  predicate Special(c: byte) { c == PERCENT || c == UNDERSCORE || c == BACKSLASH }

  function Escaped(t: bytes): bytes {
    if t == [] then [] else (if Special(t[0]) then [BACKSLASH, t[0]] else [t[0]]) + Escaped(t[1..])
  }

  function Pattern(t: bytes): bytes { [PERCENT] + Escaped(t) + [PERCENT] }

  /** t occurs in s as it stands. */
  ghost predicate Contains(s: bytes, t: bytes) { exists i :: OccursAt(s, t, i) }

  predicate OccursAt(s: bytes, t: bytes, i: int) { 0 <= i <= |s| - |t| && SameRun(t, s[i..i + |t|]) }

  lemma {:induction false} LikeAnything(s: bytes)
    ensures Like([PERCENT], s)
  {
    if s != [] {
      LikeAnything(s[1..]);
    } else {
      assert Like([PERCENT][1..], s);
    }
  }

  /** An escaped character stands for itself. */
  lemma LikeOne(c: byte, p: bytes, s: bytes)
    ensures Like((if Special(c) then [BACKSLASH, c] else [c]) + p, s)
         == (s != [] && Lower(c) == Lower(s[0]) && Like(p, s[1..]))
  {
    var q := (if Special(c) then [BACKSLASH, c] else [c]) + p;
    assert q[if Special(c) then 2 else 1..] == p;
  }

  lemma {:induction false} LikeLiteral(t: bytes, p: bytes, s: bytes)
    ensures Like(Escaped(t) + p, s) <==> |t| <= |s| && SameRun(t, s[..|t|]) && Like(p, s[|t|..])
    decreases |t|
  {
    hide Like, Lower;
    if t == [] {
      assert Escaped(t) + p == p && s[0..] == s;
    } else {
      var e := if Special(t[0]) then [BACKSLASH, t[0]] else [t[0]];
      assert Escaped(t) + p == e + (Escaped(t[1..]) + p);
      LikeOne(t[0], Escaped(t[1..]) + p, s);
      if s != [] {
        LikeLiteral(t[1..], p, s[1..]);
        if |t| <= |s| {
          assert s[1..][|t| - 1..] == s[|t|..];
          RunStep(t, s[..|t|]);
          assert s[..|t|][1..] == s[1..][..|t| - 1];
        }
      }
    }
  }

  lemma RunStep(a: bytes, b: bytes)
    requires a != [] && |a| == |b|
    ensures SameRun(a, b) <==> Lower(a[0]) == Lower(b[0]) && SameRun(a[1..], b[1..])
  {
    hide Lower;
    if Lower(a[0]) == Lower(b[0]) && SameRun(a[1..], b[1..]) {
      forall i | 0 <= i < |a| ensures Lower(a[i]) == Lower(b[i]) {
        assert i > 0 ==> a[1..][i - 1] == a[i] && b[1..][i - 1] == b[i];
      }
    }
    if SameRun(a, b) {
      forall i | 0 <= i < |a| - 1 ensures Lower(a[1..][i]) == Lower(b[1..][i]) {
        assert a[1..][i] == a[i + 1] && b[1..][i] == b[i + 1];
      }
    }
  }

  /** An escaped pattern matches exactly the texts that contain the term literally. */
  lemma {:induction false} PatternIsLiteral(t: bytes, s: bytes)
    ensures Like(Pattern(t), s) <==> Contains(s, t)
    decreases |s|
  {
    hide SameRun, Escaped, Contains;
    var p := Escaped(t) + [PERCENT];
    assert Pattern(t) == [PERCENT] + p && Pattern(t)[1..] == p;
    LikeLiteral(t, [PERCENT], s);
    if |t| <= |s| {
      LikeAnything(s[|t|..]);
    }
    if s != [] {
      PatternIsLiteral(t, s[1..]);
      ContainsLater(s, t);
    } else {
      ContainsEmpty(t);
      assert t == [] ==> s[..|t|] == t;
    }
  }

  lemma ContainsEmpty(t: bytes)
    ensures Contains([], t) <==> |t| == 0
    ensures SameRun([], [])
  {
    if t == [] {
      assert OccursAt([], t, 0);
    }
  }

  lemma ContainsLater(s: bytes, t: bytes)
    requires s != []
    ensures Contains(s, t) <==> (|t| <= |s| && SameRun(t, s[..|t|])) || Contains(s[1..], t)
  {
    hide SameRun;
    if |t| <= |s| && SameRun(t, s[..|t|]) {
      assert s[0..0 + |t|] == s[..|t|];
      assert OccursAt(s, t, 0);
    }
    if Contains(s[1..], t) {
      var i :| OccursAt(s[1..], t, i);
      assert s[1..][i..i + |t|] == s[i + 1..i + 1 + |t|];
      assert OccursAt(s, t, i + 1);
    }
    if Contains(s, t) {
      var i :| OccursAt(s, t, i);
      if i > 0 {
        assert s[1..][i - 1..i - 1 + |t|] == s[i..i + |t|];
        assert OccursAt(s[1..], t, i - 1);
      } else {
        assert s[0..|t|] == s[..|t|];
      }
    }
  }

  // ---- full-text expressions ------------------------------------------------------

  /** " AND " */
  const AND: bytes := [32, 65, 78, 68, 32]

  function Doubled(t: bytes): bytes {
    if t == [] then [] else (if t[0] == QUOTE then [QUOTE, QUOTE] else [t[0]]) + Doubled(t[1..])
  }

  function Quoted(t: bytes): bytes { [QUOTE] + Doubled(t) + [QUOTE] }

  function Expression(ts: seq<bytes>): bytes {
    if ts == [] then []
    else if |ts| == 1 then Quoted(ts[0])
    else Quoted(ts[0]) + AND + Expression(ts[1..])
  }

  /** The rest of an FTS5 string, up to its closing quote, and what follows it. */
  function ReadString(s: bytes): (r: Option<(bytes, bytes)>)
    ensures r.Some? ==> |r.value.1| < |s|
  {
    if s == [] then None
    else if s[0] == QUOTE then
      if |s| > 1 && s[1] == QUOTE then
        match ReadString(s[2..])
        case Some((t, rest)) => Some(([QUOTE] + t, rest))
        case None => None
      else Some(([], s[1..]))
    else
      match ReadString(s[1..])
      case Some((t, rest)) => Some(([s[0]] + t, rest))
      case None => None
  }

  /** FTS5's reading of phrases joined by AND. */
  function ReadExpression(s: bytes): Option<seq<bytes>>
    decreases |s|
  {
    if s == [] || s[0] != QUOTE then None
    else
      match ReadString(s[1..])
      case None => None
      case Some((t, rest)) =>
        if rest == [] then Some([t])
        else if |rest| > 5 && rest[..5] == AND then
          match ReadExpression(rest[5..])
          case Some(ts) => Some([t] + ts)
          case None => None
        else None
  }

  lemma {:induction false} StringReadsBack(t: bytes, rest: bytes)
    requires rest == [] || rest[0] != QUOTE
    ensures ReadString(Doubled(t) + [QUOTE] + rest) == Some((t, rest))
  {
    var s := Doubled(t) + [QUOTE] + rest;
    if t == [] {
      assert s == [QUOTE] + rest && s[1..] == rest;
    } else {
      StringReadsBack(t[1..], rest);
      var more := Doubled(t[1..]) + [QUOTE] + rest;
      assert s == (if t[0] == QUOTE then [QUOTE, QUOTE] else [t[0]]) + more;
      assert s[if t[0] == QUOTE then 2 else 1..] == more;
      assert [t[0]] + t[1..] == t;
    }
  }

  /** The quoted expression parses back to exactly the terms it was made of. */
  lemma {:induction false} ExpressionReadsBack(ts: seq<bytes>)
    requires ts != []
    ensures ReadExpression(Expression(ts)) == Some(ts)
  {
    hide ReadString, Doubled;
    var e := Expression(ts);
    var rest := if |ts| == 1 then [] else AND + Expression(ts[1..]);
    assert e == Quoted(ts[0]) + rest;
    assert e[1..] == Doubled(ts[0]) + [QUOTE] + rest;
    StringReadsBack(ts[0], rest);
    if |ts| > 1 {
      ExpressionReadsBack(ts[1..]);
      assert rest[..5] == AND && rest[5..] == Expression(ts[1..]);
      assert [ts[0]] + ts[1..] == ts;
    } else {
      assert ts == [ts[0]];
    }
  }

  lemma {:induction false} ExpressionMore(ts: seq<bytes>, t: bytes)
    ensures Expression(ts + [t]) == (if ts == [] then [] else Expression(ts) + AND) + Quoted(t)
  {
    hide Quoted;
    if ts == [] {
      assert ts + [t] == [t] && [] + Quoted(t) == Quoted(t);
    } else {
      ExpressionMore(ts[1..], t);
      assert (ts + [t])[1..] == ts[1..] + [t] && (ts + [t])[0] == ts[0];
      if |ts| == 1 {
        assert ts[1..] == [] && [] + Quoted(t) == Quoted(t);
      } else {
        assert Quoted(ts[0]) + AND + (Expression(ts[1..]) + AND + Quoted(t))
            == Quoted(ts[0]) + AND + Expression(ts[1..]) + AND + Quoted(t);
      }
    }
  }

  // ---- terms ----------------------------------------------------------------------

  predicate Space(c: byte) { c == 32 || c == 9 || c == 10 }

  /** The length of the first term, and of the white space before it. */
  function Spaces(s: bytes): (n: nat)
    ensures n <= |s|
  {
    if s != [] && Space(s[0]) then 1 + Spaces(s[1..]) else 0
  }

  function WordLength(s: bytes): (n: nat)
    ensures n <= |s|
  {
    if s != [] && !Space(s[0]) then 1 + WordLength(s[1..]) else 0
  }

  function Terms(query: bytes): (ts: seq<bytes>)
    decreases |query|
  {
    var s := query[Spaces(query)..];
    if WordLength(s) == 0 then [] else [s[..WordLength(s)]] + Terms(s[WordLength(s)..])
  }

  function Chars(t: bytes): nat {
    if t == [] then 0 else Chars(t[..|t| - 1]) + if Utf8.Continues(t[|t| - 1]) then 0 else 1
  }

  /** Blanks between the words of a query, and words. */
  predicate IsGap(g: bytes) { forall c :: c in g ==> c == ' ' as int || c == '\t' as int || c == '\n' as int }

  predicate IsWord(w: bytes) { w != [] && forall c :: c in w ==> c != ' ' as int && c != '\t' as int && c != '\n' as int }

  /** The words ws with a gap before each and one at the end; only the first and the last may be empty. */
  predicate Spaced(ws: seq<bytes>, gaps: seq<bytes>) {
    && |gaps| == |ws| + 1 && (forall w :: w in ws ==> IsWord(w))
    && (forall g :: g in gaps ==> IsGap(g)) && (forall k :: 0 < k < |ws| ==> gaps[k] != [])
  }

  function Spelled(ws: seq<bytes>, gaps: seq<bytes>): bytes
    requires |gaps| == |ws| + 1
  {
    if ws == [] then gaps[0] else gaps[0] + ws[0] + Spelled(ws[1..], gaps[1..])
  }

  lemma {:induction false} SpacesOf(g: bytes, s: bytes)
    requires IsGap(g) && (s == [] || IsWord(s[..1]))
    ensures Spaces(g + s) == |g|
  {
    if g != [] {
      assert g[0] in g && (g + s)[0] == g[0] && (g + s)[1..] == g[1..] + s;
      assert forall c :: c in g[1..] ==> c in g;
      SpacesOf(g[1..], s);
    } else {
      assert g + s == s && (s != [] ==> s[0] in s[..1]);
    }
  }

  lemma {:induction false} WordOf(w: bytes, s: bytes)
    requires (w == [] || IsWord(w)) && (s == [] || (IsGap(s[..1])))
    ensures WordLength(w + s) == |w|
  {
    if w != [] {
      assert w[0] in w && (w + s)[0] == w[0] && (w + s)[1..] == w[1..] + s;
      assert forall c :: c in w[1..] ==> c in w;
      WordOf(w[1..], s);
    } else {
      assert w + s == s && (s != [] ==> s[0] in s[..1]);
    }
  }

  /** The terms of a query are its words, whatever blanks stand around them. */
  lemma {:induction false} TermsOfWords(ws: seq<bytes>, gaps: seq<bytes>)
    requires Spaced(ws, gaps)
    ensures Terms(Spelled(ws, gaps)) == ws
  {
    hide IsWord, IsGap, Spaces, WordLength;
    var text := Spelled(ws, gaps);
    GapsAndWords();
    if ws == [] {
      SpacesOf(gaps[0], []);
      assert text + [] == text && gaps[0] + [] == gaps[0] && text[|text|..] == [];
    } else {
      var rest := Spelled(ws[1..], gaps[1..]);
      assert text == gaps[0] + (ws[0] + rest) && ws[0] in ws && gaps[0] in gaps;
      RestStarts(ws, gaps);
      FirstOfWord(ws[0], rest);
      SpacesOf(gaps[0], ws[0] + rest);
      WordOf(ws[0], rest);
      assert text[|gaps[0]|..] == ws[0] + rest && (ws[0] + rest)[|ws[0]|..] == rest && (ws[0] + rest)[..|ws[0]|] == ws[0];
      forall k | 0 < k < |ws[1..]| ensures gaps[1..][k] != [] { assert gaps[1..][k] == gaps[k + 1]; }
      TermsOfWords(ws[1..], gaps[1..]);
      WordIsThere(ws[0]);
    }
  }

  lemma GapsAndWords()
    ensures WordLength([]) == 0
  {
  }

  lemma WordIsThere(w: bytes)
    requires IsWord(w)
    ensures |w| > 0
  {
  }

  lemma FirstOfWord(w: bytes, s: bytes)
    requires IsWord(w)
    ensures w + s != [] && IsWord((w + s)[..1])
  {
    assert (w + s)[..1] == [w[0]] && w[0] in w;
  }

  /** After a word comes the end or a blank. */
  lemma RestStarts(ws: seq<bytes>, gaps: seq<bytes>)
    requires Spaced(ws, gaps) && ws != []
    ensures var rest := Spelled(ws[1..], gaps[1..]); rest == [] || IsGap(rest[..1])
  {
    var rest := Spelled(ws[1..], gaps[1..]);
    assert gaps[1] in gaps && gaps[1..][0] == gaps[1];
    if rest != [] {
      assert rest[0] == gaps[1][0] && gaps[1][0] in gaps[1];
      assert rest[..1] == [rest[0]];
    }
  }

  /** Every query is spelled so, and so its terms are told. */
  lemma {:induction false} EveryQueryIsSpelled(query: bytes) returns (gaps: seq<bytes>)
    ensures Spaced(Terms(query), gaps) && Spelled(Terms(query), gaps) == query
    decreases |query|
  {
    hide Spaces, WordLength, IsGap, IsWord, Spelled, Spaced;
    var n := Spaces(query);
    var s := query[n..];
    var m := WordLength(s);
    SpacesAreBlank(query);
    WordIsNot(s);
    if m == 0 {
      NoWordNoMore(query);
      NoWords(query);
      gaps := [query];
    } else {
      var more := EveryQueryIsSpelled(s[m..]);
      var ws := Terms(s[m..]);
      if ws != [] { SpelledStarts(ws, more); }
      SpacedParts(ws, more);
      WordInFront(query[..n], s[..m], ws, more);
      gaps := [query[..n]] + more;
      assert query == query[..n] + s[..m] + s[m..];
    }
  }

  lemma NoWords(g: bytes)
    requires IsGap(g)
    ensures Spaced([], [g]) && Spelled([], [g]) == g
  {
  }

  lemma SpacedParts(ws: seq<bytes>, gaps: seq<bytes>)
    requires Spaced(ws, gaps)
    ensures |gaps| == |ws| + 1
  {
  }

  lemma WordInFront(g: bytes, w: bytes, ws: seq<bytes>, gaps: seq<bytes>)
    requires IsGap(g) && IsWord(w) && Spaced(ws, gaps) && (ws != [] ==> gaps[0] != [])
    ensures Spaced([w] + ws, [g] + gaps) && Spelled([w] + ws, [g] + gaps) == g + w + Spelled(ws, gaps)
  {
    hide IsGap, IsWord;
    assert ([w] + ws)[1..] == ws && ([g] + gaps)[1..] == gaps;
    forall k | 0 < k < |ws| + 1 ensures ([g] + gaps)[k] != [] { assert ([g] + gaps)[k] == gaps[k - 1]; }
  }

  lemma {:induction false} SpacesAreBlank(s: bytes)
    ensures IsGap(s[..Spaces(s)]) && (Spaces(s) < |s| ==> IsWord(s[Spaces(s)..][..1]))
  {
    if s != [] && Space(s[0]) {
      SpacesAreBlank(s[1..]);
      assert s[..Spaces(s)] == [s[0]] + s[1..][..Spaces(s[1..])];
      assert s[Spaces(s)..] == s[1..][Spaces(s[1..])..];
    }
  }

  lemma {:induction false} WordIsNot(s: bytes)
    ensures var n := WordLength(s); (n > 0 ==> IsWord(s[..n])) && (n < |s| ==> IsGap(s[n..][..1]))
  {
    var n := WordLength(s);
    if s != [] && !Space(s[0]) {
      WordIsNot(s[1..]);
      assert s[..n] == [s[0]] + s[1..][..WordLength(s[1..])];
      assert s[n..] == s[1..][WordLength(s[1..])..];
    }
  }

  /** No word after the blanks: the whole is blank. */
  lemma NoWordNoMore(s: bytes)
    requires WordLength(s[Spaces(s)..]) == 0
    ensures IsGap(s)
  {
    SpacesAreBlank(s);
    var n := Spaces(s);
    if n < |s| {
      assert s[n..][..1] == [s[n]] && s[n] in s[n..][..1];
    } else {
      assert s[..n] == s;
    }
  }

  /** With no gap in front the first word comes first. */
  lemma SpelledStarts(ws: seq<bytes>, gaps: seq<bytes>)
    requires Spaced(ws, gaps) && ws != []
    ensures var t := Spelled(ws, gaps); gaps[0] == [] ==> t != [] && !IsGap(t[..1])
  {
    if gaps[0] == [] {
      var t := Spelled(ws, gaps);
      assert ws[0] in ws && t == ws[0] + Spelled(ws[1..], gaps[1..]) && t[..1] == [ws[0][0]];
      assert ws[0][0] in ws[0] && t[0] in t[..1];
    }
  }

  /** The characters of well-formed text are counted. */
  lemma {:induction false} CharsAreCharacters(cps: seq<nat>)
    requires Utf8.Scalars(cps)
    ensures Chars(Utf8.EncodeAll(cps)) == |cps|
  {
    hide Utf8.Encode, Chars;
    if cps == [] {
      NoChars();
    } else {
      CharsAreCharacters(cps[1..]);
      CharsAppend(Utf8.Encode(cps[0]), Utf8.EncodeAll(cps[1..]));
      OneCharacter(cps[0]);
    }
  }

  lemma NoChars()
    ensures Chars([]) == 0
  {
  }

  lemma {:induction false} CharsAppend(s: bytes, t: bytes)
    ensures Chars(s + t) == Chars(s) + Chars(t)
  {
    if t == [] {
      assert s + t == s;
    } else {
      CharsAppend(s, t[..|t| - 1]);
      assert (s + t)[..|s + t| - 1] == s + t[..|t| - 1];
    }
  }

  lemma OneCharacter(cp: nat)
    requires Utf8.Scalar(cp)
    ensures Chars(Utf8.Encode(cp)) == 1
  {
    var e := Utf8.Encode(cp);
    var n := |e|;
    assert Chars(e[..1]) == 1 by { assert e[..1][..0] == []; }
    if n > 1 { assert e[..2][..1] == e[..1] && Chars(e[..2]) == 1; }
    if n > 2 { assert e[..3][..2] == e[..2] && Chars(e[..3]) == 1; }
    if n > 3 { assert e[..4][..3] == e[..3] && Chars(e[..4]) == 1; }
    assert e[..n] == e;
  }

  /** Long enough for the trigram index. */
  predicate Long(t: bytes) { Chars(t) >= 3 }

  function LongOnes(ts: seq<bytes>): seq<bytes> {
    if ts == [] then [] else LongOnes(ts[..|ts| - 1]) + if Long(ts[|ts| - 1]) then [ts[|ts| - 1]] else []
  }

  function ShortOnes(ts: seq<bytes>): seq<bytes> {
    if ts == [] then [] else ShortOnes(ts[..|ts| - 1]) + if Long(ts[|ts| - 1]) then [] else [ts[|ts| - 1]]
  }

  lemma {:induction false} EveryTerm(ts: seq<bytes>)
    ensures forall t :: t in ts <==> t in LongOnes(ts) || t in ShortOnes(ts)
    ensures forall t :: t in LongOnes(ts) ==> Long(t)
    ensures forall t :: t in ShortOnes(ts) ==> !Long(t)
  {
    hide Long;
    if ts != [] {
      EveryTerm(ts[..|ts| - 1]);
      assert ts == ts[..|ts| - 1] + [ts[|ts| - 1]];
    }
  }

  // ---- the filter ------------------------------------------------------------------

  datatype Param = Id(id: nat) | Text(text: bytes)

  datatype Scope = Everywhere | OneGroup | Ungrouped

  const MAX_PARAMS: nat := 64

  /** The WHERE fragment under construction: which clauses it has, and what their markers are bound to. */
  datatype Where = Where(scope: Scope, likeTerms: nat, hasMatch: bool, params: seq<Param>)

  /** where_param: past the sixty-fourth a parameter is dropped. */
  function Pushed(params: seq<Param>, p: Param): seq<Param> { if |params| < MAX_PARAMS then params + [p] else params }

  function PushedThrice(params: seq<Param>, p: Param): seq<Param> { Pushed(Pushed(Pushed(params, p), p), p) }

  function PushedTerms(params: seq<Param>, shorts: seq<bytes>): seq<Param> {
    if shorts == [] then params
    else PushedThrice(PushedTerms(params, shorts[..|shorts| - 1]), Text(Pattern(shorts[|shorts| - 1])))
  }

  datatype Query = Query(query: bytes, groupId: nat, allGroups: bool, offset: int, limit: int)

  function ScopeOf(q: Query, showGrouped: bool): Scope {
    if q.allGroups then Everywhere
    else if q.groupId != 0 then OneGroup
    else if showGrouped then Everywhere
    else Ungrouped
  }

  /** The markers the query needs all have a parameter. */
  predicate Fits(q: Query, showGrouped: bool) {
    (if ScopeOf(q, showGrouped).OneGroup? then 1 else 0) + 3 * |ShortOnes(Terms(q.query))|
    + (if LongOnes(Terms(q.query)) != [] then 1 else 0) <= 64
  }

  function MatchOf(query: bytes): Option<bytes> {
    var longs := LongOnes(Terms(query));
    if longs == [] then None else Some(Expression(longs))
  }

  /** split_terms: the full-text expression, and a filter that grew by the short terms. */
  method SplitTerms(query: bytes, w: Where) returns (expr: Option<bytes>, w2: Where)
    ensures expr == MatchOf(query)
    ensures w2 == w.(likeTerms := w.likeTerms + |ShortOnes(Terms(query))|, params := PushedTerms(w.params, ShortOnes(Terms(query))))
  {
    hide *;
    w2 := w;
    var out: bytes := [];
    var s := 0;
    ghost var done: seq<bytes> := [];
    SplitStart(query, w);
    while s < |query|
      invariant s <= |query| && Terms(query) == done + Terms(query[s..])
      invariant out == Expression(LongOnes(done))
      invariant w2 == w.(likeTerms := w.likeTerms + |ShortOnes(done)|, params := PushedTerms(w.params, ShortOnes(done)))
      decreases |query| - s
    {
      var b := s;
      while b < |query| && Space(query[b])
        invariant s <= b <= |query| && Spaces(query[s..]) == b - s + Spaces(query[b..])
      {
        SpacesStep(query, b);
        b := b + 1;
      }
      SpacesStep(query, b);
      var e := b;
      while e < |query| && !Space(query[e])
        invariant b <= e <= |query| && WordLength(query[b..]) == e - b + WordLength(query[e..])
      {
        WordStep(query, e);
        e := e + 1;
      }
      WordStep(query, e);
      NextTerm(query, s, b, e);
      if e == b {
        assert done + [] == done;
        s := |query|;
        NoTerms(query);
        break;
      }
      var t := query[b..e];
      LongOrShort(done, t);
      assert done + ([t] + Terms(query[e..])) == done + [t] + Terms(query[e..]);
      var chars := CountChars(t);
      LongIs(t);
      if chars >= 3 {
        ExpressionMore(LongOnes(done), t);
        ExpressionEmpty(LongOnes(done));
        if |out| > 0 {
          out := out + AND;
        } else {
          assert out + Quoted(t) == Quoted(t) && [] + Quoted(t) == Quoted(t);
        }
        var d := Double(t);
        QuotedIs(t);
        out := out + [QUOTE] + d + [QUOTE];
      } else {
        var pat := Escape(t);
        var p := Text([PERCENT] + pat + [PERCENT]);
        PatternIs(t);
        PushStep(w.params, ShortOnes(done), t);
        w2 := w2.(likeTerms := w2.likeTerms + 1, params := PushedThrice(w2.params, p));
      }
      done := done + [t];
      s := e;
    }
    NoTerms(query);
    assert query[|query|..] == [] && done + [] == done;
    ExpressionEmpty(LongOnes(done));
    MatchIs(query);
    expr := if |out| > 0 then Some(out) else None;
  }

  lemma SplitStart(query: bytes, w: Where)
    ensures Terms(query) == [] + Terms(query[0..]) && Expression(LongOnes([])) == []
    ensures w == w.(likeTerms := w.likeTerms + |ShortOnes([])|, params := PushedTerms(w.params, ShortOnes([])))
  {
    assert query[0..] == query;
  }

  lemma SpacesStep(s: bytes, b: nat)
    requires b <= |s|
    ensures b < |s| && Space(s[b]) ==> Spaces(s[b..]) == 1 + Spaces(s[b + 1..])
    ensures b == |s| || !Space(s[b]) ==> Spaces(s[b..]) == 0
  {
    hide Space;
    if b < |s| {
      assert s[b..][1..] == s[b + 1..];
    }
  }

  lemma WordStep(s: bytes, e: nat)
    requires e <= |s|
    ensures e < |s| && !Space(s[e]) ==> WordLength(s[e..]) == 1 + WordLength(s[e + 1..])
    ensures e == |s| || Space(s[e]) ==> WordLength(s[e..]) == 0
  {
    hide Space;
    if e < |s| {
      assert s[e..][1..] == s[e + 1..];
    }
  }

  lemma NextTerm(s: bytes, a: nat, b: nat, e: nat)
    requires a <= b <= e <= |s| && b == a + Spaces(s[a..]) && e == b + WordLength(s[b..])
    ensures Terms(s[a..]) == if e == b then [] else [s[b..e]] + Terms(s[e..])
  {
    hide Spaces, WordLength;
    assert s[a..][b - a..] == s[b..] && s[b..][e - b..] == s[e..] && s[b..][..e - b] == s[b..e];
  }

  lemma NoTerms(query: bytes)
    ensures Terms(query[|query|..]) == []
  {
  }

  lemma LongOrShort(ts: seq<bytes>, t: bytes)
    ensures LongOnes(ts + [t]) == if Long(t) then LongOnes(ts) + [t] else LongOnes(ts)
    ensures ShortOnes(ts + [t]) == if Long(t) then ShortOnes(ts) else ShortOnes(ts) + [t]
  {
    hide Long;
    assert (ts + [t])[..|ts|] == ts;
  }

  lemma LongIs(t: bytes)
    ensures Long(t) <==> Chars(t) >= 3
  {
  }

  lemma ExpressionEmpty(ts: seq<bytes>)
    ensures Expression(ts) == [] <==> ts == []
  {
    hide Doubled;
  }

  lemma QuotedIs(t: bytes)
    ensures Quoted(t) == [QUOTE] + Doubled(t) + [QUOTE]
  {
  }

  lemma PatternIs(t: bytes)
    ensures Pattern(t) == [PERCENT] + Escaped(t) + [PERCENT]
  {
  }

  lemma PushStep(params: seq<Param>, shorts: seq<bytes>, t: bytes)
    ensures PushedTerms(params, shorts + [t]) == PushedThrice(PushedTerms(params, shorts), Text(Pattern(t)))
  {
    hide PushedThrice, Pattern;
    assert (shorts + [t])[..|shorts|] == shorts;
  }

  lemma MatchIs(query: bytes)
    ensures MatchOf(query) == if LongOnes(Terms(query)) == [] then None else Some(Expression(LongOnes(Terms(query))))
  {
  }

  method CountChars(t: bytes) returns (n: nat)
    ensures n == Chars(t)
  {
    n := 0;
    for i := 0 to |t|
      invariant n == Chars(t[..i])
    {
      assert t[..i + 1][..i] == t[..i];
      if !Utf8.Continues(t[i]) {
        n := n + 1;
      }
    }
    assert t[..|t|] == t;
  }

  lemma {:induction false} DoubledMore(t: bytes, c: byte)
    ensures Doubled(t + [c]) == Doubled(t) + if c == QUOTE then [QUOTE, QUOTE] else [c]
  {
    if t == [] {
      assert t + [c] == [c];
    } else {
      DoubledMore(t[1..], c);
      assert (t + [c])[1..] == t[1..] + [c];
    }
  }

  method Double(t: bytes) returns (d: bytes)
    ensures d == Doubled(t)
  {
    d := [];
    for i := 0 to |t|
      invariant d == Doubled(t[..i])
    {
      DoubledMore(t[..i], t[i]);
      assert t[..i + 1] == t[..i] + [t[i]];
      if t[i] == QUOTE {
        d := d + [QUOTE, QUOTE];
      } else {
        d := d + [t[i]];
      }
    }
    assert t[..|t|] == t;
  }

  lemma {:induction false} EscapedMore(t: bytes, c: byte)
    ensures Escaped(t + [c]) == Escaped(t) + if Special(c) then [BACKSLASH, c] else [c]
  {
    hide Special;
    if t == [] {
      assert t + [c] == [c];
    } else {
      EscapedMore(t[1..], c);
      assert (t + [c])[1..] == t[1..] + [c];
    }
  }

  method Escape(t: bytes) returns (e: bytes)
    ensures e == Escaped(t)
  {
    hide Escaped;
    e := [];
    EscapedNone();
    for i := 0 to |t|
      invariant e == Escaped(t[..i])
    {
      EscapedMore(t[..i], t[i]);
      assert t[..i + 1] == t[..i] + [t[i]];
      ghost var was := e;
      if Special(t[i]) {
        e := e + [BACKSLASH];
      }
      e := e + [t[i]];
      assert Special(t[i]) ==> was + [BACKSLASH] + [t[i]] == was + [BACKSLASH, t[i]];
    }
    assert t[..|t|] == t;
  }

  lemma EscapedNone()
    ensures Escaped([]) == []
  {
  }

  // ---- what a filter selects -------------------------------------------------------------

  /** col LIKE ?; false for a NULL on either side. */
  predicate LikeParam(col: Option<bytes>, params: seq<Param>, i: nat) {
    col.Some? && i < |params| && params[i].Text? && Like(params[i].text, col.value)
  }

  predicate LikeTerm(c: Clip, params: seq<Param>, at: nat) {
    LikeParam(c.plain, params, at) || LikeParam(c.title, params, at + 1) || LikeParam(c.quick, params, at + 2)
  }

  predicate InScope(scope: Scope, group: Option<nat>, c: Clip) {
    match scope
    case Everywhere => true
    case OneGroup => c.group.Some? && c.group == group
    case Ungrouped => c.group.None?
  }

  /** The rows of the full-text index that match an expression; found is the index itself. */
  predicate FullText(expr: bytes, c: Clip, found: (bytes, Clip) -> bool) {
    ReadExpression(expr).Some? && forall t :: t in ReadExpression(expr).value ==> found(t, c)
  }

  function Base(w: Where): nat { if w.scope.OneGroup? then 1 else 0 }

  function GroupParam(w: Where): Option<nat> {
    if w.params != [] && w.params[0].Id? then Some(w.params[0].id) else None
  }

  /** What SQLite makes of the fragment. */
  predicate Selects(w: Where, c: Clip, found: (bytes, Clip) -> bool) {
    && InScope(w.scope, GroupParam(w), c)
    && (forall k :: 0 <= k < w.likeTerms ==> LikeTerm(c, w.params, Base(w) + 3 * k))
    && (w.hasMatch ==>
          var i := Base(w) + 3 * w.likeTerms;
          i < |w.params| && w.params[i].Text? && FullText(w.params[i].text, c, found))
  }

  ghost predicate ShortIn(t: bytes, c: Clip) {
    || (c.plain.Some? && Contains(c.plain.value, t))
    || (c.title.Some? && Contains(c.title.value, t))
    || (c.quick.Some? && Contains(c.quick.value, t))
  }

  /** A clip is wanted when it is in scope and every term of the query occurs in it. */
  ghost predicate Wanted(q: Query, showGrouped: bool, c: Clip, found: (bytes, Clip) -> bool) {
    && InScope(ScopeOf(q, showGrouped), Some(q.groupId), c)
    && forall t :: t in Terms(q.query) ==> if Long(t) then found(t, c) else ShortIn(t, c)
  }

  /** With room for all of them, the patterns stand in order, each three times. */
  lemma {:induction false} PushedInOrder(params: seq<Param>, shorts: seq<bytes>)
    requires |params| + 3 * |shorts| <= MAX_PARAMS
    ensures var p := PushedTerms(params, shorts);
            && |p| == |params| + 3 * |shorts| && p[..|params|] == params
            && forall k :: 0 <= k < |shorts| ==> HoldsPattern(p, |params| + 3 * k, shorts[k])
  {
    hide Pattern;
    if shorts != [] {
      var n := |shorts| - 1;
      PushedInOrder(params, shorts[..n]);
      var (p, q) := (PushedTerms(params, shorts), PushedTerms(params, shorts[..n]));
      var t := Text(Pattern(shorts[n]));
      assert p == q + [t] + [t] + [t];
      forall k | 0 <= k < |shorts| ensures HoldsPattern(p, |params| + 3 * k, shorts[k]) {
        if k < n {
          assert HoldsPattern(q, |params| + 3 * k, shorts[..n][k]);
        }
      }
    }
  }

  predicate HoldsPattern(p: seq<Param>, at: nat, t: bytes) {
    at + 2 < |p| && p[at] == p[at + 1] == p[at + 2] == Text(Pattern(t))
  }

  lemma LikeIsShort(c: Clip, p: seq<Param>, at: nat, t: bytes)
    requires HoldsPattern(p, at, t)
    ensures LikeTerm(c, p, at) <==> ShortIn(t, c)
  {
    hide Like, Pattern, Contains;
    if c.plain.Some? { PatternIsLiteral(t, c.plain.value); }
    if c.title.Some? { PatternIsLiteral(t, c.title.value); }
    if c.quick.Some? { PatternIsLiteral(t, c.quick.value); }
  }

  lemma HoldsMore(p: seq<Param>, q: Param, at: nat, t: bytes)
    requires HoldsPattern(p, at, t)
    ensures HoldsPattern(p + [q], at, t)
  {
    hide Pattern;
  }

  /** The filter as the search leaves it. */
  ghost predicate Finished(q: Query, showGrouped: bool, start: Where, w: Where) {
    && start.scope == ScopeOf(q, showGrouped) && start.likeTerms == 0 && !start.hasMatch
    && start.params == (if start.scope.OneGroup? then [Id(q.groupId)] else [])
    && w.scope == start.scope && w.likeTerms == |ShortOnes(Terms(q.query))| && w.hasMatch == (LongOnes(Terms(q.query)) != [])
    && var p := PushedTerms(start.params, ShortOnes(Terms(q.query)));
       w.params == if w.hasMatch then Pushed(p, Text(Expression(LongOnes(Terms(q.query))))) else p
  }

  lemma Built(q: Query, showGrouped: bool, start: Where, w: Where)
    requires Finished(q, showGrouped, start, w) && Fits(q, showGrouped)
    ensures forall c, found :: Selects(w, c, found) <==> Wanted(q, showGrouped, c, found)
  {
    hide *;
    Bound(q, showGrouped, start, w);
    forall c, found ensures Selects(w, c, found) <==> Wanted(q, showGrouped, c, found) {
      BuiltOne(q, showGrouped, w, c, found);
    }
  }

  /** Every marker bound to the parameter it was meant for. */
  ghost predicate WellBound(q: Query, showGrouped: bool, w: Where) {
    var (longs, shorts) := (LongOnes(Terms(q.query)), ShortOnes(Terms(q.query)));
    && w.scope == ScopeOf(q, showGrouped) && (w.scope.OneGroup? ==> GroupParam(w) == Some(q.groupId))
    && w.likeTerms == |shorts| && w.hasMatch == (longs != [])
    && (forall k :: 0 <= k < |shorts| ==> HoldsPattern(w.params, Base(w) + 3 * k, shorts[k]))
    && (longs != [] ==> var i := Base(w) + 3 * |shorts|; i < |w.params| && w.params[i] == Text(Expression(longs)))
  }

  lemma Bound(q: Query, showGrouped: bool, start: Where, w: Where)
    requires Finished(q, showGrouped, start, w) && Fits(q, showGrouped)
    ensures WellBound(q, showGrouped, w)
  {
    hide Terms, LongOnes, ShortOnes, Expression, PushedTerms, HoldsPattern, ScopeOf;
    var (longs, shorts) := (LongOnes(Terms(q.query)), ShortOnes(Terms(q.query)));
    PushedInOrder(start.params, shorts);
    var p := PushedTerms(start.params, shorts);
    assert start.params != [] ==> p[..|start.params|][0] == p[0];
    if w.hasMatch {
      forall k | 0 <= k < |shorts| ensures HoldsPattern(w.params, Base(w) + 3 * k, shorts[k]) {
        HoldsMore(p, Text(Expression(longs)), |start.params| + 3 * k, shorts[k]);
      }
    }
  }

  lemma BuiltOne(q: Query, showGrouped: bool, w: Where, c: Clip, found: (bytes, Clip) -> bool)
    requires WellBound(q, showGrouped, w)
    ensures Selects(w, c, found) <==> Wanted(q, showGrouped, c, found)
  {
    hide Terms, LongOnes, ShortOnes, Expression, ReadExpression, HoldsPattern, ScopeOf, LikeTerm, ShortIn, Long;
    var (longs, shorts) := (LongOnes(Terms(q.query)), ShortOnes(Terms(q.query)));
    forall k | 0 <= k < |shorts| ensures LikeTerm(c, w.params, Base(w) + 3 * k) <==> ShortIn(shorts[k], c) {
      LikeIsShort(c, w.params, Base(w) + 3 * k, shorts[k]);
    }
    LikesAreShorts(c, w, shorts);
    LongsAndShorts(q, c, found);
    if longs != [] {
      ExpressionReadsBack(longs);
    }
  }

  lemma {:induction false} PushedBounds(params: seq<Param>, shorts: seq<bytes>)
    requires |params| <= MAX_PARAMS
    ensures |PushedTerms(params, shorts)| == Min(|params| + 3 * |shorts|, MAX_PARAMS)
  {
    if shorts != [] { PushedBounds(params, shorts[..|shorts| - 1]); }
  }

  /** A clip in scope whose quick-paste word holds every term, whatever else the index finds. */
  ghost function Holder(q: Query, showGrouped: bool, word: bytes): Clip {
    Clip([], [], 0, 0, 0, 0, None, None, None, if ScopeOf(q, showGrouped).OneGroup? then Some(q.groupId) else None,
         None, false, Some(word))
  }

  lemma {:induction false} ContainsPart(parts: seq<bytes>, k: nat)
    requires k < |parts|
    ensures Contains(Concat(parts), parts[k])
  {
    hide SameRun;
    var n := |parts| - 1;
    var (all, init) := (Concat(parts), Concat(parts[..n]));
    SameSelf(parts[k]);
    if k == n {
      assert all[|init|..|init| + |parts[k]|] == parts[k];
      assert OccursAt(all, parts[k], |init|);
    } else {
      ContainsPart(parts[..n], k);
      var i :| OccursAt(init, parts[..n][k], i);
      assert all[i..i + |parts[k]|] == init[i..i + |parts[k]|];
      assert OccursAt(all, parts[k], i);
    }
  }

  lemma SameSelf(t: bytes)
    ensures SameRun(t, t)
  {
  }

  lemma HolderIsWanted(q: Query, showGrouped: bool)
    ensures Wanted(q, showGrouped, Holder(q, showGrouped, Concat(Terms(q.query))), (t, c) => true)
  {
    hide Terms, Long, Contains;
    var ts := Terms(q.query);
    forall t | t in ts ensures Contains(Concat(ts), t) {
      var k :| 0 <= k < |ts| && ts[k] == t;
      ContainsPart(ts, k);
    }
  }

  /** Past the sixty-fourth parameter a marker stays unbound, and its clause finds nothing. */
  lemma UnboundFindsNothing(q: Query, showGrouped: bool, start: Where, w: Where, word: bytes, found: (bytes, Clip) -> bool)
    requires Finished(q, showGrouped, start, w) && !Fits(q, showGrouped)
    ensures !Selects(w, Holder(q, showGrouped, word), found)
  {
    hide Terms, LongOnes, ShortOnes, Expression, ScopeOf, Like, FullText, PushedTerms;
    var shorts := ShortOnes(Terms(q.query));
    var n := |shorts|;
    PushedBounds(start.params, shorts);
    if !w.hasMatch || Base(w) + 3 * n < MAX_PARAMS {
      var c := Holder(q, showGrouped, word);
      assert n > 0 && Base(w) + 3 * (n - 1) + 2 >= MAX_PARAMS;
      assert !LikeTerm(c, w.params, Base(w) + 3 * (n - 1));
    }
  }

  /** The filter selects what is wanted exactly when every marker has its parameter. */
  lemma FilterIff(q: Query, showGrouped: bool, start: Where, w: Where)
    requires Finished(q, showGrouped, start, w)
    ensures Fits(q, showGrouped) <==> forall c, found :: Selects(w, c, found) <==> Wanted(q, showGrouped, c, found)
  {
    hide *;
    if Fits(q, showGrouped) {
      Built(q, showGrouped, start, w);
    } else {
      var word := Concat(Terms(q.query));
      HolderIsWanted(q, showGrouped);
      UnboundFindsNothing(q, showGrouped, start, w, word, (t, c) => true);
    }
  }

  lemma LikesAreShorts(c: Clip, w: Where, shorts: seq<bytes>)
    requires w.likeTerms == |shorts|
    requires forall k :: 0 <= k < |shorts| ==> (LikeTerm(c, w.params, Base(w) + 3 * k) <==> ShortIn(shorts[k], c))
    ensures (forall k :: 0 <= k < w.likeTerms ==> LikeTerm(c, w.params, Base(w) + 3 * k)) <==> forall t :: t in shorts ==> ShortIn(t, c)
  {
    hide LikeTerm, ShortIn;
    if forall t :: t in shorts ==> ShortIn(t, c) {
      forall k | 0 <= k < w.likeTerms ensures LikeTerm(c, w.params, Base(w) + 3 * k) {
        assert shorts[k] in shorts;
      }
    }
  }

  lemma LongsAndShorts(q: Query, c: Clip, found: (bytes, Clip) -> bool)
    ensures var (longs, shorts) := (LongOnes(Terms(q.query)), ShortOnes(Terms(q.query)));
            (forall t :: t in Terms(q.query) ==> if Long(t) then found(t, c) else ShortIn(t, c)) <==>
            (forall t :: t in longs ==> found(t, c)) && (forall t :: t in shorts ==> ShortIn(t, c))
  {
    hide Long, ShortIn, Terms, LongOnes, ShortOnes;
    EveryTerm(Terms(q.query));
  }

  method BuildWhere(q: Query, showGrouped: bool) returns (w: Where)
    ensures w.scope == ScopeOf(q, showGrouped)
    ensures w.likeTerms == |ShortOnes(Terms(q.query))|
    ensures Fits(q, showGrouped) <==> forall c, found :: Selects(w, c, found) <==> Wanted(q, showGrouped, c, found)
  {
    hide *;
    w := Where(Everywhere, 0, false, []);
    ScopeIs(q, showGrouped);
    if !q.allGroups {
      if q.groupId != 0 {
        w := w.(scope := OneGroup, params := Pushed(w.params, Id(q.groupId)));
      } else if !showGrouped {
        w := w.(scope := Ungrouped);
      }
    }
    ghost var start := w;
    if q.query == [] {
      EmptyQuery(q, showGrouped, w);
      return;
    }
    var expr;
    expr, w := SplitTerms(q.query, w);
    MatchIs(q.query);
    if expr.Some? {
      w := w.(hasMatch := true, params := Pushed(w.params, Text(expr.value)));
    }
    IsFinished(q, showGrouped, start, w);
  }

  lemma ScopeIs(q: Query, showGrouped: bool)
    ensures ScopeOf(q, showGrouped) ==
            if q.allGroups then Everywhere else if q.groupId != 0 then OneGroup else if showGrouped then Everywhere else Ungrouped
    ensures Pushed([], Id(q.groupId)) == [Id(q.groupId)]
  {
  }

  lemma IsFinished(q: Query, showGrouped: bool, start: Where, w: Where)
    requires start == Where(ScopeOf(q, showGrouped), 0, false, if start.scope.OneGroup? then [Id(q.groupId)] else [])
    requires var (longs, shorts) := (LongOnes(Terms(q.query)), ShortOnes(Terms(q.query)));
             var p := PushedTerms(start.params, shorts);
             w == Where(start.scope, |shorts|, longs != [], if longs != [] then Pushed(p, Text(Expression(longs))) else p)
    ensures Finished(q, showGrouped, start, w)
    ensures Fits(q, showGrouped) <==> forall c, found :: Selects(w, c, found) <==> Wanted(q, showGrouped, c, found)
  {
    hide Selects, Wanted, Terms, LongOnes, ShortOnes, PushedTerms, Expression, ScopeOf, Fits;
    FilterIff(q, showGrouped, start, w);
  }

  lemma EmptyQuery(q: Query, showGrouped: bool, w: Where)
    requires w == Where(ScopeOf(q, showGrouped), 0, false, if w.scope.OneGroup? then [Id(q.groupId)] else []) && q.query == []
    ensures |ShortOnes(Terms(q.query))| == 0 && LongOnes(Terms(q.query)) == [] && Fits(q, showGrouped)
    ensures forall c, found :: Selects(w, c, found) <==> Wanted(q, showGrouped, c, found)
  {
    assert Terms([]) == [];
  }

  // ---- the order and the page ------------------------------------------------------------

  /** ORDER_HISTORY: sticky clips by their order, then the others, newest first. */
  predicate Before(c: Clip, x: nat, d: Clip, y: nat) {
    if c.sticky.Some? != d.sticky.Some? then c.sticky.Some?
    else if c.sticky.Some? && c.sticky.value != d.sticky.value then c.sticky.value < d.sticky.value
    else if c.used != d.used then c.used > d.used
    else x > y
  }

  function ByHistory(clips: map<nat, Clip>): (nat, nat) -> bool {
    (x: nat, y: nat) => x in clips && y in clips && Before(clips[x], x, clips[y], y)
  }

  lemma HistoryIsStrict(clips: map<nat, Clip>, ids: set<nat>)
    requires ids <= clips.Keys
    ensures Order.Strict(ids, ByHistory(clips))
  {
  }

  ghost function Matches(clips: map<nat, Clip>, q: Query, showGrouped: bool, found: (bytes, Clip) -> bool): (m: set<nat>)
    ensures m <= clips.Keys
  {
    set id | id in clips && Wanted(q, showGrouped, clips[id], found)
  }

  /** The wanted clips in history order. */
  ghost function History(clips: map<nat, Clip>, q: Query, showGrouped: bool, found: (bytes, Clip) -> bool): (h: seq<nat>)
    ensures Order.Listing(h, Matches(clips, q, showGrouped, found), ByHistory(clips))
  {
    HistoryIsStrict(clips, Matches(clips, q, showGrouped, found));
    Order.Sorted(Matches(clips, q, showGrouped, found), ByHistory(clips))
  }

  /**
   * No plain clip before a sticky one; of two sticky ones the smaller order
   * first; of two that tie, or have no order, the one used later, and of those
   * used at once the later one.
   */
  ghost predicate Chronicle(clips: map<nat, Clip>, s: seq<nat>) {
    && (forall x :: x in s ==> x in clips)
    && forall i, j :: 0 <= i < j < |s| ==> Leads(clips[s[i]], s[i], clips[s[j]], s[j])
  }

  ghost predicate Leads(c: Clip, x: nat, d: Clip, y: nat) {
    && (c.sticky.None? ==> d.sticky.None?)
    && (c.sticky.Some? && d.sticky.Some? ==> !(d.sticky.value < c.sticky.value))
    && (c.sticky == d.sticky ==> d.used <= c.used && (d.used == c.used ==> y < x))
  }

  lemma BeforeLeads(c: Clip, x: nat, d: Clip, y: nat)
    ensures Before(c, x, d, y) ==> Leads(c, x, d, y)
  {
  }

  lemma ListingIsChronicle(clips: map<nat, Clip>, s: seq<nat>, ids: set<nat>)
    requires ids <= clips.Keys && Order.Listing(s, ids, ByHistory(clips))
    ensures Chronicle(clips, s)
  {
    hide Before, Leads;
    var before := ByHistory(clips);
    forall i, j | 0 <= i < j < |s| ensures Leads(clips[s[i]], s[i], clips[s[j]], s[j]) {
      assert s[i] in s && s[j] in s && before(s[i], s[j]);
      BeforeLeads(clips[s[i]], s[i], clips[s[j]], s[j]);
    }
  }

  /**
   * The history: of all clips, of one group's, of all but the grouped ones, those
   * in which every term occurs; each once, in the order of the history.
   */
  lemma HistoryIs(clips: map<nat, Clip>, q: Query, showGrouped: bool, found: (bytes, Clip) -> bool)
    ensures var h := History(clips, q, showGrouped, found);
            && Chronicle(clips, h)
            && forall id :: id in h <==>
                 && id in clips
                 && (q.allGroups || if q.groupId != 0 then clips[id].group == Some(q.groupId) else showGrouped || clips[id].group == None)
                 && (forall t :: t in Terms(q.query) && Chars(t) >= 3 ==> found(t, clips[id]))
                 && (forall t :: t in Terms(q.query) && Chars(t) < 3 ==> ShortIn(t, clips[id]))
  {
    hide Terms, Chars, ShortIn, ByHistory, History;
    ListingIsChronicle(clips, History(clips, q, showGrouped, found), Matches(clips, q, showGrouped, found));
  }

  lemma {:induction false} ChronicleKept(clips: map<nat, Clip>, s: seq<nat>, keep: set<nat>)
    requires Chronicle(clips, s)
    ensures Chronicle(clips, Order.Kept(s, keep))
  {
    hide Leads;
    if s != [] {
      var (init, last) := (s[..|s| - 1], s[|s| - 1]);
      ChronicleKept(clips, init, keep);
      forall i | 0 <= i < |Order.Kept(init, keep)|
        ensures var x := Order.Kept(init, keep)[i]; x in clips && Leads(clips[x], x, clips[last], last)
      {
        var x := Order.Kept(init, keep)[i];
        assert x in init;
        var k :| 0 <= k < |init| && init[k] == x;
        assert s[k] == x && x in s;
      }
    }
  }

  lemma ChroniclePage(clips: map<nat, Clip>, s: seq<nat>, offset: nat, limit: nat)
    requires Chronicle(clips, s)
    ensures Chronicle(clips, Page(s, offset, limit))
  {
    hide Leads;
    PageInside(s, offset, limit);
  }

  /** LIMIT and OFFSET. */
  function Page(s: seq<nat>, offset: nat, limit: nat): (p: seq<nat>)
    ensures |p| == if offset < |s| then Min(limit, |s| - offset) else 0
    ensures forall k :: 0 <= k < |p| ==> p[k] == s[k + offset]
  {
    if offset >= |s| then [] else if offset + limit >= |s| then s[offset..] else s[offset..offset + limit]
  }

  function Selected(clips: map<nat, Clip>, w: Where, found: (bytes, Clip) -> bool): set<nat> {
    set id | id in clips && Selects(w, clips[id], found)
  }

  lemma {:induction false} KeptPrefix(s: seq<nat>, keep: set<nat>, i: nat)
    requires i <= |s|
    ensures Order.Kept(s[..i], keep) <= Order.Kept(s, keep)
    decreases |s|
  {
    if i == |s| {
      assert s[..i] == s;
    } else {
      KeptPrefix(s[..|s| - 1], keep, i);
      assert s[..|s| - 1][..i] == s[..i];
    }
  }

  /** Walking an index in order, testing each clip, and stopping when the page is full. */
  method WalkPage(clips: map<nat, Clip>, index: seq<nat>, w: Where, found: (bytes, Clip) -> bool, offset: nat, limit: nat)
    returns (page: seq<nat>)
    requires forall x :: x in index ==> x in clips
    ensures page == Page(Order.Kept(index, Selected(clips, w, found)), offset, limit)
  {
    hide Selects;
    ghost var sel := Selected(clips, w, found);
    page := [];
    var i, skipped := 0, 0;
    assert index[..0] == [];
    while i < |index| && |page| < limit
      invariant i <= |index| && page == Page(Order.Kept(index[..i], sel), offset, limit)
      invariant skipped == (if |Order.Kept(index[..i], sel)| < offset then |Order.Kept(index[..i], sel)| else offset)
    {
      var id := index[i];
      KeptStep(index, sel, i);
      PageStep(Order.Kept(index[..i], sel), id, offset, limit);
      assert id in index;
      assert id in sel <==> Selects(w, clips[id], found);
      if Selects(w, clips[id], found) {
        if skipped < offset {
          skipped := skipped + 1;
        } else {
          page := page + [id];
        }
      }
      i := i + 1;
    }
    KeptPrefix(index, sel, i);
    PageFull(Order.Kept(index[..i], sel), Order.Kept(index, sel), offset, limit);
    assert i == |index| ==> index[..i] == index;
  }

  lemma KeptStart(s: seq<nat>, keep: set<nat>)
    ensures Order.Kept(s[..0], keep) == []
  {
  }

  lemma KeptStep(s: seq<nat>, keep: set<nat>, i: nat)
    requires i < |s|
    ensures Order.Kept(s[..i + 1], keep) == Order.Kept(s[..i], keep) + if s[i] in keep then [s[i]] else []
  {
    assert s[..i + 1][..i] == s[..i];
  }

  lemma PageStep(s: seq<nat>, x: nat, offset: nat, limit: nat)
    requires |Page(s, offset, limit)| < limit
    ensures Page(s + [x], offset, limit) == if |s| < offset then [] else Page(s, offset, limit) + [x]
    ensures |s| < offset ==> Page(s, offset, limit) == []
    ensures s + [] == s
  {
  }

  lemma PageFull(s: seq<nat>, t: seq<nat>, offset: nat, limit: nat)
    requires s <= t
    ensures |Page(s, offset, limit)| == limit ==> Page(t, offset, limit) == Page(s, offset, limit)
  {
  }

  /** Collecting the matches and sorting them. */
  method CollectPage(clips: map<nat, Clip>, w: Where, found: (bytes, Clip) -> bool, offset: nat, limit: nat)
    returns (page: seq<nat>)
    ensures forall all :: Order.Listing(all, Selected(clips, w, found), ByHistory(clips)) ==> page == Page(all, offset, limit)
  {
    hide *;
    SelectedIsThere(clips, w, found);
    HistoryIsStrict(clips, Selected(clips, w, found));
    var s := Order.Sort(Selected(clips, w, found), ByHistory(clips));
    forall all | Order.Listing(all, Selected(clips, w, found), ByHistory(clips)) ensures all == s {
      Order.ListingUnique(all, s, Selected(clips, w, found), ByHistory(clips));
    }
    return Page(s, offset, limit);
  }

  lemma SelectedIsThere(clips: map<nat, Clip>, w: Where, found: (bytes, Clip) -> bool)
    ensures Selected(clips, w, found) <= clips.Keys
  {
    hide Selects;
  }

  lemma SelectedIsMatches(clips: map<nat, Clip>, q: Query, showGrouped: bool, w: Where, found: (bytes, Clip) -> bool)
    requires forall c, f :: Selects(w, c, f) <==> Wanted(q, showGrouped, c, f)
    ensures Selected(clips, w, found) == Matches(clips, q, showGrouped, found)
  {
    hide Selects, Wanted;
  }

  /** An index walked with a filter gives what collecting and sorting gives. */
  lemma PlansAgree(clips: map<nat, Clip>, index: seq<nat>, ids: set<nat>, wanted: set<nat>)
    requires wanted <= ids <= clips.Keys && Order.Listing(index, ids, ByHistory(clips))
    ensures forall all :: Order.Listing(all, wanted, ByHistory(clips)) ==> Order.Kept(index, wanted) == all
  {
    hide *;
    Order.FilteredWalk(index, ids, wanted, ByHistory(clips));
    HistoryIsStrict(clips, wanted);
    forall all | Order.Listing(all, wanted, ByHistory(clips)) ensures Order.Kept(index, wanted) == all {
      Order.ListingUnique(Order.Kept(index, wanted), all, wanted, ByHistory(clips));
    }
  }

  // ---- the list ----------------------------------------------------------------------------

  const COUNT_CAP: nat := 1000
  const PROBE_CAP: nat := 2000

  function OffsetOf(q: Query): nat { if q.offset > 0 then q.offset else 0 }
  function LimitOf(q: Query): nat { if q.limit > 0 then q.limit else 200 }

  function Hits(clips: map<nat, Clip>, expr: bytes, found: (bytes, Clip) -> bool): set<nat> {
    set id | id in clips && FullText(expr, clips[id], found)
  }

  /** How many full-text hits, up to the cap. */
  method Probe(clips: map<nat, Clip>, expr: bytes, found: (bytes, Clip) -> bool) returns (n: nat)
    ensures n == Min(|Hits(clips, expr, found)|, PROBE_CAP)
  {
    n := Min(|Hits(clips, expr, found)|, PROBE_CAP);
  }

  /** The clip whose quick-paste word is the whole search, looked up for a first page only. */
  predicate IsQuick(clips: map<nat, Clip>, q: Query, id: nat) {
    id in clips && q.query != [] && OffsetOf(q) == 0 && clips[id].quick == Some(q.query)
  }

  function QuickSet(clips: map<nat, Clip>, q: Query): set<nat> { set id | id in clips && IsQuick(clips, q, id) }

  lemma OffsetAndLimit(q: Query)
    ensures OffsetOf(q) == (if q.offset > 0 then q.offset else 0) && LimitOf(q) == (if q.limit > 0 then q.limit else 200)
  {
  }

  /** The clip whose word is the whole search is found on a first page, and only there. */
  lemma QuickIs(clips: map<nat, Clip>, q: Query, id: nat)
    requires KeysOk(clips)
    ensures q.query != [] && q.offset <= 0 && id in clips && clips[id].quick == Some(q.query) ==> QuickSet(clips, q) == {id}
    ensures q.query == [] || q.offset > 0 || (forall x :: x in clips ==> clips[x].quick != Some(q.query)) ==> QuickSet(clips, q) == {}
  {
    hide KeysOk;
    if IsQuick(clips, q, id) { QuickIsOne(clips, q, id); }
  }

  lemma QuickIsOne(clips: map<nat, Clip>, q: Query, id: nat)
    requires KeysOk(clips) && IsQuick(clips, q, id)
    ensures QuickSet(clips, q) == {id}
  {
    forall k | k in clips && k != id ensures k !in QuickSet(clips, q) {
      assert Apart(clips[k], clips[id]);
    }
  }

  /** A walk over the index that carries this order, restricted to the scope. */
  method Walk(clips: map<nat, Clip>, w: Where, found: (bytes, Clip) -> bool, offset: nat, limit: nat)
    returns (page: seq<nat>)
    ensures forall all :: Order.Listing(all, Selected(clips, w, found), ByHistory(clips)) ==> page == Page(all, offset, limit)
  {
    hide *;
    var entries := InIndex(clips, w);
    InIndexIs(clips, w, found);
    HistoryIsStrict(clips, entries);
    var index := Order.Sort(entries, ByHistory(clips));
    ListedIsThere(clips, index, entries);
    page := WalkPage(clips, index, w, found, offset, limit);
    PlansAgree(clips, index, entries, Selected(clips, w, found));
  }

  /** clips_group_order serves a filter on the group, clips_order any other. */
  function InIndex(clips: map<nat, Clip>, w: Where): set<nat> {
    set id | id in clips && (w.scope.Everywhere? || InScope(w.scope, GroupParam(w), clips[id]))
  }

  lemma InIndexIs(clips: map<nat, Clip>, w: Where, found: (bytes, Clip) -> bool)
    ensures InIndex(clips, w) <= clips.Keys && Selected(clips, w, found) <= InIndex(clips, w)
  {
    hide LikeTerm, FullText;
  }

  lemma ListedIsThere(clips: map<nat, Clip>, s: seq<nat>, ids: set<nat>)
    requires ids <= clips.Keys && Order.Listing(s, ids, ByHistory(clips))
    ensures forall x :: x in s ==> x in clips
  {
    hide ByHistory;
  }

  /** What stops the count: enough hits were seen already, or the cap is reached. */
  method Count(clips: map<nat, Clip>, w: Where, found: (bytes, Clip) -> bool, searching: bool, known: bool) returns (total: nat)
    requires known ==> |Selected(clips, w, found)| >= PROBE_CAP
    ensures total == if known || searching then Min(|Selected(clips, w, found)|, COUNT_CAP + 1) else |Selected(clips, w, found)|
  {
    if known {
      total := COUNT_CAP + 1;
    } else if searching {
      total := Min(|Selected(clips, w, found)|, COUNT_CAP + 1);
    } else {
      total := |Selected(clips, w, found)|;
    }
  }

  /** What a filter selects, in history order. */
  ghost function Picked(clips: map<nat, Clip>, w: Where, found: (bytes, Clip) -> bool): (h: seq<nat>)
    ensures Order.Listing(h, Selected(clips, w, found), ByHistory(clips)) && Chronicle(clips, h)
  {
    hide Selected, ByHistory, Chronicle;
    SelectedIsThere(clips, w, found);
    HistoryIsStrict(clips, Selected(clips, w, found));
    var h := Order.Sorted(Selected(clips, w, found), ByHistory(clips));
    ListingIsChronicle(clips, h, Selected(clips, w, found));
    h
  }

  /** The page by either plan. */
  method PageByPlan(clips: map<nat, Clip>, q: Query, w: Where, walk: bool, found: (bytes, Clip) -> bool) returns (page: seq<nat>)
    ensures page == Page(Picked(clips, w, found), OffsetOf(q), LimitOf(q))
  {
    hide *;
    if walk {
      page := Walk(clips, w, found, OffsetOf(q), LimitOf(q));
    } else {
      page := CollectPage(clips, w, found, OffsetOf(q), LimitOf(q));
    }
    assert Order.Listing(Picked(clips, w, found), Selected(clips, w, found), ByHistory(clips));
  }

  /**
   * The filter, the plan, and whether the probe alone shows that the count is at
   * its cap: a walk of the index pays off when enough clips are hit.
   */
  method Choose(clips: map<nat, Clip>, q: Query, showGrouped: bool, found: (bytes, Clip) -> bool)
    returns (w: Where, walk: bool, known: bool)
    requires KeysOk(clips)
    ensures Fits(q, showGrouped) ==> Selected(clips, w, found) == Matches(clips, q, showGrouped, found)
    ensures walk <==> q.query != [] && MatchOf(q.query).Some? && Many(Hits(clips, MatchOf(q.query).value, found))
    ensures known ==> q.query != [] && |Selected(clips, w, found)| >= PROBE_CAP
  {
    hide *;
    var plan, unused := SplitTerms(q.query, Where(Everywhere, 0, false, []));
    walk := false;
    if q.query != [] && plan.Some? {
      var n := Probe(clips, plan.value, found);
      walk := n >= PROBE_CAP;
      AtCap(Hits(clips, plan.value, found));
    }
    w := BuildWhere(q, showGrouped);
    if Fits(q, showGrouped) {
      SelectedIsMatches(clips, q, showGrouped, w, found);
    }
    known := walk && w.likeTerms == 0 && w.scope == Everywhere;
    if known {
      FullTextFits(q, showGrouped);
      ProbeIsEnough(clips, q, showGrouped, found);
    }
  }

  lemma FullTextFits(q: Query, showGrouped: bool)
    requires |ShortOnes(Terms(q.query))| == 0 && ScopeOf(q, showGrouped) == Everywhere
    ensures Fits(q, showGrouped)
  {
    hide Terms, LongOnes, ShortOnes, ScopeOf;
  }

  /**
   * One page of the history or of a search, in history order but for the
   * quick-paste clip, which comes first, once. Unless the query needs too many
   * parameters the page is, whichever plan it takes, the slice of the wanted clips.
   */
  method List(db: Db, q: Query, showGrouped: bool, found: (bytes, Clip) -> bool) returns (rows: seq<nat>, total: nat, more: bool)
    requires KeysOk(db.t.clips)
    ensures Fits(q, showGrouped) ==>
            var clips := db.t.clips;
            var m := Matches(clips, q, showGrouped, found);
            var page := Page(History(clips, q, showGrouped, found), OffsetOf(q), LimitOf(q));
            var quick := QuickSet(clips, q);
            && (quick == {} ==> rows == page)
            && (quick != {} ==> |rows| > 0 && quick == {rows[0]} && rows[1..] == Order.Kept(page, clips.Keys - quick))
            && total == Min(|if |page| < LimitOf(q) then m + quick else m|, COUNT_CAP)
            && more == (|if |page| < LimitOf(q) then m + quick else m| > COUNT_CAP)
    ensures QuickSet(db.t.clips, q) != {} ==> |rows| > 0 && QuickSet(db.t.clips, q) == {rows[0]}
    ensures Chronicle(db.t.clips, if QuickSet(db.t.clips, q) == {} then rows else rows[1..])
    ensures total <= 1000 && (more ==> total == 1000)
  {
    hide *;
    var clips := db.t.clips;
    var w, walk, known := Choose(clips, q, showGrouped, found);
    var quick := FindQuick(clips, q);
    var page := PageByPlan(clips, q, w, walk, found);
    QuickParts(clips, q, quick);
    ShownIs(clips, Picked(clips, w, found), OffsetOf(q), LimitOf(q), QuickSet(clips, q));
    var shown, matched := Others(page, quick, clips.Keys - QuickSet(clips, q));
    rows := (if quick.Some? then [quick.value] else []) + shown;
    Rows(rows, quick, shown);
    total := Count(clips, w, found, q.query != [], known);
    if Fits(q, showGrouped) {
      PickedIsHistory(clips, q, showGrouped, w, found);
      Totals(clips, q, showGrouped, found, page, quick, total);
    }
    if quick.Some? && !matched && |page| < LimitOf(q) {
      total := total + 1;
    }
    Capped(total);
    total, more := Min(total, COUNT_CAP), total > COUNT_CAP;
  }

  lemma Capped(n: nat)
    ensures Min(n, COUNT_CAP) <= 1000 && (n > COUNT_CAP ==> Min(n, COUNT_CAP) == 1000)
  {
  }

  lemma PickedIsHistory(clips: map<nat, Clip>, q: Query, showGrouped: bool, w: Where, found: (bytes, Clip) -> bool)
    requires Selected(clips, w, found) == Matches(clips, q, showGrouped, found)
    ensures Picked(clips, w, found) == History(clips, q, showGrouped, found)
  {
    hide *;
    Collected(clips, Picked(clips, w, found), q, showGrouped, found);
  }

  lemma Rows(rows: seq<nat>, quick: Option<nat>, shown: seq<nat>)
    requires rows == (if quick.Some? then [quick.value] else []) + shown
    ensures if quick.Some? then |rows| > 0 && rows[0] == quick.value && rows[1..] == shown else rows == shown
  {
  }

  /** Enough full-text hits for a walk of the index to be the better plan. */
  predicate Many(hits: set<nat>) { |hits| >= PROBE_CAP }

  lemma AtCap(hits: set<nat>)
    ensures Min(|hits|, PROBE_CAP) >= PROBE_CAP <==> Many(hits)
    ensures Many(hits) <==> |hits| >= PROBE_CAP
  {
  }

  method FindQuick(clips: map<nat, Clip>, q: Query) returns (quick: Option<nat>)
    requires KeysOk(clips)
    ensures QuickSet(clips, q) == if quick.Some? then {quick.value} else {}
    ensures quick.Some? ==> IsQuick(clips, q, quick.value)
  {
    hide IsQuick, KeysOk, QuickSet;
    quick := None;
    NoQuick(clips, q);
    if q.query != [] && OffsetOf(q) == 0 {
      if x :| x in clips && IsQuick(clips, q, x) {
        QuickIsOne(clips, q, x);
        quick := Some(x);
      }
    }
  }

  lemma QuickParts(clips: map<nat, Clip>, q: Query, quick: Option<nat>)
    requires QuickSet(clips, q) == if quick.Some? then {quick.value} else {}
    ensures quick.Some? ==> q.query != []
    ensures forall x :: x in clips ==> (x in clips.Keys - QuickSet(clips, q) <==> Some(x) != quick)
    ensures clips.Keys - {} == clips.Keys
  {
    hide QuickSet;
    NoQuick(clips, q);
  }

  /** The page's rows but for the quick-paste clip, and whether it was among them. */
  method Others(page: seq<nat>, quick: Option<nat>, ghost keep: set<nat>) returns (shown: seq<nat>, matched: bool)
    requires forall x :: x in page ==> (x in keep <==> Some(x) != quick)
    ensures matched <==> quick.Some? && quick.value in page
    ensures shown == Order.Kept(page, keep)
  {
    hide Order.Kept;
    shown, matched := [], false;
    KeptStart(page, keep);
    for i := 0 to |page|
      invariant matched <==> quick.Some? && quick.value in page[..i]
      invariant shown == Order.Kept(page[..i], keep)
    {
      KeptStep(page, keep, i);
      assert page[..i + 1] == page[..i] + [page[i]] && page[i] in page;
      if Some(page[i]) == quick {
        matched := true;
      } else {
        shown := shown + [page[i]];
      }
    }
    assert page[..|page|] == page;
  }

  /** The capped count, with the quick-paste clip counted once. */
  lemma Totals(clips: map<nat, Clip>, q: Query, showGrouped: bool, found: (bytes, Clip) -> bool, page: seq<nat>, quick: Option<nat>, n: nat)
    requires KeysOk(clips) && page == Page(History(clips, q, showGrouped, found), OffsetOf(q), LimitOf(q))
    requires QuickSet(clips, q) == if quick.Some? then {quick.value} else {}
    requires quick.Some? ==> IsQuick(clips, q, quick.value)
    requires var m := Matches(clips, q, showGrouped, found);
             n == Min(|m|, COUNT_CAP + 1) || (n == |m| && quick.None?)
    ensures var m := Matches(clips, q, showGrouped, found);
            var all := if |page| < LimitOf(q) then m + QuickSet(clips, q) else m;
            var sum := n + if quick.Some? && quick.value !in page && |page| < LimitOf(q) then 1 else 0;
            Min(sum, COUNT_CAP) == Min(|all|, COUNT_CAP) && (sum > COUNT_CAP <==> |all| > COUNT_CAP)
  {
    hide Matches, History, OffsetOf, LimitOf, IsQuick, QuickSet, KeysOk, Page;
    Counted(clips, q, showGrouped, found, page);
  }

  lemma NoQuick(clips: map<nat, Clip>, q: Query)
    ensures QuickSet(clips, q) == {} <==> forall x :: x in clips ==> !IsQuick(clips, q, x)
    ensures q.query == [] || OffsetOf(q) != 0 ==> QuickSet(clips, q) == {}
  {
    if QuickSet(clips, q) == {} {
      forall x | x in clips ensures !IsQuick(clips, q, x) {
        assert x !in QuickSet(clips, q);
      }
    }
  }

  lemma ProbeIsEnough(clips: map<nat, Clip>, q: Query, showGrouped: bool, found: (bytes, Clip) -> bool)
    requires MatchOf(q.query).Some? && |ShortOnes(Terms(q.query))| == 0 && ScopeOf(q, showGrouped) == Everywhere
    ensures Hits(clips, MatchOf(q.query).value, found) == Matches(clips, q, showGrouped, found)
  {
    hide Terms, LongOnes, ShortOnes, Expression, ReadExpression, Long, ShortIn;
    var longs := LongOnes(Terms(q.query));
    ExpressionReadsBack(longs);
    forall id | id in clips ensures FullText(Expression(longs), clips[id], found) <==> Wanted(q, showGrouped, clips[id], found) {
      LongsAndShorts(q, clips[id], found);
    }
  }

  lemma Collected(clips: map<nat, Clip>, all: seq<nat>, q: Query, showGrouped: bool, found: (bytes, Clip) -> bool)
    requires Order.Listing(all, Matches(clips, q, showGrouped, found), ByHistory(clips))
    ensures all == History(clips, q, showGrouped, found)
  {
    hide *;
    var m := Matches(clips, q, showGrouped, found);
    HistoryIsStrict(clips, m);
    Order.ListingUnique(all, History(clips, q, showGrouped, found), m, ByHistory(clips));
  }

  /** The rows of a page are there and in order, and stay so without the quick-paste clip. */
  lemma ShownIs(clips: map<nat, Clip>, h: seq<nat>, offset: nat, limit: nat, quick: set<nat>)
    requires Chronicle(clips, h)
    ensures var page := Page(h, offset, limit);
            && (forall x :: x in page ==> x in clips && (x in clips.Keys - quick <==> x !in quick))
            && Chronicle(clips, Order.Kept(page, clips.Keys - quick)) && Order.Kept(page, clips.Keys) == page
  {
    hide Leads, Page;
    ChroniclePage(clips, h, offset, limit);
    ChronicleKept(clips, Page(h, offset, limit), clips.Keys - quick);
    KeptAll(Page(h, offset, limit), clips.Keys);
  }

  lemma PageInside(s: seq<nat>, offset: nat, limit: nat)
    ensures forall x :: x in Page(s, offset, limit) ==> x in s
  {
  }

  lemma {:induction false} KeptAll(s: seq<nat>, keep: set<nat>)
    requires forall x :: x in s ==> x in keep
    ensures Order.Kept(s, keep) == s
  {
    if s != [] {
      KeptAll(s[..|s| - 1], keep);
      assert s == s[..|s| - 1] + [s[|s| - 1]];
    }
  }

  /** On a first page that is not full everything wanted is shown. */
  lemma Counted(clips: map<nat, Clip>, q: Query, showGrouped: bool, found: (bytes, Clip) -> bool, page: seq<nat>)
    requires KeysOk(clips) && page == Page(History(clips, q, showGrouped, found), OffsetOf(q), LimitOf(q))
    ensures var m := Matches(clips, q, showGrouped, found);
            && (QuickSet(clips, q) == {} ==> m + QuickSet(clips, q) == m)
            && forall x :: IsQuick(clips, q, x) && |page| < LimitOf(q) ==>
                 |m + QuickSet(clips, q)| == |m| + if x in page then 0 else 1
  {
    hide Matches, History, ByHistory, IsQuick, QuickSet, KeysOk;
    var m := Matches(clips, q, showGrouped, found);
    var h := History(clips, q, showGrouped, found);
    forall x | IsQuick(clips, q, x) && |page| < LimitOf(q)
      ensures |m + QuickSet(clips, q)| == |m| + if x in page then 0 else 1
    {
      QuickIsOne(clips, q, x);
      QuickAtStart(clips, q, x);
      assert page == h;
      if x in m {
        assert m + {x} == m;
      }
    }
  }

  lemma QuickAtStart(clips: map<nat, Clip>, q: Query, x: nat)
    requires IsQuick(clips, q, x)
    ensures OffsetOf(q) == 0
  {
  }

  // ---- positions --------------------------------------------------------------------------------

  /** The query of plain history. */
  const HISTORY := Query([], 0, false, 0, 0)

  /** db_id_at_position; SQLite reads a negative offset as none. */
  method IdAtPosition(db: Db, showGrouped: bool, pos: int, found: (bytes, Clip) -> bool) returns (id: nat)
    requires 0 !in db.t.clips
    ensures var h := History(db.t.clips, HISTORY, showGrouped, found);
            var p: nat := if pos > 0 then pos else 0;
            id == (if p < |h| then h[p] else 0) && Chronicle(db.t.clips, h)
  {
    hide *;
    var clips := db.t.clips;
    HistoryIs(clips, HISTORY, showGrouped, found);
    var w := BuildWhere(HISTORY, showGrouped);
    PlainFits(showGrouped);
    SelectedIsMatches(clips, HISTORY, showGrouped, w, found);
    var page := CollectPage(clips, w, found, if pos > 0 then pos else 0, 1);
    ghost var h := History(clips, HISTORY, showGrouped, found);
    assert Order.Listing(h, Selected(clips, w, found), ByHistory(clips));
    OneRow(h, if pos > 0 then pos else 0);
    id := if |page| > 0 then page[0] else 0;
  }

  lemma PlainFits(showGrouped: bool)
    ensures Fits(HISTORY, showGrouped)
  {
    assert Terms([]) == [];
  }

  lemma OneRow(s: seq<nat>, p: nat)
    ensures Page(s, p, 1) == if p < |s| then [s[p]] else []
  {
  }

  /** With no search, row k of a page is the clip at position offset + k. */
  lemma RowIsPosition(clips: map<nat, Clip>, q: Query, showGrouped: bool, found: (bytes, Clip) -> bool, k: nat)
    requires q.query == [] && q.groupId == 0 && !q.allGroups
    requires k < |Page(History(clips, q, showGrouped, found), OffsetOf(q), LimitOf(q))|
    ensures QuickSet(clips, q) == {}
    ensures var h := History(clips, HISTORY, showGrouped, found);
            var at := k + if q.offset > 0 then q.offset else 0;
            && k < (if q.limit > 0 then q.limit else 200)
            && at < |h| && Page(History(clips, q, showGrouped, found), OffsetOf(q), LimitOf(q))[k] == h[at]
  {
    OffsetAndLimit(q);
    hide History, OffsetOf, LimitOf, IsQuick, ByHistory;
    NoQuick(clips, q);
    assert Matches(clips, q, showGrouped, found) == Matches(clips, HISTORY, showGrouped, found);
    Collected(clips, History(clips, q, showGrouped, found), HISTORY, showGrouped, found);
  }
}
