/**
 * The two readings of an application glob: fnmatch's (daemon/src/rules.c), which
 * takes characters and folds their case, and that of the Lua pattern made from
 * it (daemon/src/hypr.c), which takes bytes.
 */
module Globs {
  import opened Bytes
  import opened LuaGlob
  import opened Utf8

  const BRACKET: nat := 91 // [

  /** ASCII lower case, for a character. */
  function LowerOne(c: nat): nat { if 65 <= c <= 90 then c + 32 else c }

  function LowerEach(s: seq<nat>): seq<nat> { seq(|s|, i requires 0 <= i < |s| => LowerOne(s[i])) }

  /**
   * fnmatch(g, s, FNM_CASEFOLD) == 0 in a locale whose characters fold as `fold`
   * says, for a glob without sets.
   */
  predicate FnMatches(g: seq<nat>, s: seq<nat>, fold: nat -> nat)
    requires BRACKET !in g
    decreases |g| + |s|
  {
    if g == [] then s == []
    else if g[0] == STAR then FnMatches(g[1..], s, fold) || (s != [] && FnMatches(g, s[1..], fold))
    else if g[0] == QUESTION then s != [] && FnMatches(g[1..], s[1..], fold)
    else if g[0] == BACKSLASH then
      |g| > 1 && s != [] && fold(g[1]) == fold(s[0]) && FnMatches(g[2..], s[1..], fold)
    else s != [] && fold(g[0]) == fold(s[0]) && FnMatches(g[1..], s[1..], fold)
  }

  /** Every character with a backslash before it. */
  function EscapedEach(t: seq<nat>): seq<nat> {
    if t == [] then [] else [BACKSLASH, t[0]] + EscapedEach(t[1..])
  }

  /** An escaped text stands for itself, whatever it is made of, case aside. */
  lemma {:induction false} EscapedIsLiteral(t: seq<nat>, s: seq<nat>, fold: nat -> nat)
    requires BRACKET !in t
    ensures BRACKET !in EscapedEach(t)
    ensures FnMatches(EscapedEach(t), s, fold) <==> |s| == |t| && forall i :: 0 <= i < |t| ==> fold(t[i]) == fold(s[i])
    decreases |t|
  {
    if t != [] {
      var e := EscapedEach(t);
      assert e[2..] == EscapedEach(t[1..]) && e[0] == BACKSLASH && e[1] == t[0];
      assert forall c :: c in t[1..] ==> c in t;
      if s != [] {
        EscapedIsLiteral(t[1..], s[1..], fold);
        if |s| == |t| && forall i :: 0 <= i < |t| - 1 ==> fold(t[1..][i]) == fold(s[1..][i]) {
          forall i | 0 < i < |t| ensures fold(t[i]) == fold(s[i]) { assert t[i] == t[1..][i - 1] && s[i] == s[1..][i - 1]; }
        }
      } else {
        EscapedIsLiteral(t[1..], s, fold);
      }
    }
  }

  /** What the pattern sent to Lua says of a class. */
  predicate PatternTakes(g: seq<nat>, s: seq<nat>)
    requires Scalars(g) && Scalars(s)
  {
    PatternMeansGlob(EncodeAll(g), EncodeAll(s));
    Finds(Pattern(EncodeAll(g)), LowerAll(EncodeAll(s)))
  }

  predicate Ascii(s: seq<nat>) { forall c :: c in s ==> c < 128 }

  /** A glob of *, ? and literal characters. */
  predicate Plain(g: seq<nat>) { BRACKET !in g && BACKSLASH !in g }

  /** The characters of s fold as they do in ASCII: letters to lower case, the others not at all. */
  predicate FoldsPlainly(fold: nat -> nat, s: seq<nat>) { forall c :: c in s ==> fold(c) == LowerOne(c) }

  // ---- characters and bytes ----------------------------------------------------------------

  lemma EncodeLower(c: nat)
    requires Scalar(c)
    ensures Scalar(LowerOne(c)) && LowerAll(Encode(c)) == Encode(LowerOne(c))
  {
    if c >= 128 {
      BytesOfOne(c);
      assert forall i :: 0 <= i < |Encode(c)| ==> Lower(Encode(c)[i]) == Encode(c)[i];
    }
  }

  /** A character's first byte starts it; those that follow only continue it, and none of a long one is ASCII. */
  lemma BytesOfOne(c: nat)
    requires Scalar(c)
    ensures |Encode(c)| > 0 && !Continues(Encode(c)[0])
    ensures forall i :: 0 < i < |Encode(c)| ==> Continues(Encode(c)[i])
    ensures if c < 128 then Encode(c) == [c] else |Encode(c)| > 1 && forall i :: 0 <= i < |Encode(c)| ==> Encode(c)[i] >= 128
  {
  }

  lemma LowerAppend(x: bytes, y: bytes)
    ensures LowerAll(x + y) == LowerAll(x) + LowerAll(y)
  {
  }

  lemma {:induction false} EncodeAllLower(s: seq<nat>)
    requires Scalars(s)
    ensures Scalars(LowerEach(s)) && LowerAll(EncodeAll(s)) == EncodeAll(LowerEach(s))
  {
    hide Encode, Lower, LowerOne, LowerAll;
    if s == [] {
      LowerNothing();
    } else {
      EncodeLower(s[0]);
      EncodeAllLower(s[1..]);
      LowerAppend(Encode(s[0]), EncodeAll(s[1..]));
      assert LowerEach(s) == [LowerOne(s[0])] + LowerEach(s[1..]);
      assert LowerEach(s)[1..] == LowerEach(s[1..]);
    }
  }

  lemma LowerNothing()
    ensures LowerAll([]) == []
  {
  }

  /** Literal bytes at the front of a glob must be the front of the text. */
  lemma {:induction false} LiteralFront(l: bytes, g: bytes, t: bytes)
    requires STAR !in l && QUESTION !in l
    ensures GlobMatches(l + g, t) <==> l <= t && GlobMatches(g, t[|l|..])
  {
    if l == [] {
      assert l + g == g && t[0..] == t;
    } else {
      assert (l + g)[1..] == l[1..] + g;
      if t != [] {
        LiteralFront(l[1..], g, t[1..]);
        assert l <= t ==> t[1..][|l| - 1..] == t[|l|..];
        assert l <= t <==> l[0] == t[0] && l[1..] <= t[1..];
      }
    }
  }

  lemma {:induction false} StarTakes(g: bytes, x: bytes, t: bytes)
    requires g != [] && g[0] == STAR && GlobMatches(g, t)
    ensures GlobMatches(g, x + t)
  {
    if x == [] {
      assert x + t == t;
    } else {
      StarTakes(g, x[1..], t);
      assert (x + t)[1..] == x[1..] + t;
    }
  }

  lemma EncodeHead(g: seq<nat>)
    requires Scalars(g) && g != []
    ensures Scalar(g[0]) && Scalars(g[1..]) && EncodeAll(g) == Encode(g[0]) + EncodeAll(g[1..])
    ensures EncodeAll(g) != []
    ensures g[0] < 128 ==> EncodeAll(g)[0] == g[0] && EncodeAll(g)[1..] == EncodeAll(g[1..])
  {
    BytesOfOne(g[0]);
    hide Encode;
  }

  /** Without ?, no glob can use a byte in the middle of a character. */
  lemma {:induction false} MiddleIsNoUse(g: seq<nat>, x: bytes, t: bytes)
    requires Scalars(g) && QUESTION !in g && forall i :: 0 <= i < |x| ==> Continues(x[i])
    requires GlobMatches(EncodeAll(g), x + t)
    ensures GlobMatches(EncodeAll(g), t)
    decreases |g|, |x|
  {
    if x == [] {
      assert x + t == t;
    } else if g != [] {
      assert (x + t)[1..] == x[1..] + t && (x + t)[0] == x[0];
      EncodeHead(g);
      BytesOfOne(g[0]);
      hide Encode, EncodeAll;
      if g[0] == STAR {
        if GlobMatches(EncodeAll(g[1..]), x + t) {
          MiddleIsNoUse(g[1..], x, t);
        } else {
          MiddleIsNoUse(g, x[1..], t);
        }
      } else {
        LiteralIsNotMiddle(g[0], EncodeAll(g[1..]), x, t);
      }
    }
  }

  lemma LiteralIsNotMiddle(c: nat, g: bytes, x: bytes, t: bytes)
    requires Scalar(c) && c != STAR && c != QUESTION && x != [] && Continues(x[0])
    ensures !GlobMatches(Encode(c) + g, x + t)
  {
    BytesOfOne(c);
    hide Encode;
    LiteralFront(Encode(c), g, x + t);
    assert (x + t)[0] == x[0];
  }

  /** One character is not the front of another. */
  lemma PrefixFree(c: nat, d: nat, t: bytes)
    requires Scalar(c) && Scalar(d)
    ensures Encode(c) <= Encode(d) + t <==> c == d
  {
    hide Encode, Front;
    var s := Encode(d) + t;
    EncodedIsFront(d, t);
    if Encode(c) <= s {
      EncodedIsFront(c, s[|Encode(c)|..]);
      assert s == Encode(c) + s[|Encode(c)|..];
    }
  }

  // ---- where the two agree ---------------------------------------------------------------------

  lemma LowerHead(s: seq<nat>)
    requires Scalars(s) && s != []
    ensures Scalars(LowerEach(s)) && Scalars(LowerEach(s[1..])) && Scalar(LowerOne(s[0]))
    ensures EncodeAll(LowerEach(s)) == Encode(LowerOne(s[0])) + EncodeAll(LowerEach(s[1..]))
    ensures LowerEach(s)[0] == LowerOne(s[0]) && LowerEach(s)[1..] == LowerEach(s[1..])
  {
    hide Encode;
    EncodeAllLower(s);
    EncodeAllLower(s[1..]);
    assert LowerEach(s)[1..] == LowerEach(s[1..]);
  }

  lemma LowerLengths(g: seq<nat>, s: seq<nat>)
    ensures |LowerEach(g)| == |g| && |LowerEach(s)| == |s|
  {
  }

  lemma LowerKeeps(s: seq<nat>)
    ensures (QUESTION in LowerEach(s) <==> QUESTION in s) && (Ascii(s) <==> Ascii(LowerEach(s)))
  {
    forall i | 0 <= i < |s|
      ensures LowerEach(s)[i] in LowerEach(s) && s[i] in s && (LowerEach(s)[i] == QUESTION <==> s[i] == QUESTION)
              && (LowerEach(s)[i] < 128 <==> s[i] < 128)
    {
    }
  }

  lemma StarOnce(g: bytes, s: bytes)
    requires g != [] && g[0] == STAR
    ensures GlobMatches(g, s) <==> GlobMatches(g[1..], s) || (s != [] && GlobMatches(g, s[1..]))
  {
  }

  /** A star before the rest of a glob takes whole characters. */
  lemma StarStep(g: seq<nat>, s: seq<nat>)
    requires Scalars(g) && Scalars(s) && g != [] && g[0] == STAR && s != [] && (QUESTION !in g || Ascii(s))
    ensures GlobMatches(EncodeAll(g), EncodeAll(s)) <==>
              GlobMatches(EncodeAll(g[1..]), EncodeAll(s)) || GlobMatches(EncodeAll(g), EncodeAll(s[1..]))
  {
    hide EncodeAll, Encode, GlobMatches, Scalar, Continues;
    EncodeHead(g);
    StarOnce(EncodeAll(g), EncodeAll(s));
    FrontCharacter(s);
    var (x, t) := (EncodeAll(s)[1..|EncodeAll(s)| - |EncodeAll(s[1..])|], EncodeAll(s[1..]));
    assert EncodeAll(s)[1..] == x + t;
    if GlobMatches(EncodeAll(g), x + t) {
      if QUESTION !in g {
        MiddleIsNoUse(g, x, t);
      } else {
        assert s[0] in s && x + t == t;
      }
    }
    if GlobMatches(EncodeAll(g), t) {
      StarTakes(EncodeAll(g), x, t);
    }
  }

  /** The bytes of a text: those of its first character, of which all but the first continue it, then the rest. */
  lemma FrontCharacter(s: seq<nat>)
    requires Scalars(s) && s != []
    ensures var n := |EncodeAll(s)| - |EncodeAll(s[1..])|;
            && 0 < n <= |EncodeAll(s)| && EncodeAll(s)[n..] == EncodeAll(s[1..])
            && (forall i :: 1 <= i < n ==> Continues(EncodeAll(s)[i])) && (s[0] < 128 ==> n == 1)
  {
    EncodeHead(s);
    BytesOfOne(s[0]);
    hide EncodeAll, Encode, Continues;
  }

  lemma LiteralStep(c: nat, g: bytes, d: nat, t: bytes)
    requires Scalar(c) && Scalar(d) && c != STAR && c != QUESTION
    ensures GlobMatches(Encode(c) + g, Encode(d) + t) <==> c == d && GlobMatches(g, t)
    ensures !GlobMatches(Encode(c) + g, [])
  {
    BytesOfOne(c);
    hide Encode;
    var s := Encode(d) + t;
    LiteralFront(Encode(c), g, s);
    LiteralFront(Encode(c), g, []);
    PrefixFree(c, d, t);
    assert (Encode(d) + t)[|Encode(d)|..] == t;
  }

  lemma Tails(s: seq<nat>, fold: nat -> nat)
    ensures s != [] ==>
              && (Scalars(s) ==> Scalars(s[1..])) && (Plain(s) ==> Plain(s[1..])) && (Ascii(s) ==> Ascii(s[1..]) && s[0] < 128)
              && (FoldsPlainly(fold, s) ==> FoldsPlainly(fold, s[1..]) && fold(s[0]) == LowerOne(s[0]))
              && (QUESTION in s <==> s[0] == QUESTION || QUESTION in s[1..])
              && (BACKSLASH !in s ==> s[0] != BACKSLASH)
  {
    if s != [] { assert s[0] in s; }
    assert forall c :: s != [] && c in s[1..] ==> c in s;
  }

  /** * and ? are their own lower case, and no letter has one of them for it. */
  lemma SpecialsStay(c: nat)
    ensures LowerOne(c) == STAR <==> c == STAR
    ensures LowerOne(c) == QUESTION <==> c == QUESTION
    ensures c < 128 ==> LowerOne(c) < 128
  {
  }

  lemma QuestionStep(g: bytes, c: nat, t: bytes)
    requires c < 128
    ensures GlobMatches(Encode(QUESTION) + g, Encode(c) + t) <==> GlobMatches(g, t)
  {
    assert Encode(QUESTION) == [QUESTION] && Encode(c) == [c];
    assert ([QUESTION] + g)[1..] == g && ([c] + t)[1..] == t;
  }

  /** What is left when the glob or the text is at its end. */
  lemma AtTheEnd(g: seq<nat>, s: seq<nat>)
    requires Scalars(g) && Scalars(s)
    ensures g == [] ==> (GlobMatches(EncodeAll(g), EncodeAll(s)) <==> s == [])
    ensures s == [] ==> EncodeAll(s) == []
    ensures g != [] && s == [] && g[0] == STAR ==>
              (GlobMatches(EncodeAll(g), EncodeAll(s)) <==> GlobMatches(EncodeAll(g[1..]), EncodeAll(s)))
    ensures g != [] && s == [] && g[0] == QUESTION ==> !GlobMatches(EncodeAll(g), EncodeAll(s))
  {
    if s != [] { BytesOfOne(s[0]); }
    if g != [] { EncodeHead(g); }
    hide Encode;
  }

  lemma {:induction false} BytesAreCharacters(g: seq<nat>, s: seq<nat>, fold: nat -> nat)
    requires Scalars(g) && Scalars(s) && Plain(g) && FoldsPlainly(fold, g) && FoldsPlainly(fold, s)
    requires QUESTION !in g || Ascii(s)
    ensures Scalars(LowerEach(g)) && Scalars(LowerEach(s))
    ensures GlobMatches(EncodeAll(LowerEach(g)), EncodeAll(LowerEach(s))) <==> FnMatches(g, s, fold)
    decreases |g| + |s|
  {
    hide EncodeAll, Encode, LowerEach, GlobMatches, LowerOne;
    EncodeAllLower(g);
    EncodeAllLower(s);
    LowerLengths(g, s);
    AtTheEnd(LowerEach(g), LowerEach(s));
    if g != [] {
      Tails(g, fold);
      Tails(s, fold);
      LowerHead(g);
      LowerKeeps(g);
      LowerKeeps(s);
      SpecialsStay(g[0]);
      BytesAreCharacters(g[1..], s, fold);
      if s != [] {
        LowerHead(s);
        BytesAreCharacters(g[1..], s[1..], fold);
        if g[0] == STAR {
          BytesAreCharacters(g, s[1..], fold);
          StarStep(LowerEach(g), LowerEach(s));
        } else if g[0] == QUESTION {
          SpecialsStay(s[0]);
          QuestionStep(EncodeAll(LowerEach(g[1..])), LowerOne(s[0]), EncodeAll(LowerEach(s[1..])));
        } else {
          LiteralStep(LowerOne(g[0]), EncodeAll(LowerEach(g[1..])), LowerOne(s[0]), EncodeAll(LowerEach(s[1..])));
        }
      } else if g[0] != STAR && g[0] != QUESTION {
        LiteralStep(LowerOne(g[0]), EncodeAll(LowerEach(g[1..])), 0, []);
      }
    }
  }

  /**
   * The pattern and fnmatch agree on every class whose characters fold plainly,
   * under every plain glob whose characters do, if the glob has no ? or the class
   * is ASCII.
   */
  lemma PlainGlobsAgree(g: seq<nat>, s: seq<nat>, fold: nat -> nat)
    requires Scalars(g) && Scalars(s) && Plain(g) && FoldsPlainly(fold, g) && FoldsPlainly(fold, s)
    requires QUESTION !in g || Ascii(s)
    ensures PatternTakes(g, s) <==> FnMatches(g, s, fold)
  {
    hide EncodeAll, LowerEach, LowerAll, GlobMatches, FnMatches, Pattern, Finds, Simple;
    PatternMeansGlob(EncodeAll(g), EncodeAll(s));
    EncodeAllLower(g);
    EncodeAllLower(s);
    BytesAreCharacters(g, s, fold);
  }

  /** n question marks. */
  function Questions(n: nat): seq<nat> { seq(n, _ => QUESTION as nat) }

  lemma {:induction false} QuestionsCount(s: seq<nat>, fold: nat -> nat)
    ensures FnMatches(Questions(|s|), s, fold)
  {
    if s != [] {
      QuestionsCount(s[1..], fold);
      assert Questions(|s|)[1..] == Questions(|s| - 1);
    }
  }

  lemma {:induction false} QuestionBytes(n: nat, t: bytes)
    ensures Scalars(Questions(n)) && LowerEach(Questions(n)) == Questions(n)
    ensures GlobMatches(EncodeAll(Questions(n)), t) <==> |t| == n
  {
    if n > 0 {
      assert Questions(n)[1..] == Questions(n - 1);
      EncodeHead(Questions(n));
      QuestionBytes(n - 1, if t == [] then t else t[1..]);
      hide EncodeAll;
    }
  }

  lemma {:induction false} MoreBytes(s: seq<nat>)
    requires Scalars(s)
    ensures |EncodeAll(s)| >= |s| && (|EncodeAll(s)| == |s| <==> Ascii(s))
  {
    if s != [] {
      MoreBytes(s[1..]);
      BytesOfOne(s[0]);
      EncodeHead(s);
      hide EncodeAll, Encode;
      assert forall c :: c in s <==> c == s[0] || c in s[1..];
      assert Ascii(s) <==> s[0] < 128 && Ascii(s[1..]);
    }
  }

  ghost predicate AllAgree(s: seq<nat>, fold: nat -> nat)
    requires Scalars(s)
  {
    forall g: seq<nat> :: Scalars(g) && Plain(g) && FoldsPlainly(fold, g) ==> (PatternTakes(g, s) <==> FnMatches(g, s, fold))
  }

  /** The classes on which the two agree under every such glob are exactly the ASCII ones. */
  lemma ClassesThatAgree(s: seq<nat>, fold: nat -> nat)
    requires Scalars(s) && FoldsPlainly(fold, s) && fold(QUESTION as nat) == QUESTION as nat
    ensures AllAgree(s, fold) <==> Ascii(s)
  {
    hide PatternTakes, FnMatches, EncodeAll;
    if Ascii(s) {
      forall g: seq<nat> | Scalars(g) && Plain(g) && FoldsPlainly(fold, g)
        ensures PatternTakes(g, s) <==> FnMatches(g, s, fold)
      {
        PlainGlobsAgree(g, s, fold);
      }
    } else {
      QuestionsMiss(s, fold);
      var g := Questions(|s|);
      assert Scalars(g) && Plain(g) && FoldsPlainly(fold, g);
      assert PatternTakes(g, s) != FnMatches(g, s, fold);
    }
  }

  /** A question mark for every character of a class that is not ASCII: too few for its bytes. */
  lemma QuestionsMiss(s: seq<nat>, fold: nat -> nat)
    requires Scalars(s) && !Ascii(s)
    ensures var g := Questions(|s|); Scalars(g) && Plain(g) && FnMatches(g, s, fold) && !PatternTakes(g, s)
  {
    hide EncodeAll, LowerEach, LowerAll, GlobMatches, Pattern, Finds, Simple;
    QuestionsCount(s, fold);
    QuestionBytes(|s|, LowerAll(EncodeAll(s)));
    PatternMeansGlob(EncodeAll(Questions(|s|)), EncodeAll(s));
    EncodeAllLower(Questions(|s|));
    EncodeAllLower(s);
    MoreBytes(LowerEach(s));
    LowerLengths(s, s);
    LowerKeeps(s);
  }

  const E_ACUTE: nat := 0xE9 // the small letter
  const E_ACUTE_CAPITAL: nat := 0xC9

  /** Three pairs of a glob and a class on which they differ: ?, an accented capital, and an escape. */
  lemma TheyDiffer(fold: nat -> nat)
    requires fold(E_ACUTE_CAPITAL) == E_ACUTE == fold(E_ACUTE) && fold(97) == 97
    ensures FnMatches([QUESTION as nat], [E_ACUTE], fold) && !PatternTakes([QUESTION as nat], [E_ACUTE])
    ensures FnMatches([E_ACUTE_CAPITAL], [E_ACUTE], fold) && !PatternTakes([E_ACUTE_CAPITAL], [E_ACUTE])
    ensures FnMatches([BACKSLASH as nat, 97], [97], fold) && !PatternTakes([BACKSLASH as nat, 97], [97])
  {
    NotTaken([QUESTION as nat], [E_ACUTE], [QUESTION], [0xC3, 0xA9]);
    NotTaken([E_ACUTE_CAPITAL], [E_ACUTE], [0xC3, 0x89], [0xC3, 0xA9]);
    NotTaken([BACKSLASH as nat, 97], [97], [BACKSLASH, 97], [97]);
  }

  lemma NotTaken(g: seq<nat>, s: seq<nat>, x: bytes, y: bytes)
    requires Scalars(g) && Scalars(s) && EncodeAll(g) == x && EncodeAll(s) == y && !GlobMatches(LowerAll(x), LowerAll(y))
    ensures !PatternTakes(g, s)
  {
    hide EncodeAll, LowerAll, GlobMatches, Pattern, Finds, Simple;
    PatternMeansGlob(x, y);
  }
}
