/**
 * The managed block in a user's configuration file (scripts/clipnet): two line
 * machines, one that writes or replaces the block and one that takes it out.
 */
module Blocks {
  type line = string

  const BEGIN_MARK: line := "-- >>> CLIP//NET (managed) >>>"
  const END_MARK: line := "-- <<< CLIP//NET (managed) <<<"

  predicate IsMark(l: line) { l == BEGIN_MARK || l == END_MARK }

  ghost predicate Clean(ls: seq<line>) { forall l :: l in ls ==> !IsMark(l) }

  lemma MarksDiffer()
    ensures BEGIN_MARK != END_MARK && BEGIN_MARK != "" && END_MARK != ""
  {
    assert BEGIN_MARK[3] == '>' && END_MARK[3] == '<';
  }

  // ---- texts and their lines ---------------------------------------------------

  /** The records of a text: newlines end lines, and a last line may lack one. */
  function Lines(t: string): (ls: seq<line>)
    ensures forall l :: l in ls ==> '\n' !in l
  {
    if t == "" then [] else
      var (l, rest) := (FirstLine(t), t[|FirstLine(t)|..]);
      [l] + if rest == "" then [] else Lines(rest[1..])
  }

  function FirstLine(t: string): (l: line)
    ensures l <= t && '\n' !in l && (|l| < |t| ==> t[|l|] == '\n')
  {
    if t == "" || t[0] == '\n' then "" else [t[0]] + FirstLine(t[1..])
  }

  /** Every line printed with its newline. */
  function Printed(ls: seq<line>): string {
    if ls == [] then "" else ls[0] + "\n" + Printed(ls[1..])
  }

  predicate Complete(t: string) { t == "" || t[|t| - 1] == '\n' }

  lemma {:induction false} FirstLineOf(l: line, rest: string)
    requires '\n' !in l
    ensures FirstLine(l + "\n" + rest) == l
  {
    if l == "" {
      assert l + "\n" + rest == "\n" + rest;
    } else {
      FirstLineOf(l[1..], rest);
      assert (l + "\n" + rest)[1..] == l[1..] + "\n" + rest;
    }
  }

  lemma {:induction false} LinesOfPrinted(ls: seq<line>)
    requires forall l :: l in ls ==> '\n' !in l
    ensures Lines(Printed(ls)) == ls
  {
    if ls != [] {
      var t := Printed(ls);
      FirstLineOf(ls[0], Printed(ls[1..]));
      LinesOfPrinted(ls[1..]);
      assert t[|ls[0]|..][1..] == Printed(ls[1..]);
    }
  }

  lemma {:induction false} PrintedLines(t: string)
    ensures Printed(Lines(t)) == if Complete(t) then t else t + "\n"
  {
    hide Lines, Printed, FirstLine;
    if t == "" {
      LinesAt(t);
    } else {
      var l := FirstLine(t);
      var rest := t[|l|..];
      LinesAt(t);
      assert t == l + rest;
      if rest == "" {
        assert t[|t| - 1] in l;
      } else {
        PrintedLines(rest[1..]);
        assert t == l + "\n" + rest[1..];
        assert Complete(rest[1..]) <==> Complete(t);
        assert l + "\n" + (rest[1..] + "\n") == l + "\n" + rest[1..] + "\n";
      }
    }
  }

  lemma LinesAt(t: string)
    ensures Lines("") == [] && Printed([]) == ""
    ensures t != "" ==> var (l, rest) := (FirstLine(t), t[|FirstLine(t)|..]);
              Printed(Lines(t)) == l + "\n" + if rest == "" then "" else Printed(Lines(rest[1..]))
  {
    hide FirstLine;
    if t != "" {
      var (l, rest) := (FirstLine(t), t[|FirstLine(t)|..]);
      assert Lines(t)[1..] == if rest == "" then [] else Lines(rest[1..]);
    }
  }

  lemma {:induction false} PrintedIsComplete(ls: seq<line>)
    ensures Complete(Printed(ls))
  {
    if ls != [] {
      PrintedIsComplete(ls[1..]);
    }
  }

  // ---- writing ------------------------------------------------------------------

  function Block(c: seq<line>): seq<line> { [BEGIN_MARK] + c + [END_MARK] }

  /** What comes out of the remaining lines: the block replaces the first one or is appended. */
  function Written(ls: seq<line>, c: seq<line>, skipping: bool, done: bool): seq<line> {
    if ls == [] then
      if done then [] else [""] + Block(c)
    else if ls[0] == BEGIN_MARK then
      (if done then [] else Block(c)) + Written(ls[1..], c, true, true)
    else if ls[0] == END_MARK then
      Written(ls[1..], c, false, done)
    else
      (if skipping then [] else [ls[0]]) + Written(ls[1..], c, skipping, done)
  }

  /** The lines outside every block. */
  function Kept(ls: seq<line>, skipping: bool): (k: seq<line>) {
    if ls == [] then []
    else if ls[0] == BEGIN_MARK then Kept(ls[1..], true)
    else if ls[0] == END_MARK then Kept(ls[1..], false)
    else (if skipping then [] else [ls[0]]) + Kept(ls[1..], skipping)
  }

  lemma {:induction false} KeptIsClean(ls: seq<line>, skipping: bool)
    ensures Clean(Kept(ls, skipping))
  {
    if ls != [] {
      KeptIsClean(ls[1..], true);
      KeptIsClean(ls[1..], false);
    }
  }

  lemma {:induction false} KeptOfClean(ls: seq<line>, skipping: bool)
    requires Clean(ls)
    ensures Kept(ls, skipping) == if skipping then [] else ls
  {
    if ls != [] {
      assert ls[0] in ls;
      KeptOfClean(ls[1..], skipping);
    }
  }

  /** Once the block is out, only kept lines follow. */
  lemma {:induction false} WrittenDone(ls: seq<line>, c: seq<line>, skipping: bool)
    ensures Written(ls, c, skipping, true) == Kept(ls, skipping)
  {
    if ls != [] {
      WrittenDone(ls[1..], c, true);
      WrittenDone(ls[1..], c, false);
    }
  }

  /** Where the block goes: the kept lines before it and those after it. */
  function Before(ls: seq<line>, skipping: bool): seq<line> {
    if ls == [] then [""]
    else if ls[0] == BEGIN_MARK then []
    else if ls[0] == END_MARK then Before(ls[1..], false)
    else (if skipping then [] else [ls[0]]) + Before(ls[1..], skipping)
  }

  function After(ls: seq<line>, skipping: bool): seq<line> {
    if ls == [] then []
    else if ls[0] == BEGIN_MARK then Kept(ls[1..], true)
    else After(ls[1..], skipping && ls[0] != END_MARK)
  }

  /** What an ordinary or an end line gives before the block has been seen. */
  function Lead(l: line, skipping: bool): seq<line> {
    if skipping || l == END_MARK then [] else [l]
  }

  lemma PieceStep(ls: seq<line>, c: seq<line>, skipping: bool)
    requires ls != [] && ls[0] != BEGIN_MARK
    ensures var s := skipping && ls[0] != END_MARK;
            && Before(ls, skipping) == Lead(ls[0], skipping) + Before(ls[1..], s)
            && After(ls, skipping) == After(ls[1..], s)
            && Kept(ls, skipping) == Lead(ls[0], skipping) + Kept(ls[1..], s)
            && Written(ls, c, skipping, false) == Lead(ls[0], skipping) + Written(ls[1..], c, s, false)
  {
  }

  lemma AtBegin(ls: seq<line>, c: seq<line>, skipping: bool)
    ensures ls == [] ==>
              && Written(ls, c, skipping, false) == [""] + Block(c) && Kept(ls, skipping) == []
              && Before(ls, skipping) == [""] && After(ls, skipping) == []
    ensures ls != [] && ls[0] == BEGIN_MARK ==>
              && Written(ls, c, skipping, false) == Block(c) + Written(ls[1..], c, true, true)
              && Before(ls, skipping) == [] && After(ls, skipping) == Kept(ls[1..], true) == Kept(ls, skipping)
  {
    hide Block;
  }

  lemma LeadIsClean(l: line, skipping: bool)
    ensures l != BEGIN_MARK ==> Clean(Lead(l, skipping))
  {
  }

  lemma {:induction false} WrittenShape(ls: seq<line>, c: seq<line>, skipping: bool)
    ensures Written(ls, c, skipping, false) == Before(ls, skipping) + Block(c) + After(ls, skipping)
    ensures Clean(Before(ls, skipping)) && Clean(After(ls, skipping))
  {
    hide Block, Written, Before, After, Kept, Lead;
    AtBegin(ls, c, skipping);
    if ls == [] {
      MarksDiffer();
      assert [""] + Block(c) + [] == [""] + Block(c);
    } else if ls[0] == BEGIN_MARK {
      WrittenDone(ls[1..], c, true);
      KeptIsClean(ls[1..], true);
      assert [] + Block(c) == Block(c);
    } else {
      var s := skipping && ls[0] != END_MARK;
      WrittenShape(ls[1..], c, s);
      PieceStep(ls, c, skipping);
      LeadIsClean(ls[0], skipping);
      var (p, q) := (Before(ls[1..], s), After(ls[1..], s));
      assert Lead(ls[0], skipping) + (p + Block(c) + q) == (Lead(ls[0], skipping) + p) + Block(c) + q;
    }
  }

  lemma {:induction false} WrittenSkips(c: seq<line>, d: seq<line>, rest: seq<line>)
    requires Clean(c)
    ensures Written(c + [END_MARK] + rest, d, true, true) == Kept(rest, false)
  {
    MarksDiffer();
    if c == [] {
      assert c + [END_MARK] + rest == [END_MARK] + rest;
      WrittenDone(rest, d, false);
    } else {
      assert c[0] in c;
      WrittenSkips(c[1..], d, rest);
      assert (c + [END_MARK] + rest)[1..] == c[1..] + [END_MARK] + rest;
    }
  }

  /** Writing over an existing block exchanges exactly its lines. */
  lemma {:induction false} Rewritten(p: seq<line>, c: seq<line>, q: seq<line>, d: seq<line>)
    requires Clean(p) && Clean(c) && Clean(q)
    ensures Written(p + Block(c) + q, d, false, false) == p + Block(d) + q
  {
    MarksDiffer();
    var ls := p + Block(c) + q;
    if p == [] {
      assert ls[1..] == c + [END_MARK] + q;
      WrittenSkips(c, d, q);
      KeptOfClean(q, false);
    } else {
      assert p[0] in p;
      Rewritten(p[1..], c, q, d);
      assert ls[1..] == p[1..] + Block(c) + q;
      assert [p[0]] + (p[1..] + Block(d) + q) == p + Block(d) + q;
    }
  }

  /** Whatever the file held, a second block leaves no trace of the first. */
  lemma LastWriteWins(ls: seq<line>, c: seq<line>, d: seq<line>)
    requires Clean(c)
    ensures Written(Written(ls, c, false, false), d, false, false) == Written(ls, d, false, false)
  {
    hide *;
    WrittenShape(ls, c, false);
    WrittenShape(ls, d, false);
    Rewritten(Before(ls, false), c, After(ls, false), d);
  }

  /** One block in all, and around it the user's lines, unless a lone end marker was dropped. */
  lemma OneBlock(ls: seq<line>, c: seq<line>)
    requires Clean(c)
    ensures var w := Written(ls, c, false, false);
            && multiset(w)[BEGIN_MARK] == 1 && multiset(w)[END_MARK] == 1
            && Kept(w, false) == Kept(ls, false) + if BEGIN_MARK in ls then [] else [""]
  {
    var (p, q) := (Before(ls, false), After(ls, false));
    WrittenShape(ls, c, false);
    Marks(p, c, q);
    KeptAround(p, c, q);
    KeptSplits(ls, false);
  }

  lemma Marks(p: seq<line>, c: seq<line>, q: seq<line>)
    requires Clean(p) && Clean(c) && Clean(q)
    ensures var w := multiset(p + Block(c) + q); w[BEGIN_MARK] == 1 && w[END_MARK] == 1
  {
    MarksDiffer();
    assert forall s: seq<line>, l :: multiset(s)[l] > 0 ==> l in s;
    assert forall s: seq<line> :: Clean(s) ==> multiset(s)[BEGIN_MARK] == 0 && multiset(s)[END_MARK] == 0;
  }

  lemma {:induction false} KeptAround(p: seq<line>, c: seq<line>, q: seq<line>)
    requires Clean(p) && Clean(c) && Clean(q)
    ensures Kept(p + Block(c) + q, false) == p + q
  {
    MarksDiffer();
    var ls := p + Block(c) + q;
    if p == [] {
      assert ls[1..] == c + [END_MARK] + q;
      WrittenSkips(c, [], q);
      WrittenDone(c + [END_MARK] + q, [], true);
      KeptOfClean(q, false);
    } else {
      assert p[0] in p;
      KeptAround(p[1..], c, q);
      assert ls[1..] == p[1..] + Block(c) + q;
      assert [p[0]] + (p[1..] + q) == p + q;
    }
  }

  lemma {:induction false} KeptSplits(ls: seq<line>, skipping: bool)
    ensures Before(ls, skipping) + After(ls, skipping) == Kept(ls, skipping) + if BEGIN_MARK in ls then [] else [""]
  {
    hide Before, After, Kept, Lead;
    AtBegin(ls, [], skipping);
    if ls != [] && ls[0] != BEGIN_MARK {
      var s := skipping && ls[0] != END_MARK;
      KeptSplits(ls[1..], s);
      PieceStep(ls, [], skipping);
      InTail(ls);
      Associative(Lead(ls[0], skipping), Before(ls[1..], s), After(ls[1..], s));
      Associative(Lead(ls[0], skipping), Kept(ls[1..], s), if BEGIN_MARK in ls then [] else [""]);
    }
  }

  lemma InTail(ls: seq<line>)
    requires ls != []
    ensures BEGIN_MARK in ls <==> ls[0] == BEGIN_MARK || BEGIN_MARK in ls[1..]
  {
    assert ls == [ls[0]] + ls[1..];
  }

  lemma Associative(a: seq<line>, b: seq<line>, c: seq<line>)
    ensures a + (b + c) == a + b + c
  {
  }

  // ---- removing -------------------------------------------------------------------

  /** What comes out of the remaining lines, when a blank line may be held back. */
  function Stripped(ls: seq<line>, skipping: bool, held: bool): seq<line> {
    if ls == [] then
      if held then [""] else []
    else if ls[0] == BEGIN_MARK then
      Stripped(ls[1..], true, false)
    else if ls[0] == END_MARK then
      Stripped(ls[1..], false, held)
    else if skipping then
      Stripped(ls[1..], true, held)
    else
      (if held then [""] else []) +
      if ls[0] == "" then Stripped(ls[1..], false, true) else [ls[0]] + Stripped(ls[1..], false, false)
  }

  /** Only the blank line right before the block goes with it. */
  function WithoutBlank(p: seq<line>): seq<line> {
    if p != [] && p[|p| - 1] == "" then p[..|p| - 1] else p
  }

  /** A run of ordinary lines comes out whole, but for a blank at its end. */
  lemma {:induction false} StrippedRun(p: seq<line>, rest: seq<line>, held: bool)
    requires Clean(p)
    ensures var all := (if held then [""] else []) + p;
            Stripped(p + rest, false, held) == WithoutBlank(all) + Stripped(rest, false, all != WithoutBlank(all))
  {
    hide WithoutBlank, Stripped, IsMark;
    var lead := if held then [""] else [];
    if p == [] {
      assert p + rest == rest && lead + p == lead;
      HeldOnly(rest, held);
    } else {
      assert (p + rest)[1..] == p[1..] + rest && (p + rest)[0] == p[0] && p[0] in p;
      OneOrdinary(p + rest, held);
      StrippedRun(p[1..], rest, p[0] == "");
      var tail := (if p[0] == "" then [""] else []) + p[1..];
      if p[0] == "" {
        assert tail == p;
      } else {
        assert tail == p[1..] && [p[0]] + tail == p;
        BlankAfter([p[0]], tail);
        Regrouped(lead, [p[0]], WithoutBlank(tail), Stripped(rest, false, tail != WithoutBlank(tail)));
      }
      BlankAfter(lead, p);
    }
  }

  lemma Regrouped(a: seq<line>, b: seq<line>, c: seq<line>, d: seq<line>)
    ensures a + b + (c + d) == a + (b + c) + d
  {
  }

  lemma HeldOnly(rest: seq<line>, held: bool)
    ensures var all := if held then [""] else [];
            Stripped(rest, false, held) == WithoutBlank(all) + Stripped(rest, false, all != WithoutBlank(all))
  {
    hide Stripped;
    assert held ==> WithoutBlank([""]) == [];
  }

  lemma OneOrdinary(ls: seq<line>, held: bool)
    requires ls != [] && !IsMark(ls[0])
    ensures Stripped(ls, false, held) ==
            (if held then [""] else []) + (if ls[0] == "" then [] else [ls[0]]) + Stripped(ls[1..], false, ls[0] == "")
  {
  }

  lemma BlankAfter(a: seq<line>, b: seq<line>)
    requires b != [] || a == [] || a[|a| - 1] != ""
    ensures WithoutBlank(a + b) == a + WithoutBlank(b)
    ensures (a + b == WithoutBlank(a + b)) == (b == WithoutBlank(b))
  {
    if b == [] {
      assert a + b == a;
    } else {
      assert (a + b)[|a + b| - 1] == b[|b| - 1];
      assert (a + b)[..|a + b| - 1] == a + b[..|b| - 1];
      assert b[|b| - 1] == "" ==> |WithoutBlank(b)| < |b| && |a + WithoutBlank(b)| < |a + b|;
    }
  }

  lemma {:induction false} StrippedSkips(c: seq<line>, rest: seq<line>)
    requires Clean(c)
    ensures Stripped(c + [END_MARK] + rest, true, false) == Stripped(rest, false, false)
  {
    MarksDiffer();
    if c == [] {
      assert c + [END_MARK] + rest == [END_MARK] + rest;
    } else {
      assert c[0] in c;
      StrippedSkips(c[1..], rest);
      assert (c + [END_MARK] + rest)[1..] == c[1..] + [END_MARK] + rest;
    }
  }

  lemma StrippedClean(q: seq<line>)
    requires Clean(q)
    ensures Stripped(q, false, false) == q
  {
    hide Stripped, Clean, WithoutBlank;
    StrippedRun(q, [], false);
    StrippedNone(q != WithoutBlank(q));
    assert [] + q == q && q + [] == q;
    BlankBack(q);
  }

  lemma StrippedNone(held: bool)
    ensures Stripped([], false, held) == if held then [""] else []
  {
  }

  lemma BlankBack(q: seq<line>)
    ensures WithoutBlank(q) + (if q != WithoutBlank(q) then [""] else []) == q
  {
  }

  /** Removal takes out the block and at most one blank line, wherever the block stands. */
  lemma Removed(p: seq<line>, c: seq<line>, q: seq<line>)
    requires Clean(p) && Clean(c) && Clean(q)
    ensures Stripped(p + Block(c) + q, false, false) == WithoutBlank(p) + q
  {
    hide WithoutBlank;
    var rest := Block(c) + q;
    assert p + Block(c) + q == p + rest;
    StrippedRun(p, rest, false);
    assert [] + p == p;
    assert rest[1..] == c + [END_MARK] + q;
    StrippedSkips(c, q);
    StrippedClean(q);
  }

  lemma BeforeOfClean(ls: seq<line>)
    requires Clean(ls)
    ensures Before(ls, false) == ls + [""] && After(ls, false) == []
  {
    if ls != [] {
      assert ls[0] in ls;
      BeforeOfClean(ls[1..]);
    }
  }

  /** Runs of blank lines at the end included. */
  lemma RemoveUndoesWrite(ls: seq<line>, c: seq<line>)
    requires Clean(ls) && Clean(c)
    ensures Stripped(Written(ls, c, false, false), false, false) == ls
  {
    hide Written, Stripped, Block, Before, After;
    WrittenShape(ls, c, false);
    BeforeOfClean(ls);
    MarksDiffer();
    Removed(ls + [""], c, []);
    assert (ls + [""])[..|ls|] == ls && ls + [] == ls;
  }

  // ---- the file -------------------------------------------------------------------

  /** What awk makes of a file, when the block is given as one text. */
  function WriteText(t: string, content: string): string {
    Printed(Written(Lines(t), Lines(content + "\n"), false, false))
  }

  function RemoveText(t: string): string {
    if BEGIN_MARK in Lines(t) then Printed(Stripped(Lines(t), false, false)) else t
  }

  lemma {:induction false} WrittenLines(ls: seq<line>, c: seq<line>, skipping: bool, done: bool)
    requires forall l :: l in ls + c ==> '\n' !in l
    ensures forall l :: l in Written(ls, c, skipping, done) ==> '\n' !in l
  {
    MarksAreLines();
    if ls != [] {
      assert forall l :: l in ls[1..] + c ==> l in ls + c;
      assert ls[0] in ls + c;
      WrittenLines(ls[1..], c, skipping, done);
      WrittenLines(ls[1..], c, true, true);
      WrittenLines(ls[1..], c, false, done);
    }
    assert forall l :: l in c ==> l in ls + c;
  }

  lemma MarksAreLines()
    ensures '\n' !in BEGIN_MARK && '\n' !in END_MARK && '\n' !in ""
  {
  }

  lemma WriteTextLines(t: string, content: string)
    ensures Lines(WriteText(t, content)) == Written(Lines(t), Lines(content + "\n"), false, false)
  {
    hide Lines, Written;
    WrittenLines(Lines(t), Lines(content + "\n"), false, false);
    LinesOfPrinted(Written(Lines(t), Lines(content + "\n"), false, false));
  }

  /** Without markers of its own a file gets back its exact text if its last line was complete. */
  lemma RestoredIff(t: string, content: string)
    requires Clean(Lines(t)) && Clean(Lines(content + "\n"))
    ensures RemoveText(WriteText(t, content)) == t <==> Complete(t)
    ensures RemoveText(WriteText(t, content)) == Printed(Lines(t))
  {
    hide Lines, Written, Stripped, Printed, Complete, WriteText;
    var (ls, c) := (Lines(t), Lines(content + "\n"));
    WriteTextLines(t, content);
    HasBlock(ls, c);
    RemoveUndoesWrite(ls, c);
    PrintedLines(t);
    PrintedIsComplete(ls);
  }

  lemma HasBlock(ls: seq<line>, c: seq<line>)
    ensures BEGIN_MARK in Written(ls, c, false, false)
  {
    hide Written, Before, After;
    WrittenShape(ls, c, false);
    assert Block(c)[0] == BEGIN_MARK;
  }

  /** For every file and every content: the last write wins, so writing again changes nothing. */
  lemma RewriteText(t: string, content: string, other: string)
    requires Clean(Lines(content + "\n"))
    ensures WriteText(WriteText(t, content), other) == WriteText(t, other)
  {
    hide Lines, Written, Printed;
    WriteTextLines(t, content);
    LastWriteWins(Lines(t), Lines(content + "\n"), Lines(other + "\n"));
  }

  datatype Outcome = Missing | Untouched | Replaced

  /** One pass over the lines: the first block is replaced, further ones go, and a missing one is added. */
  method WithBlock(ls: seq<line>, c: seq<line>) returns (tmp: seq<line>)
    ensures tmp == Written(ls, c, false, false)
  {
    hide Written;
    tmp := [];
    var skipping, done := false, false;
    var i := 0;
    assert ls[0..] == ls;
    while i < |ls|
      invariant i <= |ls|
      invariant tmp + Written(ls[i..], c, skipping, done) == Written(ls, c, false, false)
    {
      WrittenStep(ls, i, c, skipping, done);
      ghost var before := tmp;
      if ls[i] == BEGIN_MARK {
        skipping := true;
        if !done {
          tmp := tmp + ([BEGIN_MARK] + c + [END_MARK]);
          done := true;
        }
      } else if ls[i] == END_MARK {
        skipping := false;
      } else if !skipping {
        tmp := tmp + [ls[i]];
      }
      i := i + 1;
      OnTheEnd(before, tmp, Written(ls[i..], c, skipping, done));
    }
    assert ls[i..] == [];
    WrittenEnd(c, skipping, done);
    if done {
      assert tmp + [] == tmp;
    } else {
      tmp := tmp + ([""] + ([BEGIN_MARK] + c + [END_MARK]));
    }
  }

  /** What was added to the lines written so far comes before the rest. */
  lemma OnTheEnd(was: seq<line>, now: seq<line>, rest: seq<line>)
    requires was <= now
    ensures now + rest == was + (now[|was|..] + rest)
    ensures now == was ==> now[|was|..] + rest == rest
  {
  }

  /** A configuration file and the copies made of it. */
  class Config {
    var text: string
    var present: bool
    var backups: seq<string>

    constructor (t: string)
      ensures text == t && present && backups == []
    {
      text := t;
      present := true;
      backups := [];
    }

    method WriteBlock(content: string) returns (o: Outcome)
      modifies this
      ensures present == old(present)
      ensures o == if !present then Missing else if WriteText(old(text), content) == old(text) then Untouched else Replaced
      ensures text == if present then WriteText(old(text), content) else old(text)
      ensures backups == old(backups) + if o.Replaced? then [old(text)] else []
    {
      hide Lines, Written, Printed, Block;
      if !present {
        return Missing;
      }
      var tmp := WithBlock(Lines(text), Lines(content + "\n"));
      var out := Printed(tmp);
      if out == text {
        return Untouched;
      }
      backups := backups + [text];
      text := out;
      return Replaced;
    }

    method RemoveBlock() returns (o: Outcome)
      modifies this
      ensures present == old(present)
      ensures o == if present && BEGIN_MARK in Lines(old(text)) then Replaced else Untouched
      ensures text == if present then RemoveText(old(text)) else old(text)
      ensures backups == old(backups) + if o.Replaced? then [old(text)] else []
    {
      hide Lines, Stripped, Printed;
      if !present || BEGIN_MARK !in Lines(text) {
        return Untouched;
      }
      var tmp: seq<line> := [];
      var ls := Lines(text);
      var skipping, held := false, false;
      var i := 0;
      while i < |ls|
        invariant i <= |ls| && text == old(text) && backups == old(backups) && present
        invariant tmp + Stripped(ls[i..], skipping, held) == Stripped(ls, false, false)
      {
        StrippedStep(ls, i, skipping, held);
        if ls[i] == BEGIN_MARK {
          skipping := true;
          held := false;
        } else if ls[i] == END_MARK {
          skipping := false;
        } else if !skipping {
          if held {
            tmp := tmp + [""];
          }
          held := false;
          if ls[i] == "" {
            held := true;
          } else {
            tmp := tmp + [ls[i]];
          }
        }
        i := i + 1;
      }
      assert ls[i..] == [];
      StrippedEnd(skipping, held);
      if held {
        tmp := tmp + [""];
      } else {
        assert tmp + [] == tmp;
      }
      backups := backups + [text];
      text := Printed(tmp);
      return Replaced;
    }
  }

  lemma WrittenStep(ls: seq<line>, i: nat, c: seq<line>, skipping: bool, done: bool)
    requires i < |ls|
    ensures Written(ls[i..], c, skipping, done) ==
            if ls[i] == BEGIN_MARK then
              (if done then [] else [BEGIN_MARK] + c + [END_MARK]) + Written(ls[i + 1..], c, true, true)
            else if ls[i] == END_MARK then Written(ls[i + 1..], c, false, done)
            else (if skipping then [] else [ls[i]]) + Written(ls[i + 1..], c, skipping, done)
  {
    assert ls[i..][1..] == ls[i + 1..];
  }

  lemma WrittenEnd(c: seq<line>, skipping: bool, done: bool)
    ensures Written([], c, skipping, done) == if done then [] else [""] + ([BEGIN_MARK] + c + [END_MARK])
  {
  }

  lemma StrippedStep(ls: seq<line>, i: nat, skipping: bool, held: bool)
    requires i < |ls|
    ensures Stripped(ls[i..], skipping, held) ==
            if ls[i] == BEGIN_MARK then Stripped(ls[i + 1..], true, false)
            else if ls[i] == END_MARK then Stripped(ls[i + 1..], false, held)
            else if skipping then Stripped(ls[i + 1..], true, held)
            else (if held then [""] else []) +
                 if ls[i] == "" then Stripped(ls[i + 1..], false, true) else [ls[i]] + Stripped(ls[i + 1..], false, false)
  {
    assert ls[i..][1..] == ls[i + 1..];
  }

  lemma StrippedEnd(skipping: bool, held: bool)
    ensures Stripped([], skipping, held) == if held then [""] else []
  {
  }
}
