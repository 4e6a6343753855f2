/**
 * The line diff behind "compare two clips" (common/Diff.js): a bottom-up table
 * of longest-common-subsequence lengths, a greedy walk over it, and a pairing
 * of each run of removals with the run of additions beside it.
 */
module Diff {
  import opened Bytes

  type Line = string
  type uint32 = x: int | 0 <= x < 0x1_0000_0000

  const MAX_CELLS := 4_000_000

  /** A cell of the side-by-side view: a line, or null. */
  datatype Cell = Null | Text(line: Line)
  datatype Kind = Same | Changed | Added | Removed
  datatype Row = Row(left: Cell, right: Cell, kind: Kind)

  // ---- what a result must satisfy ---------------------------------------

  /** Kind and sides agree; in particular a changed row has two different sides. */
  predicate WellKinded(r: Row) {
    match r.kind
    case Same => r.left.Text? && r.right == r.left
    case Changed => r.left.Text? && r.right.Text? && r.left != r.right
    case Added => r.left.Null? && r.right.Text?
    case Removed => r.left.Text? && r.right.Null?
  }

  function Lines1(c: Cell): seq<Line> {
    if c.Null? then [] else [c.line]
  }

  datatype Column = OnLeft | OnRight | InBoth

  /** What one row contributes to a column; InBoth selects the "same" rows. */
  function Pick(r: Row, c: Column): seq<Line> {
    match c
    case OnLeft => Lines1(r.left)
    case OnRight => Lines1(r.right)
    case InBoth => if r.kind == Same then Lines1(r.left) else []
  }

  /** The lines of a column, in order. */
  function Collect(rows: seq<Row>, c: Column): seq<Line> {
    if rows == [] then [] else Collect(rows[..|rows| - 1], c) + Pick(rows[|rows| - 1], c)
  }

  function SameLines(rows: seq<Row>): seq<Line> { Collect(rows, InBoth) }

  /** s arises from a by dropping lines. */
  predicate Subsequence(s: seq<Line>, a: seq<Line>) {
    s == [] || (a != [] && ((s[0] == a[0] && Subsequence(s[1..], a[1..])) || Subsequence(s, a[1..])))
  }

  predicate Common(s: seq<Line>, a: seq<Line>, b: seq<Line>) {
    Subsequence(s, a) && Subsequence(s, b)
  }

  ghost predicate LongestCommon(s: seq<Line>, a: seq<Line>, b: seq<Line>) {
    Common(s, a, b) && forall c: seq<Line> :: Common(c, a, b) ==> |c| <= |s|
  }

  /** What a row list must be to show the difference of a and b. */
  ghost predicate Shows(rows: seq<Row>, a: seq<Line>, b: seq<Line>) {
    && Collect(rows, OnLeft) == a
    && Collect(rows, OnRight) == b
    && forall k :: 0 <= k < |rows| ==> WellKinded(rows[k])
  }

  // ---- the recurrence ---------------------------------------------------

  function Max(x: nat, y: nat): nat { if x < y then y else x }

  function Lcs(a: seq<Line>, b: seq<Line>): nat
    decreases |a| + |b|
  {
    if a == [] || b == [] then 0
    else if a[0] == b[0] then Lcs(a[1..], b[1..]) + 1
    else Max(Lcs(a[1..], b), Lcs(a, b[1..]))
  }

  /** The recurrence, by position. */
  lemma LcsStep(a: seq<Line>, b: seq<Line>, i: nat, j: nat)
    requires i <= |a| && j <= |b|
    ensures i == |a| || j == |b| ==> Lcs(a[i..], b[j..]) == 0
    ensures i < |a| && j < |b| ==>
              Lcs(a[i..], b[j..]) == if a[i] == b[j] then Lcs(a[i + 1..], b[j + 1..]) + 1
                                     else Max(Lcs(a[i + 1..], b[j..]), Lcs(a[i..], b[j + 1..]))
  {
    if i < |a| && j < |b| { assert a[i..][1..] == a[i + 1..] && b[j..][1..] == b[j + 1..]; }
  }

  lemma {:induction false} SubsequenceTail(s: seq<Line>, a: seq<Line>)
    requires s != [] && Subsequence(s, a)
    ensures a != [] && Subsequence(s[1..], a[1..])
    decreases |a|
  {
    if s[0] == a[0] && Subsequence(s[1..], a[1..]) {
    } else {
      SubsequenceTail(s, a[1..]);
      SubsequenceGrow(s[1..], a[1..][1..], a[1]);
      assert [a[1]] + a[1..][1..] == a[1..];
    }
  }

  lemma SubsequenceGrow(s: seq<Line>, a: seq<Line>, x: Line)
    requires Subsequence(s, a)
    ensures Subsequence(s, [x] + a)
  {
    assert ([x] + a)[1..] == a;
  }

  /** No common subsequence is longer than the recurrence says. */
  lemma {:induction false} LcsIsUpperBound(s: seq<Line>, a: seq<Line>, b: seq<Line>)
    requires Common(s, a, b)
    ensures |s| <= Lcs(a, b)
    decreases |a| + |b|
  {
    if s == [] || a == [] || b == [] {
    } else if a[0] == b[0] {
      SubsequenceTail(s, a);
      SubsequenceTail(s, b);
      LcsIsUpperBound(s[1..], a[1..], b[1..]);
    } else if Subsequence(s, a[1..]) {
      LcsIsUpperBound(s, a[1..], b);
    } else {
      LcsIsUpperBound(s, a, b[1..]);
    }
  }

  /** The recurrence is attained. */
  lemma {:induction false} LcsIsAttained(a: seq<Line>, b: seq<Line>) returns (s: seq<Line>)
    ensures Common(s, a, b) && |s| == Lcs(a, b)
    decreases |a| + |b|
  {
    if a == [] || b == [] {
      s := [];
    } else if a[0] == b[0] {
      var r := LcsIsAttained(a[1..], b[1..]);
      s := [a[0]] + r;
      assert s[1..] == r;
    } else if Lcs(a[1..], b) >= Lcs(a, b[1..]) {
      s := LcsIsAttained(a[1..], b);
    } else {
      s := LcsIsAttained(a, b[1..]);
    }
  }

  lemma {:induction false} SubsequenceOfSuffix(s: seq<Line>, a: seq<Line>, k: nat)
    requires k <= |a| && Subsequence(s, a[k..])
    ensures Subsequence(s, a)
    decreases k
  {
    if k == 0 {
      assert a[0..] == a;
    } else {
      assert [a[k - 1]] + a[k..] == a[k - 1..];
      SubsequenceGrow(s, a[k..], a[k - 1]);
      SubsequenceOfSuffix(s, a, k - 1);
    }
  }

  /** Dropping lines in front never lengthens the optimum. */
  lemma LcsOfSuffixes(a: seq<Line>, b: seq<Line>, i: nat, j: nat)
    requires i <= |a| && j <= |b|
    ensures Lcs(a[i..], b[j..]) <= Lcs(a, b)
  {
    var s := LcsIsAttained(a[i..], b[j..]);
    SubsequenceOfSuffix(s, a, i);
    SubsequenceOfSuffix(s, b, j);
    LcsIsUpperBound(s, a, b);
  }

  /**
   * The exchange argument: two equal lines that are both skipped over could be
   * matched, so the optimum before the skip is strictly larger than after it.
   */
  lemma MatchInGap(a: seq<Line>, b: seq<Line>, i0: nat, k: nat, i: nat, j0: nat, l: nat, j: nat)
    requires i0 <= k < i <= |a| && j0 <= l < j <= |b| && a[k] == b[l]
    ensures Lcs(a[i0..], b[j0..]) > Lcs(a[i..], b[j..])
  {
    LcsOfSuffixes(a[i0..], b[j0..], k - i0, l - j0);
    assert a[i0..][k - i0..] == a[k..] && b[j0..][l - j0..] == b[l..];
    assert a[k..][1..] == a[k + 1..] && b[l..][1..] == b[l + 1..];
    LcsOfSuffixes(a[k + 1..], b[l + 1..], i - k - 1, j - l - 1);
    assert a[k + 1..][i - k - 1..] == a[i..] && b[l + 1..][j - l - 1..] == b[j..];
  }

  // ---- pairing a run of removals with a run of additions -----------------

  function PairRow(removed: seq<Line>, added: seq<Line>, k: nat): Row
    requires k < Max(|removed|, |added|)
  {
    if k < |removed| && k < |added| then Row(Text(removed[k]), Text(added[k]), Changed)
    else if k < |removed| then Row(Text(removed[k]), Null, Removed)
    else Row(Null, Text(added[k]), Added)
  }

  /** The first n rows that the two runs pair up to. */
  function PairedUpTo(removed: seq<Line>, added: seq<Line>, n: nat): (p: seq<Row>)
    requires n <= Max(|removed|, |added|)
    ensures |p| == n && forall k :: 0 <= k < n ==> p[k] == PairRow(removed, added, k)
  {
    if n == 0 then [] else PairedUpTo(removed, added, n - 1) + [PairRow(removed, added, n - 1)]
  }

  lemma PairedNone(removed: seq<Line>, added: seq<Line>)
    ensures PairedUpTo(removed, added, 0) == []
  {
  }

  lemma PairedNext(removed: seq<Line>, added: seq<Line>, n: nat)
    requires n < Max(|removed|, |added|)
    ensures PairedUpTo(removed, added, n + 1) == PairedUpTo(removed, added, n) + [PairRow(removed, added, n)]
  {
  }

  function Paired(removed: seq<Line>, added: seq<Line>): seq<Row> {
    PairedUpTo(removed, added, Max(|removed|, |added|))
  }

  lemma AppendRow(rows: seq<Row>, r: Row, c: Column)
    ensures Collect(rows + [r], c) == Collect(rows, c) + Pick(r, c)
  {
    assert (rows + [r])[..|rows|] == rows;
  }

  /** What the first n paired rows contribute to a column. */
  function PairedColumn(removed: seq<Line>, added: seq<Line>, n: nat, c: Column): seq<Line> {
    match c
    case OnLeft => removed[..Min(n, |removed|)]
    case OnRight => added[..Min(n, |added|)]
    case InBoth => []
  }

  lemma PairedColumnStep(removed: seq<Line>, added: seq<Line>, n: nat, c: Column)
    requires n < Max(|removed|, |added|)
    ensures PairedColumn(removed, added, n + 1, c)
         == PairedColumn(removed, added, n, c) + Pick(PairRow(removed, added, n), c)
  {
  }

  lemma PairedColumnEmpty(removed: seq<Line>, added: seq<Line>, c: Column)
    ensures PairedColumn(removed, added, 0, c) == []
  {
  }

  lemma Assoc<T>(x: seq<T>, y: seq<T>, z: seq<T>)
    ensures x + (y + z) == (x + y) + z
  {
  }

  lemma {:induction false} PairedPrefix(rows: seq<Row>, removed: seq<Line>, added: seq<Line>, n: nat, c: Column)
    requires n <= Max(|removed|, |added|)
    ensures Collect(rows + PairedUpTo(removed, added, n), c)
         == Collect(rows, c) + PairedColumn(removed, added, n, c)
  {
    hide Collect, PairedColumn, PairRow;
    if n == 0 {
      assert PairedColumn(removed, added, 0, c) == [] by { PairedColumnEmpty(removed, added, c); }
      assert rows + PairedUpTo(removed, added, 0) == rows;
    } else {
      var before, r := PairedUpTo(removed, added, n - 1), PairRow(removed, added, n - 1);
      PairedPrefix(rows, removed, added, n - 1, c);
      AppendRow(rows + before, r, c);
      Assoc(rows, before, [r]);
      PairedColumnStep(removed, added, n - 1, c);
      Assoc(Collect(rows, c), PairedColumn(removed, added, n - 1, c), Pick(r, c));
    }
  }

  lemma PairedColumns(rows: seq<Row>, removed: seq<Line>, added: seq<Line>)
    ensures Collect(rows + Paired(removed, added), OnLeft) == Collect(rows, OnLeft) + removed
    ensures Collect(rows + Paired(removed, added), OnRight) == Collect(rows, OnRight) + added
    ensures SameLines(rows + Paired(removed, added)) == SameLines(rows)
  {
    var n := Max(|removed|, |added|);
    PairedPrefix(rows, removed, added, n, OnLeft);
    PairedPrefix(rows, removed, added, n, OnRight);
    PairedPrefix(rows, removed, added, n, InBoth);
    assert PairedColumn(removed, added, n, OnLeft) == removed;
    assert PairedColumn(removed, added, n, OnRight) == added;
  }

  /** The rows being built, and the runs not yet turned into rows. */
  class Builder {
    var rows: seq<Row>
    var removed: seq<Line>
    var added: seq<Line>

    constructor ()
      ensures rows == [] && removed == [] && added == []
    {
      rows, removed, added := [], [], [];
    }

    method Flush()
      modifies this
      ensures rows == old(rows) + Paired(old(removed), old(added))
      ensures removed == [] && added == []
    {
      hide PairedUpTo;
      var r, d := removed, added;
      var k := 0;
      PairedNone(r, d);
      while k < Min(|r|, |d|)
        invariant k <= Min(|r|, |d|)
        invariant rows == old(rows) + PairedUpTo(r, d, k)
      {
        PairedNext(r, d, k);
        rows := rows + [Row(Text(r[k]), Text(d[k]), Changed)];
        k := k + 1;
      }
      var x := k;
      while x < |r|
        invariant k <= x <= Max(k, |r|)
        invariant rows == old(rows) + PairedUpTo(r, d, x)
      {
        PairedNext(r, d, x);
        rows := rows + [Row(Text(r[x]), Null, Removed)];
        x := x + 1;
      }
      var y := k;
      while y < |d|
        invariant k <= y <= Max(k, |d|)
        invariant rows == old(rows) + PairedUpTo(r, d, Max(x, y))
      {
        PairedNext(r, d, y);
        rows := rows + [Row(Null, Text(d[y]), Added)];
        y := y + 1;
      }
      removed, added := [], [];
    }
  }

  // ---- the table ---------------------------------------------------------

  /** Where entry (i, j) lives in the flat table of width w. */
  function At(w: nat, i: nat, j: nat): nat { i * w + j }

  lemma Gap(w: nat, d: nat)
    requires d >= 1
    ensures d * w >= w
  {
    assert d * w == w + (d - 1) * w;
  }

  lemma AtOrder(w: nat, i: nat, j: nat, i': nat, j': nat)
    requires j < w && j' < w && i < i'
    ensures At(w, i, j) < At(w, i', j')
  {
    Gap(w, i' - i);
    assert i' * w == i * w + (i' - i) * w;
  }

  lemma AtIsInRange(w: nat, rows: nat, i: nat, j: nat)
    requires i < rows && j < w
    ensures At(w, i, j) < rows * w
  {
    Gap(w, rows - i);
    assert rows * w == i * w + (rows - i) * w;
  }

  lemma {:induction false} LcsIsSmall(a: seq<Line>, b: seq<Line>)
    ensures Lcs(a, b) <= |a|
    decreases |a| + |b|
  {
    if a == [] || b == [] {
    } else if a[0] == b[0] {
      LcsIsSmall(a[1..], b[1..]);
    } else {
      LcsIsSmall(a[1..], b);
      LcsIsSmall(a, b[1..]);
    }
  }

  /** Entry (i, j) of the flat table t holds the optimum of the suffixes from i and j. */
  ghost predicate Entry(t: seq<uint32>, a: seq<Line>, b: seq<Line>, i: nat, j: nat) {
    && i <= |a| && j <= |b| && At(|b| + 1, i, j) < |t|
    && t[At(|b| + 1, i, j)] == Lcs(a[i..], b[j..])
  }

  /** Every entry from row i column j on, in the order the loops fill them, is right. */
  ghost predicate FilledFrom(t: seq<uint32>, a: seq<Line>, b: seq<Line>, i: int, j: int) {
    && (forall k, l :: 0 <= k <= |a| && 0 <= l <= |b| && (k > i || (k == i && l > j)) ==> Entry(t, a, b, k, l))
    && (forall k :: 0 <= k <= |a| ==> Entry(t, a, b, k, |b|))
  }

  /** Filling one entry from its three neighbours. */
  lemma FillOne(t: seq<uint32>, a: seq<Line>, b: seq<Line>, i: nat, j: nat, value: uint32)
    requires i < |a| && j < |b| && |t| == (|a| + 1) * (|b| + 1)
    requires FilledFrom(t, a, b, i, j)
    requires value == Lcs(a[i..], b[j..])
    requires At(|b| + 1, i, j) < |t|
    ensures FilledFrom(t[At(|b| + 1, i, j) := value], a, b, i, j - 1)
  {
    var w := |b| + 1;
    var t' := t[At(w, i, j) := value];
    forall k, l | 0 <= k <= |a| && 0 <= l <= |b| && (k > i || (k == i && l > j - 1)) ensures Entry(t', a, b, k, l) {
      if k > i { AtOrder(w, i, j, k, l); }
      assert (k == i && l == j) || Entry(t, a, b, k, l);
    }
    forall k | 0 <= k <= |a| ensures Entry(t', a, b, k, |b|) {
      assert Entry(t, a, b, k, |b|);
      if k > i { AtOrder(w, i, j, k, |b|); }
      if k < i { AtOrder(w, k, |b|, i, j); }
    }
  }

  lemma SmallTable(n: nat, m: nat)
    requires (n + 1) * (m + 1) <= MAX_CELLS
    ensures n < MAX_CELLS
  {
    Gap(n + 1, m + 1);
  }

  lemma TableStart(t: seq<uint32>, a: seq<Line>, b: seq<Line>)
    requires |t| == (|a| + 1) * (|b| + 1) && forall k :: 0 <= k < |t| ==> t[k] == 0
    ensures FilledFrom(t, a, b, |a| - 1, |b|)
  {
    forall k, l | 0 <= k <= |a| && 0 <= l <= |b| && (k == |a| || l == |b|) ensures Entry(t, a, b, k, l) {
      AtIsInRange(|b| + 1, |a| + 1, k, l);
    }
  }

  lemma RowDone(t: seq<uint32>, a: seq<Line>, b: seq<Line>, i: int)
    requires FilledFrom(t, a, b, i, -1)
    ensures FilledFrom(t, a, b, i - 1, |b|)
  {
  }

  lemma RowStart(t: seq<uint32>, a: seq<Line>, b: seq<Line>, i: int)
    requires 0 <= i <= |a| && FilledFrom(t, a, b, i, |b|)
    ensures FilledFrom(t, a, b, i, |b| - 1)
  {
  }

  lemma Look(t: seq<uint32>, a: seq<Line>, b: seq<Line>, i: int, j: int, k: nat, l: nat)
    requires FilledFrom(t, a, b, i, j) && k <= |a| && l <= |b|
    requires k > i || (k == i && l > j)
    ensures Entry(t, a, b, k, l)
  {
  }

  method Table(a: seq<Line>, b: seq<Line>) returns (t: array<uint32>)
    requires (|a| + 1) * (|b| + 1) <= MAX_CELLS
    ensures fresh(t) && t.Length == (|a| + 1) * (|b| + 1)
    ensures FilledFrom(t[..], a, b, -1, |b|)
  {
    hide At, Lcs, FilledFrom;
    var n, m := |a|, |b|;
    var w := m + 1;
    t := new uint32[(n + 1) * w](_ => 0);
    SmallTable(n, m);
    TableStart(t[..], a, b);
    var i := n - 1;
    while i >= 0
      invariant -1 <= i <= n - 1
      invariant FilledFrom(t[..], a, b, i, m)
    {
      RowStart(t[..], a, b, i);
      var j := m - 1;
      while j >= 0
        invariant -1 <= j <= m - 1
        invariant FilledFrom(t[..], a, b, i, j)
      {
        ghost var was := t[..];
        LcsIsSmall(a[i..], b[j..]);
        LcsStep(a, b, i, j);
        Look(was, a, b, i, j, i + 1, j + 1);
        Look(was, a, b, i, j, i + 1, j);
        Look(was, a, b, i, j, i, j + 1);
        AtIsInRange(w, n + 1, i, j);
        var value: int := if a[i] == b[j] then t[At(w, i + 1, j + 1)] + 1
                          else Max(t[At(w, i + 1, j)], t[At(w, i, j + 1)]);
        FillOne(was, a, b, i, j, value);
        t[At(w, i, j)] := value;
        assert t[..] == was[At(w, i, j) := t[At(w, i, j)]];
        j := j - 1;
      }
      RowDone(t[..], a, b, i);
      i := i - 1;
    }
  }

  // ---- comparing two line lists -------------------------------------------

  lemma {:induction false} SubsequenceAppend(s: seq<Line>, a: seq<Line>, x: seq<Line>)
    requires Subsequence(s, a)
    ensures Subsequence(s, a + x)
    decreases |a|
  {
    if s != [] {
      assert (a + x)[1..] == a[1..] + x;
      if s[0] == a[0] && Subsequence(s[1..], a[1..]) {
        SubsequenceAppend(s[1..], a[1..], x);
      } else {
        SubsequenceAppend(s, a[1..], x);
      }
    }
  }

  lemma {:induction false} SubsequenceConcat(s: seq<Line>, a: seq<Line>, s': seq<Line>, a': seq<Line>)
    requires Subsequence(s, a) && Subsequence(s', a')
    ensures Subsequence(s + s', a + a')
    decreases |a|
  {
    if s == [] {
      assert s + s' == s';
      assert (a + a')[|a|..] == a';
      SubsequenceOfSuffix(s', a + a', |a|);
    } else {
      assert (a + a')[1..] == a[1..] + a' && (s + s')[1..] == s[1..] + s';
      if s[0] == a[0] && Subsequence(s[1..], a[1..]) {
        SubsequenceConcat(s[1..], a[1..], s', a');
      } else {
        SubsequenceConcat(s, a[1..], s', a');
      }
    }
  }

  lemma {:induction false} SameLinesAreCommon(rows: seq<Row>)
    requires forall k :: 0 <= k < |rows| ==> WellKinded(rows[k])
    ensures Common(SameLines(rows), Collect(rows, OnLeft), Collect(rows, OnRight))
  {
    if rows != [] {
      var init, r := rows[..|rows| - 1], rows[|rows| - 1];
      SameLinesAreCommon(init);
      if r.kind == Same {
        SubsequenceConcat(SameLines(init), Collect(init, OnLeft), Lines1(r.left), Lines1(r.left));
        SubsequenceConcat(SameLines(init), Collect(init, OnRight), Lines1(r.left), Lines1(r.right));
      } else {
        SubsequenceAppend(SameLines(init), Collect(init, OnLeft), Lines1(r.left));
        SubsequenceAppend(SameLines(init), Collect(init, OnRight), Lines1(r.right));
        assert SameLines(rows) == SameLines(init);
      }
    }
  }

  /** The walk's invariant after i left lines and j right lines. */
  ghost predicate Walking(rows: seq<Row>, removed: seq<Line>, added: seq<Line>,
                          a: seq<Line>, b: seq<Line>, i: nat, j: nat) {
    && i <= |a| && j <= |b|
    && Collect(rows, OnLeft) + removed == a[..i]
    && Collect(rows, OnRight) + added == b[..j]
    && (forall k :: 0 <= k < |rows| ==> WellKinded(rows[k]))
    && |removed| <= i && |added| <= j
    && Lcs(a[i - |removed|..], b[j - |added|..]) == Lcs(a[i..], b[j..])
    && |SameLines(rows)| + Lcs(a[i..], b[j..]) == Lcs(a, b)
  }

  lemma WalkStart(a: seq<Line>, b: seq<Line>)
    ensures Walking([], [], [], a, b, 0, 0)
  {
    assert a[0..] == a && b[0..] == b;
  }

  /** Turning the pending runs into rows. */
  lemma WalkFlush(rows: seq<Row>, removed: seq<Line>, added: seq<Line>,
                  a: seq<Line>, b: seq<Line>, i: nat, j: nat)
    requires Walking(rows, removed, added, a, b, i, j)
    ensures Walking(rows + Paired(removed, added), [], [], a, b, i, j)
  {
    hide Collect, Lcs, PairedUpTo;
    PairedColumns(rows, removed, added);
    var p := Paired(removed, added);
    forall k | 0 <= k < |p| ensures WellKinded(p[k]) {
      if k < |removed| && k < |added| && removed[k] == added[k] {
        var i0, j0 := i - |removed|, j - |added|;
        assert removed[k] == a[..i][i0 + k] && added[k] == b[..j][j0 + k];
        MatchInGap(a, b, i0, i0 + k, i, j0, j0 + k, j);
      }
    }
  }

  lemma WalkSame(rows: seq<Row>, a: seq<Line>, b: seq<Line>, i: nat, j: nat)
    requires Walking(rows, [], [], a, b, i, j)
    requires i < |a| && j < |b| && a[i] == b[j]
    ensures Walking(rows + [Row(Text(a[i]), Text(b[j]), Same)], [], [], a, b, i + 1, j + 1)
  {
    hide Lcs, Collect;
    var r := Row(Text(a[i]), Text(b[j]), Same);
    AppendRow(rows, r, OnLeft);
    AppendRow(rows, r, OnRight);
    AppendRow(rows, r, InBoth);
    LcsStep(a, b, i, j);
    assert a[..i + 1] == a[..i] + [a[i]] && b[..j + 1] == b[..j] + [b[j]];
  }

  /** Skipping a left line is free when the table says so, or when the right side is used up. */
  lemma WalkRemove(rows: seq<Row>, removed: seq<Line>, added: seq<Line>,
                   a: seq<Line>, b: seq<Line>, i: nat, j: nat)
    requires Walking(rows, removed, added, a, b, i, j) && i < |a|
    requires j < |b| ==> a[i] != b[j] && Lcs(a[i + 1..], b[j..]) >= Lcs(a[i..], b[j + 1..])
    ensures Walking(rows, removed + [a[i]], added, a, b, i + 1, j)
  {
    hide Lcs, Collect;
    LcsStep(a, b, i, j);
    LcsStep(a, b, i + 1, j);
  }

  lemma WalkAdd(rows: seq<Row>, removed: seq<Line>, added: seq<Line>,
                a: seq<Line>, b: seq<Line>, i: nat, j: nat)
    requires Walking(rows, removed, added, a, b, i, j) && j < |b|
    requires i < |a| ==> a[i] != b[j] && Lcs(a[i + 1..], b[j..]) < Lcs(a[i..], b[j + 1..])
    ensures Walking(rows, removed, added + [b[j]], a, b, i, j + 1)
  {
    hide Lcs, Collect;
    LcsStep(a, b, i, j);
    LcsStep(a, b, i, j + 1);
  }

  lemma WalkEnd(rows: seq<Row>, a: seq<Line>, b: seq<Line>)
    requires Walking(rows, [], [], a, b, |a|, |b|)
    ensures Shows(rows, a, b) && LongestCommon(SameLines(rows), a, b)
  {
    assert a[..|a|] == a && b[..|b|] == b;
    SameLinesAreCommon(rows);
    forall c: seq<Line> | Common(c, a, b) ensures |c| <= |SameLines(rows)| {
      LcsIsUpperBound(c, a, b);
    }
  }

  /** The aligned rows of two line lists small enough for the table. */
  method Align(a: seq<Line>, b: seq<Line>) returns (rows: seq<Row>)
    requires (|a| + 1) * (|b| + 1) <= MAX_CELLS
    ensures Shows(rows, a, b)
    ensures LongestCommon(SameLines(rows), a, b)
  {
    hide Walking, Collect, Lcs, FilledFrom, Paired, Shows, LongestCommon, SameLines;
    var n, m := |a|, |b|;
    var w := m + 1;
    var t := Table(a, b);
    var bld := new Builder();
    var i, j := 0, 0;
    WalkStart(a, b);
    while i < n && j < m
      invariant i <= n && j <= m && Walking(bld.rows, bld.removed, bld.added, a, b, i, j)
      invariant FilledFrom(t[..], a, b, -1, m)
      decreases n - i + m - j
    {
      Look(t[..], a, b, -1, m, i + 1, j);
      Look(t[..], a, b, -1, m, i, j + 1);
      if a[i] == b[j] {
        WalkFlush(bld.rows, bld.removed, bld.added, a, b, i, j);
        bld.Flush();
        WalkSame(bld.rows, a, b, i, j);
        bld.rows := bld.rows + [Row(Text(a[i]), Text(b[j]), Same)];
        i, j := i + 1, j + 1;
      } else if t[At(w, i + 1, j)] >= t[At(w, i, j + 1)] {
        WalkRemove(bld.rows, bld.removed, bld.added, a, b, i, j);
        bld.removed := bld.removed + [a[i]];
        i := i + 1;
      } else {
        WalkAdd(bld.rows, bld.removed, bld.added, a, b, i, j);
        bld.added := bld.added + [b[j]];
        j := j + 1;
      }
    }
    while i < n
      invariant i <= n && j <= m && Walking(bld.rows, bld.removed, bld.added, a, b, i, j)
      invariant i == n || j == m
    {
      WalkRemove(bld.rows, bld.removed, bld.added, a, b, i, j);
      bld.removed := bld.removed + [a[i]];
      i := i + 1;
    }
    while j < m
      invariant j <= m && Walking(bld.rows, bld.removed, bld.added, a, b, i, j) && i == n
    {
      WalkAdd(bld.rows, bld.removed, bld.added, a, b, i, j);
      bld.added := bld.added + [b[j]];
      j := j + 1;
    }
    WalkFlush(bld.rows, bld.removed, bld.added, a, b, i, j);
    bld.Flush();
    rows := bld.rows;
    WalkEnd(rows, a, b);
  }

  // ---- texts ---------------------------------------------------------------

  /** Every "\r\n" and every lone "\r" becomes "\n". */
  function Normalise(t: string): string {
    if t == "" then ""
    else if t[0] == '\r' then "\n" + Normalise(if |t| > 1 && t[1] == '\n' then t[2..] else t[1..])
    else [t[0]] + Normalise(t[1..])
  }

  /** The pieces between newlines; always at least one. */
  function Split(t: string): (ls: seq<Line>)
    ensures |ls| >= 1
  {
    if t == "" then [""]
    else if t[0] == '\n' then [""] + Split(t[1..])
    else var rest := Split(t[1..]); [[t[0]] + rest[0]] + rest[1..]
  }

  function LinesOf(text: Cell): seq<Line> {
    var t := Normalise(if text.Null? then "" else text.line);
    var u := if t != "" && t[|t| - 1] == '\n' then t[..|t| - 1] else t;
    if u != "" then Split(u) else []
  }

  predicate OneLine(l: Line) { '\n' !in l && '\r' !in l }

  /** The text whose lines are ls, each ended by eol. */
  function Terminated(ls: seq<Line>, eol: string): string {
    if ls == [] then "" else ls[0] + (eol + Terminated(ls[1..], eol))
  }

  lemma NormaliseEol(eol: string, rest: string)
    requires eol in {"\n", "\r\n", "\r"}
    requires rest == "" || rest[0] != '\n' || eol != "\r"
    ensures Normalise(eol + rest) == "\n" + Normalise(rest)
  {
    var t := eol + rest;
    if eol == "\r\n" {
      assert t[0] == '\r' && t[1] == '\n' && t[2..] == rest;
    } else {
      assert t[1..] == rest;
    }
  }

  lemma {:induction false} NormaliseLine(l: Line, eol: string, rest: string)
    requires OneLine(l) && eol in {"\n", "\r\n", "\r"}
    requires rest == "" || rest[0] != '\n' || eol != "\r"
    ensures Normalise(l + (eol + rest)) == l + ("\n" + Normalise(rest))
  {
    if l == "" {
      NormaliseEol(eol, rest);
      assert l + (eol + rest) == eol + rest;
    } else {
      NormaliseLine(l[1..], eol, rest);
      assert (l + (eol + rest))[1..] == l[1..] + (eol + rest);
      assert [l[0]] + (l[1..] + ("\n" + Normalise(rest))) == l + ("\n" + Normalise(rest));
    }
  }

  lemma {:induction false} NormaliseTerminated(ls: seq<Line>, eol: string)
    requires forall l :: l in ls ==> OneLine(l)
    requires eol in {"\n", "\r\n", "\r"}
    ensures Normalise(Terminated(ls, eol)) == Terminated(ls, "\n")
  {
    if ls != [] {
      var rest := Terminated(ls[1..], eol);
      if eol == "\r" && ls[1..] != [] {
        assert rest == ls[1] + (eol + Terminated(ls[1..][1..], eol));
        assert ls[1] in ls;
        if ls[1] != "" { assert rest[0] == ls[1][0] && ls[1][0] in ls[1]; }
      }
      NormaliseTerminated(ls[1..], eol);
      NormaliseLine(ls[0], eol, rest);
    }
  }

  lemma {:induction false} SplitLine(l: Line, rest: string)
    requires OneLine(l)
    ensures Split(l) == [l]
    ensures Split(l + "\n" + rest) == [l] + Split(rest)
  {
    var t := l + "\n" + rest;
    if l == "" {
      assert t[1..] == rest;
    } else {
      SplitLine(l[1..], rest);
      assert t[1..] == l[1..] + "\n" + rest;
      assert l == [l[0]] + l[1..];
    }
  }

  lemma {:induction false} SplitTerminated(ls: seq<Line>)
    requires ls != [] && forall l :: l in ls ==> OneLine(l)
    ensures var t := Terminated(ls, "\n"); t != "" && t[|t| - 1] == '\n' && Split(t[..|t| - 1]) == ls
  {
    var t := Terminated(ls, "\n");
    if |ls| == 1 {
      assert t == ls[0] + "\n" && t[..|t| - 1] == ls[0];
      SplitLine(ls[0], "");
    } else {
      SplitTerminated(ls[1..]);
      var rest := Terminated(ls[1..], "\n");
      assert t[..|t| - 1] == ls[0] + "\n" + rest[..|rest| - 1];
      SplitLine(ls[0], rest[..|rest| - 1]);
    }
  }

  /**
   * Whichever of the three line endings a text uses, its lines are found again;
   * the one exception is a text of a single empty line, which has none.
   */
  lemma LinesOfTerminated(ls: seq<Line>, eol: string)
    requires forall l :: l in ls ==> OneLine(l)
    requires eol in {"\n", "\r\n", "\r"}
    ensures LinesOf(Text(Terminated(ls, eol))) == if ls == [""] then [] else ls
  {
    hide Split, Normalise, Terminated;
    NormaliseTerminated(ls, eol);
    TerminatedSize(ls);
    if ls != [] {
      SplitTerminated(ls);
      SplitLine("", "");
    }
  }

  lemma TerminatedSize(ls: seq<Line>)
    ensures ls == [] ==> Terminated(ls, "\n") == ""
    ensures ls == [""] ==> Terminated(ls, "\n") == "\n"
    ensures ls != [] && ls != [""] ==> |Terminated(ls, "\n")| > 1
  {
    if |ls| == 1 && ls[0] == "" { assert ls == [""]; }
    if |ls| > 1 { assert |Terminated(ls[1..], "\n")| >= 1; }
  }

  // ---- the lines of any text ---------------------------------------------------

  predicate IsEol(e: string) { e in {"\n", "\r\n", "\r"} }

  /** The lines ls, each with its own ending, then `last`, which has none. */
  function Written(ls: seq<Line>, eols: seq<string>, last: Line): string
    requires |ls| == |eols|
  {
    if ls == [] then last else ls[0] + (eols[0] + Written(ls[1..], eols[1..], last))
  }

  /**
   * Lines without line breaks, one of the three endings after each, and no lone
   * "\r" that the "\n" of an empty line would turn into "\r\n".
   */
  ghost predicate Clear(ls: seq<Line>, eols: seq<string>, last: Line) {
    && |ls| == |eols| && OneLine(last)
    && (forall l :: l in ls ==> OneLine(l)) && (forall e :: e in eols ==> IsEol(e))
    && (forall i, j :: 0 <= i && j == i + 1 < |ls| && eols[i] == "\r" && ls[j] == "" ==> eols[j] != "\n")
  }

  lemma ClearRest(ls: seq<Line>, eols: seq<string>, last: Line)
    requires Clear(ls, eols, last) && ls != []
    ensures Clear(ls[1..], eols[1..], last)
    ensures var rest := Written(ls[1..], eols[1..], last); rest == "" || rest[0] != '\n' || eols[0] != "\r"
  {
    var (ms, es) := (ls[1..], eols[1..]);
    forall i, j | 0 <= i && j == i + 1 < |ms| && es[i] == "\r" && ms[j] == "" ensures es[j] != "\n" {
      assert ms[j] == ls[j + 1] && es[i] == eols[i + 1] && es[j] == eols[j + 1];
    }
    if ms != [] {
      assert ms[0] == ls[1] && ls[1] in ls && es[0] == eols[1] && eols[1] in eols;
      if ms[0] != "" { assert ms[0][0] in ms[0]; }
    }
  }

  lemma NormaliseLast(last: Line)
    requires OneLine(last)
    ensures Normalise(last) == last
  {
    if last != "" { NormaliseLast(last[1..]); }
  }

  lemma {:induction false} NormaliseWritten(ls: seq<Line>, eols: seq<string>, last: Line)
    requires Clear(ls, eols, last)
    ensures Normalise(Written(ls, eols, last)) == Terminated(ls, "\n") + last
  {
    if ls == [] {
      NormaliseLast(last);
      assert "" + last == last;
    } else {
      ClearRest(ls, eols, last);
      var rest := Written(ls[1..], eols[1..], last);
      assert ls[0] in ls && eols[0] in eols;
      NormaliseWritten(ls[1..], eols[1..], last);
      NormaliseLine(ls[0], eols[0], rest);
    }
  }

  lemma {:induction false} SplitWritten(ls: seq<Line>, last: Line)
    requires OneLine(last) && forall l :: l in ls ==> OneLine(l)
    ensures Split(Terminated(ls, "\n") + last) == ls + [last]
  {
    if ls == [] {
      SplitLine(last, "");
      assert "" + last == last;
    } else {
      var rest := Terminated(ls[1..], "\n") + last;
      SplitWritten(ls[1..], last);
      SplitLine(ls[0], rest);
      assert Terminated(ls, "\n") + last == ls[0] + "\n" + rest;
    }
  }

  /**
   * The lines of any text come back, whatever mix of endings it uses, with the
   * last line ended or not. Only a text of a single empty line has none.
   */
  lemma LinesOfWritten(ls: seq<Line>, eols: seq<string>, last: Line)
    requires Clear(ls, eols, last)
    ensures LinesOf(Text(Written(ls, eols, last))) ==
            if last != "" then ls + [last] else if ls == [""] then [] else ls
    ensures LinesOf(Null) == [] && LinesOf(Text("")) == []
  {
    hide Split, Normalise, Terminated, Written;
    NormaliseWritten(ls, eols, last);
    NormaliseLast("");
    SplitWritten(ls, last);
    if last == "" {
      assert Terminated(ls, "\n") + last == Terminated(ls, "\n");
      TerminatedSize(ls);
      if ls != [] {
        SplitTerminated(ls);
        SplitLine("", "");
      }
    } else {
      var t := Terminated(ls, "\n") + last;
      assert t[|t| - 1] == last[|last| - 1] && last[|last| - 1] in last;
    }
  }

  /** And every text is written so. */
  lemma {:induction false} EveryTextIsWritten(t: string) returns (ls: seq<Line>, eols: seq<string>, last: Line)
    ensures Clear(ls, eols, last) && Written(ls, eols, last) == t
  {
    if t == "" {
      ls, eols, last := [], [], "";
    } else if t[0] == '\n' || t[0] == '\r' {
      var n := if t[0] == '\r' && |t| > 1 && t[1] == '\n' then 2 else 1;
      ls, eols, last := EveryTextIsWritten(t[n..]);
      assert t[..n] == if n == 2 then "\r\n" else [t[0]];
      assert t[n..] != "" ==> t[n..][0] == t[n];
      EndingInFront(ls, eols, last, t[..n]);
      ls, eols := [""] + ls, [t[..n]] + eols;
    } else {
      ls, eols, last := EveryTextIsWritten(t[1..]);
      CharacterInFront(ls, eols, last, t[0]);
      if ls == [] {
        last := [t[0]] + last;
      } else {
        ls := [[t[0]] + ls[0]] + ls[1..];
      }
    }
  }

  lemma EndingInFront(ls: seq<Line>, eols: seq<string>, last: Line, e: string)
    requires Clear(ls, eols, last) && IsEol(e)
    requires var t := Written(ls, eols, last); e == "\r" ==> t == "" || t[0] != '\n'
    ensures Clear([""] + ls, [e] + eols, last) && Written([""] + ls, [e] + eols, last) == e + Written(ls, eols, last)
  {
    var (ms, es) := ([""] + ls, [e] + eols);
    assert ms[1..] == ls && es[1..] == eols;
    forall i, j | 0 <= i && j == i + 1 < |ms| && es[i] == "\r" && ms[j] == "" ensures es[j] != "\n" {
      assert ms[j] == ls[i] && es[j] == eols[i];
      if i > 0 { assert es[i] == eols[i - 1]; }
    }
  }

  lemma CharacterInFront(ls: seq<Line>, eols: seq<string>, last: Line, c: char)
    requires Clear(ls, eols, last) && c != '\n' && c != '\r'
    ensures ls == [] ==> Clear(ls, eols, [c] + last) && Written(ls, eols, [c] + last) == [c] + Written(ls, eols, last)
    ensures ls != [] ==> var ms := [[c] + ls[0]] + ls[1..];
              Clear(ms, eols, last) && Written(ms, eols, last) == [c] + Written(ls, eols, last)
  {
    if ls != [] {
      var ms := [[c] + ls[0]] + ls[1..];
      assert ms[1..] == ls[1..] && ls[0] in ls;
      assert forall k :: 0 < k < |ms| ==> ms[k] == ls[k];
    }
  }

  // ---- the whole comparison -------------------------------------------------

  /** Rows pair the two lists by position. */
  ghost predicate Positional(rows: seq<Row>, a: seq<Line>, b: seq<Line>, n: nat) {
    && |rows| == n
    && forall k :: 0 <= k < n ==>
         && rows[k].left == CellAt(a, k)
         && rows[k].right == CellAt(b, k)
         && WellKinded(rows[k])
  }

  function CellAt(a: seq<Line>, k: nat): Cell {
    if k < |a| then Text(a[k]) else Null
  }

  lemma TakeStep(a: seq<Line>, k: nat)
    ensures a[..Min(k + 1, |a|)] == a[..Min(k, |a|)] + Lines1(CellAt(a, k))
  {
  }

  method ByPosition(a: seq<Line>, b: seq<Line>) returns (rows: seq<Row>)
    ensures Shows(rows, a, b)
    ensures Positional(rows, a, b, Max(|a|, |b|))
  {
    hide Collect;
    rows := [];
    assert Collect(rows, OnLeft) == [] && Collect(rows, OnRight) == [] by { CollectNone(); }
    for i := 0 to Max(|a|, |b|)
      invariant Positional(rows, a, b, i)
      invariant Collect(rows, OnLeft) == a[..Min(i, |a|)]
      invariant Collect(rows, OnRight) == b[..Min(i, |b|)]
    {
      var l := if i < |a| then Text(a[i]) else Null;
      var r := if i < |b| then Text(b[i]) else Null;
      var kind := if l == Null then Added else if r == Null then Removed else if l == r then Same else Changed;
      AppendRow(rows, Row(l, r, kind), OnLeft);
      AppendRow(rows, Row(l, r, kind), OnRight);
      TakeStep(a, i);
      TakeStep(b, i);
      rows := rows + [Row(l, r, kind)];
    }
  }

  lemma CollectNone()
    ensures forall c :: Collect([], c) == []
  {
  }

  /**
   * Two texts as aligned rows. Within the cell limit no alignment has more
   * "same" rows; past it the lines are paired by position.
   */
  method Compare(textA: Cell, textB: Cell) returns (rows: seq<Row>, aligned: bool)
    ensures Shows(rows, LinesOf(textA), LinesOf(textB))
    ensures aligned <==> (|LinesOf(textA)| + 1) * (|LinesOf(textB)| + 1) <= MAX_CELLS
    ensures aligned ==> LongestCommon(SameLines(rows), LinesOf(textA), LinesOf(textB))
    ensures !aligned ==>
              Positional(rows, LinesOf(textA), LinesOf(textB), Max(|LinesOf(textA)|, |LinesOf(textB)|))
  {
    hide *;
    var a, b := LinesOf(textA), LinesOf(textB);
    if (|a| + 1) * (|b| + 1) > MAX_CELLS {
      rows := ByPosition(a, b);
      aligned := false;
    } else {
      rows := Align(a, b);
      aligned := true;
    }
  }

  datatype Counts = Counts(same: nat, changed: nat, added: nat, removed: nat)

  /** The counts under the view; together they account for every line once. */
  method Summary(rows: seq<Row>) returns (c: Counts)
    requires forall k :: 0 <= k < |rows| ==> WellKinded(rows[k])
    ensures c.same == |SameLines(rows)|
    ensures c.same + c.changed + c.removed == |Collect(rows, OnLeft)|
    ensures c.same + c.changed + c.added == |Collect(rows, OnRight)|
    ensures c.same + c.changed + c.added + c.removed == |rows|
  {
    c := Counts(0, 0, 0, 0);
    assert rows[..0] == [];
    for i := 0 to |rows|
      invariant c.same == |SameLines(rows[..i])|
      invariant c.same + c.changed + c.removed == |Collect(rows[..i], OnLeft)|
      invariant c.same + c.changed + c.added == |Collect(rows[..i], OnRight)|
      invariant c.same + c.changed + c.added + c.removed == i
    {
      assert rows[..i + 1] == rows[..i] + [rows[i]];
      AppendRow(rows[..i], rows[i], OnLeft);
      AppendRow(rows[..i], rows[i], OnRight);
      AppendRow(rows[..i], rows[i], InBoth);
      match rows[i].kind
      case Same => c := c.(same := c.same + 1);
      case Changed => c := c.(changed := c.changed + 1);
      case Added => c := c.(added := c.added + 1);
      case Removed => c := c.(removed := c.removed + 1);
    }
    assert rows[..|rows|] == rows;
  }
}
