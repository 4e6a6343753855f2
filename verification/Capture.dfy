/**
 * Capture (daemon/src/capture.c): a clipboard selection is debounced, read one
 * format at a time, stored, and its offer released; plus the keep-alive check.
 * Pipes, clocks, scripts, rules and the database answer through parameters.
 */
module Capture {
  import opened Bytes
  import opened Mime
  import Utf8

  const MIME_PASSWORD_HINT := "x-kde-passwordManagerHint"
  const MAX_READS := 32

  // ---- the read plan (mime.c) ----------------------------------------------

  datatype Read = Read(offered: string, canonical: string)
  datatype Plan = Plan(steps: seq<Read>, ours: bool, sensitive: bool)

  function Lower(c: char): char { if 'A' <= c <= 'Z' then c + 32 as char else c }

  predicate SameIgnoringCase(s: string, t: string) {
    |s| == |t| && forall i :: 0 <= i < |s| ==> Lower(s[i]) == Lower(t[i])
  }

  /** Names are the same when at every place they have the same character or the two cases of a letter. */
  lemma CaseIsIgnored(s: string, t: string)
    ensures SameIgnoringCase(s, t) <==>
              |s| == |t| && forall i :: 0 <= i < |s| ==>
                || s[i] == t[i]
                || ('A' <= s[i] <= 'Z' && t[i] as int - 'a' as int == s[i] as int - 'A' as int)
                || ('A' <= t[i] <= 'Z' && s[i] as int - 'a' as int == t[i] as int - 'A' as int)
  {
  }

  /** Lower is better; -1 is not a text name. */
  function TextRank(m: string): int {
    if SameIgnoringCase(m, "text/plain;charset=utf-8") || SameIgnoringCase(m, "text/plain; charset=utf-8") then 0
    else if m == "UTF8_STRING" then 1
    else if m == "text/plain" then 2
    else if m == "STRING" then 3
    else if m == "TEXT" then 4
    else -1
  }

  predicate IsImage(m: string) { "image/" <= m }

  predicate IsIgnored(m: string) {
    m in ["TARGETS", "MULTIPLE", "TIMESTAMP", "SAVE_TARGETS", "DELETE", "INCR", MIME_MARKER, MIME_PASSWORD_HINT]
  }

  /** Is a non-text name worth reading, given whether a PNG is offered too? */
  predicate Wanted(m: string, hasPng: bool) {
    && !IsIgnored(m) && TextRank(m) < 0
    && !(hasPng && IsImage(m) && m != "image/png" && m != "image/svg+xml")
  }

  /** A PNG makes all other pictures but drawings superfluous; names of the protocol are never read, other names are. */
  lemma WantedIs(m: string, hasPng: bool)
    requires TextRank(m) < 0
    ensures m in {"TARGETS", "MULTIPLE", "TIMESTAMP", "SAVE_TARGETS", "DELETE", "INCR"} ==> !Wanted(m, hasPng)
    ensures m == MIME_MARKER || m == "x-kde-passwordManagerHint" ==> !Wanted(m, hasPng)
    ensures !IsIgnored(m) && (m == "image/png" || m == "image/svg+xml" || m[..Min(6, |m|)] != "image/") ==> Wanted(m, hasPng)
    ensures !IsIgnored(m) && m != "image/png" && m != "image/svg+xml" && m[..Min(6, |m|)] == "image/" ==> (Wanted(m, hasPng) <==> !hasPng)
  {
    hide TextRank;
  }

  predicate Seen(steps: seq<Read>, canonical: string) {
    exists i :: 0 <= i < |steps| && steps[i].canonical == canonical
  }

  ghost predicate DistinctSteps(p: Plan) {
    forall i, j :: 0 <= i < j < |p.steps| ==> p.steps[i].canonical != p.steps[j].canonical
  }

  /** Offers of our own carry the marker; password managers add the hint. */
  predicate Marked(mimes: seq<string>) { MIME_MARKER in mimes }
  predicate Hinted(mimes: seq<string>) { MIME_PASSWORD_HINT in mimes }

  predicate Ordinary(mimes: seq<string>, paused: bool, excluded: bool) {
    !Marked(mimes) && !Hinted(mimes) && !paused && !excluded
  }

  /** At most 32 reads, under distinct names that were all offered. */
  ghost predicate PlanFor(p: Plan, offered: seq<string>) {
    && |p.steps| <= MAX_READS && DistinctSteps(p)
    && (forall r :: r in p.steps ==> r.offered in offered)
    && (forall r :: r in p.steps ==> if r.canonical == MIME_TEXT then TextRank(r.offered) >= 0 else r.canonical == r.offered)
    && (p.ours <==> Marked(offered))
    && (p.sensitive <==> Hinted(offered))
  }

  /** Nothing wanted is left out, and nothing unwanted is let in. */
  ghost predicate PlanIsComplete(p: Plan, offered: seq<string>) {
    // Text is read once, first, under the best name it was offered under.
    && (forall m :: m in offered && TextRank(m) >= 0 ==>
          p.steps != [] && p.steps[0].canonical == MIME_TEXT && TextRank(p.steps[0].offered) <= TextRank(m))
    && (|p.steps| < MAX_READS ==>
          forall m :: m in offered && Wanted(m, "image/png" in offered) ==> Seen(p.steps, m))
    && (forall r :: r in p.steps && r.canonical != MIME_TEXT ==> Wanted(r.offered, "image/png" in offered))
  }

  lemma PlanForMeans(p: Plan, offered: seq<string>)
    requires PlanFor(p, offered)
    ensures |p.steps| <= MAX_READS && DistinctSteps(p)
    ensures (p.ours <==> Marked(offered)) && (p.sensitive <==> Hinted(offered))
  {
  }

  /** The names worth reading besides text, each once, in the order they were offered. */
  function Wants(offered: seq<string>, hasPng: bool): seq<string> {
    if offered == [] then []
    else
      var (w, m) := (Wants(offered[..|offered| - 1], hasPng), offered[|offered| - 1]);
      if Wanted(m, hasPng) && m !in w then w + [m] else w
  }

  function Reads(names: seq<string>): (r: seq<Read>)
    ensures |r| == |names|
  {
    seq(|names|, k requires 0 <= k < |names| => Read(names[k], names[k]))
  }

  /** The first names of the list, as many as there is room for after the text. */
  function Fitting(text: seq<Read>, names: seq<string>): seq<string>
    requires |text| <= 1
  {
    if |text| + |names| <= MAX_READS then names else names[..MAX_READS - |text|]
  }

  lemma {:induction false} WantsMeans(offered: seq<string>, hasPng: bool)
    ensures forall m :: m in Wants(offered, hasPng) <==> m in offered && Wanted(m, hasPng)
    ensures forall i, j :: 0 <= i < j < |Wants(offered, hasPng)| ==> Wants(offered, hasPng)[i] != Wants(offered, hasPng)[j]
  {
    hide Wanted;
    if offered != [] {
      WantsMeans(offered[..|offered| - 1], hasPng);
      assert offered == offered[..|offered| - 1] + [offered[|offered| - 1]];
    }
  }

  lemma {:induction false} WantsPrefix(offered: seq<string>, i: nat, hasPng: bool)
    requires i <= |offered|
    ensures Wants(offered[..i], hasPng) <= Wants(offered, hasPng)
    decreases |offered|
  {
    hide Wanted;
    if i == |offered| {
      assert offered[..i] == offered;
    } else {
      WantsPrefix(offered[..|offered| - 1], i, hasPng);
      assert offered[..|offered| - 1][..i] == offered[..i];
    }
  }

  lemma WantsStep(offered: seq<string>, i: nat, hasPng: bool)
    requires i < |offered|
    ensures Wants(offered[..i + 1], hasPng) ==
            if Wanted(offered[i], hasPng) && offered[i] !in Wants(offered[..i], hasPng)
            then Wants(offered[..i], hasPng) + [offered[i]] else Wants(offered[..i], hasPng)
  {
    hide Wanted;
    assert offered[..i + 1][..i] == offered[..i];
  }

  lemma TextNotWanted(hasPng: bool)
    ensures !Wanted(MIME_TEXT, hasPng)
  {
    hide IsIgnored, IsImage;
    TextIsText();
  }

  lemma SeenIff(text: seq<Read>, names: seq<string>, m: string)
    requires forall r :: r in text ==> r.canonical == MIME_TEXT
    requires m != MIME_TEXT
    ensures Seen(text + Reads(names), m) <==> m in names
  {
    var steps := text + Reads(names);
    if m in names {
      var k :| 0 <= k < |names| && names[k] == m;
      assert steps[|text| + k].canonical == m;
    }
    forall k | 0 <= k < |text| ensures steps[k].canonical != m {
      assert text[k] in text;
    }
  }

  /** The second pass: every other name worth reading, while there is room. */
  method AddOthers(offered: seq<string>, png: bool, text: seq<Read>) returns (steps: seq<Read>)
    requires |text| <= 1 && forall r :: r in text ==> r.canonical == MIME_TEXT
    ensures steps == text + Reads(Fitting(text, Wants(offered, png)))
  {
    hide Seen, TextRank, IsIgnored, IsImage, Wants, MIME_TEXT;
    steps := text;
    var i := 0;
    WantsNone(png);
    assert text + Reads([]) == text;
    while i < |offered| && |steps| < MAX_READS
      invariant i <= |offered| && |steps| <= MAX_READS
      invariant steps == text + Reads(Wants(offered[..i], png))
    {
      var m := offered[i];
      WantsStep(offered, i, png);
      TextNotWanted(png);
      ghost var w := Wants(offered[..i], png);
      i := i + 1;
      if IsIgnored(m) || TextRank(m) >= 0 { continue; }
      if png && IsImage(m) && m != "image/png" && m != "image/svg+xml" { continue; }
      SeenIff(text, w, m);
      if Seen(steps, m) { continue; }
      ReadsMore(w, m);
      assert text + (Reads(w) + [Read(m, m)]) == text + Reads(w) + [Read(m, m)];
      steps := steps + [Read(m, m)];
    }
    WantsPrefix(offered, i, png);
    assert i == |offered| ==> offered[..i] == offered;
    assert Fitting(text, Wants(offered, png)) == Wants(offered[..i], png);
  }

  lemma WantsNone(png: bool)
    ensures forall s: seq<string> :: Wants(s[..0], png) == []
  {
  }

  lemma ReadsMore(names: seq<string>, m: string)
    ensures Reads(names + [m]) == Reads(names) + [Read(m, m)]
  {
  }

  /** The first of the names with the lowest rank. */
  function BestName(offered: seq<string>): (b: Option<string>)
    ensures b.Some? ==> TextRank(b.value) >= 0
  {
    if offered == [] then None
    else
      var (b, m) := (BestName(offered[..|offered| - 1]), offered[|offered| - 1]);
      if TextRank(m) >= 0 && (b.None? || TextRank(m) < TextRank(b.value)) then Some(m) else b
  }

  function TextRead(b: Option<string>): (t: seq<Read>)
    ensures |t| <= 1
  {
    if b.Some? then [Read(b.value, MIME_TEXT)] else []
  }

  /** The plan for an offer. */
  function PlanOf(offered: seq<string>): Plan {
    var text := TextRead(BestName(offered));
    Plan(text + Reads(Fitting(text, Wants(offered, "image/png" in offered))), Marked(offered), Hinted(offered))
  }

  lemma BestStep(offered: seq<string>, i: nat)
    requires i < |offered|
    ensures var (b, m) := (BestName(offered[..i]), offered[i]);
            BestName(offered[..i + 1]) ==
            if TextRank(m) >= 0 && (b.None? || TextRank(m) < TextRank(b.value)) then Some(m) else b
  {
    hide TextRank;
    assert offered[..i + 1][..i] == offered[..i];
  }

  lemma NoBest(offered: seq<string>)
    ensures BestName(offered[..0]) == None
  {
  }

  /** Whoever offers UTF-8 is asked for it; the X11 names come last. */
  lemma TextIsBest(offered: seq<string>)
    ensures var t := TextRead(BestName(offered));
            var utf8 := "text/plain;charset=utf-8" in offered || "text/plain; charset=utf-8" in offered;
            && (utf8 ==> t != [] && (SameIgnoringCase(t[0].offered, "text/plain;charset=utf-8")
                                     || SameIgnoringCase(t[0].offered, "text/plain; charset=utf-8")))
            && (t != [] && t[0].offered == "UTF8_STRING" ==> !utf8)
            && (t != [] && t[0].offered == "text/plain" ==> !utf8 && "UTF8_STRING" !in offered)
            && (t != [] && t[0].offered == "STRING" ==> !utf8 && "UTF8_STRING" !in offered && "text/plain" !in offered)
            && (t != [] && t[0].offered == "TEXT" ==>
                  !utf8 && "UTF8_STRING" !in offered && "text/plain" !in offered && "STRING" !in offered)
            && (t == [] ==> !utf8 && "UTF8_STRING" !in offered && "text/plain" !in offered && "STRING" !in offered && "TEXT" !in offered)
  {
    BestIsBest(offered);
    TextIsText();
  }

  lemma {:induction false} BestIsBest(offered: seq<string>)
    ensures var b := BestName(offered);
            && (b.Some? ==> b.value in offered)
            && forall m :: m in offered && TextRank(m) >= 0 ==> b.Some? && TextRank(b.value) <= TextRank(m)
  {
    hide TextRank;
    if offered != [] {
      BestIsBest(offered[..|offered| - 1]);
      assert offered == offered[..|offered| - 1] + [offered[|offered| - 1]];
    }
  }

  /** Text, if any, under its best name, then the others in the order they were offered. */
  ghost predicate PlanInOrder(p: Plan, offered: seq<string>, text: seq<Read>) {
    && |text| <= 1 && (forall r :: r in text ==> r.canonical == MIME_TEXT && r.offered in offered && TextRank(r.offered) >= 0)
    && (forall m :: m in offered && TextRank(m) >= 0 ==> text != [] && TextRank(text[0].offered) <= TextRank(m))
    && p.steps == text + Reads(Fitting(text, Wants(offered, "image/png" in offered)))
  }

  method BuildPlan(offered: seq<string>) returns (p: Plan)
    ensures p == PlanOf(offered)
    ensures PlanFor(p, offered)
    ensures PlanIsComplete(p, offered)
    ensures exists text :: PlanInOrder(p, offered, text)
  {
    hide TextRank, Wants, PlanFor, PlanIsComplete, BestName;
    TextIsText();
    var best, bestRank := "", 99;
    var ours, sensitive, png := false, false, false;
    NoBest(offered);
    for i := 0 to |offered|
      invariant ours <==> MIME_MARKER in offered[..i]
      invariant sensitive <==> MIME_PASSWORD_HINT in offered[..i]
      invariant png <==> "image/png" in offered[..i]
      invariant bestRank == 99 || 0 <= TextRank(best) == bestRank
      invariant BestName(offered[..i]) == if bestRank < 99 then Some(best) else None
    {
      var m := offered[i];
      BestStep(offered, i);
      assert offered[..i + 1] == offered[..i] + [m];
      if m == MIME_MARKER { ours := true; }
      if m == MIME_PASSWORD_HINT { sensitive := true; }
      if m == "image/png" { png := true; }
      var r := TextRank(m);
      if r >= 0 && r < bestRank { bestRank, best := r, m; }
    }
    assert offered[..|offered|] == offered;
    BestIsBest(offered);
    var text := if bestRank < 99 then [Read(best, MIME_TEXT)] else [];
    var steps := AddOthers(offered, png, text);
    p := Plan(steps, ours, sensitive);
    OrderGivesPlan(p, offered, text);
  }

  /** A plan in order has distinct steps and misses nothing. */
  lemma OrderGivesPlan(p: Plan, offered: seq<string>, text: seq<Read>)
    requires PlanInOrder(p, offered, text)
    requires (p.ours <==> Marked(offered)) && (p.sensitive <==> Hinted(offered))
    ensures PlanFor(p, offered) && PlanIsComplete(p, offered)
  {
    hide TextRank, Wants, Wanted, Marked, Hinted;
    var png := "image/png" in offered;
    var w := Wants(offered, png);
    var f := Fitting(text, w);
    WantsMeans(offered, png);
    TextNotWanted(png);
    StepsAre(p.steps, text, f);
    assert forall m :: m in f ==> m in w;
  }

  lemma StepsAre(steps: seq<Read>, text: seq<Read>, names: seq<string>)
    requires steps == text + Reads(names)
    ensures forall r :: r in steps <==> r in text || (r.offered == r.canonical && r.canonical in names)
    ensures forall m :: m in names ==> Seen(steps, m)
  {
    forall m | m in names ensures Seen(steps, m) {
      var k :| 0 <= k < |names| && names[k] == m;
      assert steps[|text| + k] == Read(m, m);
    }
    forall r ensures r in steps <==> r in text || (r.offered == r.canonical && r.canonical in names) {
      if r.offered == r.canonical && r.canonical in names {
        var k :| 0 <= k < |names| && names[k] == r.canonical;
        assert steps[|text| + k] == r;
      }
    }
  }

  lemma TextIsText()
    ensures TextRank(MIME_TEXT) == 0
    ensures forall m :: TextRank(m) <= 4
  {
  }

  // ---- the capture machine -----------------------------------------------------

  datatype Got = Got(mime: string, offered: string, data: bytes)

  /** What one read(2) on the pipe returns. */
  datatype Chunk = Data(bytes: bytes) | Eof | Interrupted | WouldBlock | Broken

  /** What the database is given of one format. */
  datatype Format = Format(mime: string, data: bytes)

  /** What becomes of a complete set of formats. */
  datatype Verdict =
    | Dropped                                        // skipped by a script, or the database refused it
    | Stored(id: int, text: Option<bytes>, hooked: Option<int>)
      // text: what a script makes of it; hooked: the clip the waiting copy-buffer hook, if any, puts back in time

  /** The answers the environment gives while one callback runs. */
  datatype Env = Env(late: bool, piped: bool, cap: nat, verdict: Verdict)

  /** got holds reads of the plan, in plan order and before `next`, each within its cap. */
  ghost predicate Kept(got: seq<Got>, picked: seq<nat>, caps: seq<nat>, plan: Plan, next: nat) {
    && |picked| == |got| == |caps|
    && (forall k :: 0 <= k < |got| ==>
          && picked[k] < next && picked[k] < |plan.steps|
          && got[k].mime == plan.steps[picked[k]].canonical
          && got[k].offered == plan.steps[picked[k]].offered
          && |got[k].data| <= caps[k])
    && (forall k, l :: 0 <= k < l < |got| ==> picked[k] < picked[l])
  }

  lemma KeptIsBounded(got: seq<Got>, picked: seq<nat>, caps: seq<nat>, plan: Plan, next: nat)
    requires Kept(got, picked, caps, plan, next)
    ensures |got| <= next
  {
    PickedGrows(picked, |got|);
    if got != [] { assert picked[|got| - 1] < next; }
  }

  lemma {:induction false} PickedGrows(picked: seq<nat>, n: nat)
    requires n <= |picked| && forall k, l :: 0 <= k < l < |picked| ==> picked[k] < picked[l]
    ensures forall k :: 0 <= k < n ==> picked[k] >= k
  {
    if n > 0 {
      PickedGrows(picked, n - 1);
      if n > 1 { assert picked[n - 2] < picked[n - 1]; }
    }
  }

  /** The formats handed to the database never share a mime. */
  lemma KeptMimesAreDistinct(got: seq<Got>, picked: seq<nat>, caps: seq<nat>, plan: Plan, next: nat)
    requires Kept(got, picked, caps, plan, next) && DistinctSteps(plan)
    ensures forall k, l :: 0 <= k < l < |got| ==> got[k].mime != got[l].mime
  {
    forall k, l | 0 <= k < l < |got| ensures got[k].mime != got[l].mime {
      assert picked[k] < picked[l];
    }
  }

  /** Keeping the step at `next`. */
  lemma KeepOne(got: seq<Got>, picked: seq<nat>, caps: seq<nat>, plan: Plan, next: nat, data: bytes, cap: nat)
    requires Kept(got, picked, caps, plan, next) && next < |plan.steps| && |data| <= cap
    ensures Kept(got + [Got(plan.steps[next].canonical, plan.steps[next].offered, data)], picked + [next],
                 caps + [cap], plan, next + 1)
  {
  }

  lemma KeepNone(got: seq<Got>, picked: seq<nat>, caps: seq<nat>, plan: Plan, next: nat)
    requires Kept(got, picked, caps, plan, next)
    ensures Kept(got, picked, caps, plan, next + 1)
  {
  }

  datatype Received = More(cur: bytes) | Complete(data: bytes) | Lost

  /** What a run of reads makes of the bytes so far: more to come, a whole format, or nothing. */
  function Receive(cur: bytes, cap: nat, chunks: seq<Chunk>): (r: Received)
    requires |cur| <= cap
    decreases |chunks|
    ensures r.More? ==> |r.cur| <= cap
    ensures r.Complete? ==> |r.data| <= cap
  {
    if chunks == [] then More(cur)
    else match chunks[0]
      case Data(b) => if |cur| + |b| > cap then Lost else Receive(cur + b, cap, chunks[1..])
      case Eof => Complete(cur)
      case Interrupted => Receive(cur, cap, chunks[1..])
      case WouldBlock => More(cur)
      case Broken => Lost
  }

  /** Everything the pipe delivered. */
  function AllData(chunks: seq<Chunk>): bytes {
    if chunks == [] then [] else (if chunks[0].Data? then chunks[0].bytes else []) + AllData(chunks[1..])
  }

  /** A format counts only when its pipe was read to the end, and then it is exactly what was delivered. */
  lemma {:induction false} CompleteIsEverything(cur: bytes, cap: nat, chunks: seq<Chunk>, n: nat)
    requires |cur| <= cap && n < |chunks| && chunks[n].Eof?
    requires forall k :: 0 <= k < n ==> chunks[k].Data? || chunks[k].Interrupted?
    ensures Receive(cur, cap, chunks) == if |cur + AllData(chunks[..n])| <= cap then Complete(cur + AllData(chunks[..n]))
                                         else Lost
    decreases n
  {
    if n == 0 {
      assert chunks[..0] == [] && cur + [] == cur;
    } else {
      var c, rest := chunks[0], chunks[1..];
      assert chunks[..n][0] == c && chunks[..n][1..] == rest[..n - 1];
      if c.Data? {
        if |cur| + |c.bytes| <= cap { CompleteIsEverything(cur + c.bytes, cap, rest, n - 1); }
        assert cur + (c.bytes + AllData(rest[..n - 1])) == (cur + c.bytes) + AllData(rest[..n - 1]);
      } else {
        CompleteIsEverything(cur, cap, rest, n - 1);
        assert [] + AllData(rest[..n - 1]) == AllData(rest[..n - 1]);
      }
    }
  }

  /** Nothing but data and interruptions before n, and then something else or nothing yet. */
  predicate Runs(chunks: seq<Chunk>, n: nat) {
    && n <= |chunks| && (forall k :: 0 <= k < n ==> chunks[k].Data? || chunks[k].Interrupted?)
    && (n < |chunks| ==> !chunks[n].Data? && !chunks[n].Interrupted?)
  }

  lemma AllDataHead(chunks: seq<Chunk>, n: nat)
    requires 0 < n <= |chunks|
    ensures AllData(chunks[..n]) == (if chunks[0].Data? then chunks[0].bytes else []) + AllData(chunks[1..][..n - 1])
  {
    assert chunks[..n][0] == chunks[0] && chunks[..n][1..] == chunks[1..][..n - 1];
  }

  /** What arrives before a pipe runs dry is kept; a pipe that fails, or that holds too much, loses the format. */
  lemma {:induction false} ReceiveIs(cur: bytes, cap: nat, chunks: seq<Chunk>, n: nat)
    requires |cur| <= cap && Runs(chunks, n)
    ensures var all := cur + AllData(chunks[..n]);
            Receive(cur, cap, chunks) ==
            if |all| > cap then Lost
            else if n == |chunks| || chunks[n] == WouldBlock then More(all)
            else if chunks[n] == Eof then Complete(all)
            else Lost
    decreases n
  {
    if n == 0 {
      assert chunks[..0] == [] && cur + [] == cur;
    } else {
      hide AllData;
      var b := if chunks[0].Data? then chunks[0].bytes else [];
      AllDataHead(chunks, n);
      assert cur + (b + AllData(chunks[1..][..n - 1])) == (cur + b) + AllData(chunks[1..][..n - 1]);
      assert cur + [] == cur;
      if |cur| + |b| <= cap { ReceiveIs(cur + b, cap, chunks[1..], n - 1); }
    }
  }

  // ---- what is handed over ------------------------------------------------------

  /** Text under one of the X11 names that is not UTF-8 is Latin-1 and is converted. */
  function Converted(g: Got): Format {
    Format(g.mime, if g.mime == MIME_TEXT && !Utf8.Well(g.data) && (g.offered == "STRING" || g.offered == "TEXT")
                   then Utf8.Widen(g.data) else g.data)
  }

  function Handed(got: seq<Got>): (h: seq<Format>)
    ensures |h| == |got|
  {
    seq(|got|, k requires 0 <= k < |got| => Converted(got[k]))
  }

  lemma HandedNone(got: seq<Got>)
    ensures Handed(got[..0]) == []
  {
  }

  lemma HandedMore(got: seq<Got>, i: nat)
    requires i < |got|
    ensures Handed(got[..i + 1]) == Handed(got[..i]) + [Converted(got[i])]
  {
    hide Converted;
  }

  predicate AnyBytes(fs: seq<Format>) { exists k :: 0 <= k < |fs| && fs[k].data != [] }

  method HasBytes(fs: seq<Format>) returns (any: bool)
    ensures any <==> AnyBytes(fs)
  {
    any := false;
    for i := 0 to |fs|
      invariant any <==> exists k :: 0 <= k < i && fs[k].data != []
    {
      if fs[i].data != [] { any := true; }
    }
  }

  /** What is stored, if anything: what a script makes of a copy is plain text. */
  function Outcome(got: seq<Got>, v: Verdict): Option<seq<Format>> {
    if !AnyBytes(Handed(got)) || v.Dropped? then None
    else Some(if v.text.Some? then [Format(MIME_TEXT, v.text.value)] else Handed(got))
  }

  /** Text is stored as UTF-8 exactly when it was so already, and then as it was, or was read under an X11 name. */
  lemma StoredTextIsUtf8(g: Got)
    requires g.mime == MIME_TEXT
    ensures Utf8.IsUtf8(Converted(g).data) <==> g.offered == "STRING" || g.offered == "TEXT" || Utf8.IsUtf8(g.data)
    ensures Utf8.IsUtf8(g.data) ==> Converted(g).data == g.data
  {
    hide Utf8.Well, Utf8.Widen;
    Utf8.WellIsUtf8(g.data);
    Utf8.WidenIsWell(g.data);
    Utf8.WellIsUtf8(Utf8.Widen(g.data));
  }

  lemma {:induction false} WidenEmpty(s: bytes)
    ensures Utf8.Widen(s) == [] <==> s == []
  {
    if s != [] { WidenEmpty(s[..|s| - 1]); }
  }

  // ---- the plan, filtered -----------------------------------------------------------

  function Filtered(steps: seq<Read>, keep: Read -> bool): seq<Read> {
    if steps == [] then []
    else Filtered(steps[..|steps| - 1], keep) + if keep(steps[|steps| - 1]) then [steps[|steps| - 1]] else []
  }

  lemma FilteredStart(steps: seq<Read>, keep: Read -> bool)
    ensures Filtered(steps[..0], keep) == []
  {
  }

  lemma FilteredStep(steps: seq<Read>, r: nat, keep: Read -> bool)
    requires r < |steps|
    ensures Filtered(steps[..r + 1], keep) == if keep(steps[r]) then Filtered(steps[..r], keep) + [steps[r]] else Filtered(steps[..r], keep)
  {
    assert steps[..r + 1][..r] == steps[..r];
  }

  /** Exactly the kept steps are left, and distinct ones stay distinct. */
  lemma {:induction false} FilteredMeans(steps: seq<Read>, keep: Read -> bool)
    ensures |Filtered(steps, keep)| <= |steps|
    ensures forall r :: r in Filtered(steps, keep) <==> r in steps && keep(r)
    ensures (forall i, j :: 0 <= i < j < |steps| ==> steps[i].canonical != steps[j].canonical) ==>
              forall i, j :: 0 <= i < j < |Filtered(steps, keep)| ==>
                Filtered(steps, keep)[i].canonical != Filtered(steps, keep)[j].canonical
  {
    if steps != [] {
      var (init, last) := (steps[..|steps| - 1], steps[|steps| - 1]);
      FilteredMeans(init, keep);
      assert steps == init + [last];
      if forall i, j :: 0 <= i < j < |steps| ==> steps[i].canonical != steps[j].canonical {
        forall i | 0 <= i < |Filtered(init, keep)| ensures Filtered(init, keep)[i].canonical != last.canonical {
          assert Filtered(init, keep)[i] in init;
        }
      }
    }
  }

  lemma FilteredStaysDistinct(p: Plan, q: Plan, keep: Read -> bool)
    requires DistinctSteps(p) && q.steps == Filtered(p.steps, keep)
    ensures DistinctSteps(q) && |q.steps| <= |p.steps|
  {
    hide Filtered;
    FilteredMeans(p.steps, keep);
  }

  /** Plan with the steps that skip-format rules drop taken out, in place; the others keep their order. */
  method FilterPlan(p: Plan, keep: Read -> bool) returns (q: Plan)
    requires DistinctSteps(p)
    ensures DistinctSteps(q) && q.steps == Filtered(p.steps, keep) && |q.steps| <= |p.steps|
    ensures q.ours == p.ours && q.sensitive == p.sensitive
  {
    hide Filtered, DistinctSteps;
    var kept: seq<Read> := [];
    FilteredStart(p.steps, keep);
    for r := 0 to |p.steps|
      invariant kept == Filtered(p.steps[..r], keep)
    {
      FilteredStep(p.steps, r, keep);
      if keep(p.steps[r]) {
        kept := kept + [p.steps[r]];
      }
    }
    assert p.steps[..|p.steps|] == p.steps;
    q := p.(steps := kept);
    FilteredStaysDistinct(p, q, keep);
  }

  /** Every offer handed in was released once, save the one still held. */
  ghost predicate Accounted(handed: multiset<int>, destroyed: multiset<int>, held: Option<int>) {
    handed == destroyed + if held.Some? then multiset{held.value} else multiset{}
  }

  /** The current clip after a capture was stored; 0 when a script rewrote the text. */
  function NowCurrent(hook: bool, v: Verdict): int
    requires v.Stored?
  {
    if hook && v.hooked.Some? then v.hooked.value else if v.text.Some? then 0 else v.id
  }

  // ---- the machine, on values ----------------------------------------------------

  datatype Stage = Resting | Waiting | At(next: nat, cur: bytes, cap: nat)

  /**
   * A capture as its callbacks see it. log: every set of formats handed to the
   * database; keepalive, recheck: a timer is armed; putBack: the clips put back.
   */
  datatype Flight = Flight(
    offer: Option<int>, stage: Stage, plan: Plan, got: seq<Got>,
    current: int, sensitive: bool, hook: bool, log: seq<seq<Format>>,
    keepalive: bool, recheck: bool, putBack: seq<int>)

  const NO_PLAN := Plan([], false, false)
  const FRESH := Flight(None, Resting, NO_PLAN, [], 0, false, false, [], false, false, [])

  predicate InFlight(f: Flight) { f.stage.At? ==> f.stage.next < |f.plan.steps| && |f.stage.cur| <= f.stage.cap }

  function Aborted(f: Flight): Flight { f.(offer := None, stage := Resting, plan := NO_PLAN, got := []) }

  function Finished(f: Flight, v: Verdict): Flight {
    var o := Outcome(f.got, v);
    if o.None? then Aborted(f)
    else Aborted(f).(log := f.log + [o.value], current := NowCurrent(f.hook, v), hook := false)
  }

  /** On to this step, if there is one and time for it. */
  function Opened(f: Flight, next: nat, env: Env): (g: Flight)
    ensures InFlight(g)
  {
    if next >= |f.plan.steps| || env.late || !env.piped then Finished(f, env.verdict)
    else f.(stage := At(next, [], env.cap))
  }

  /** A step is done with, with what it brought or nothing. */
  function Ended(f: Flight, data: Option<bytes>, env: Env): (g: Flight)
    requires InFlight(f) && f.stage.At?
    ensures InFlight(g)
  {
    var r := f.plan.steps[f.stage.next];
    var kept := if data.Some? then f.got + [Got(r.canonical, r.offered, data.value)] else f.got;
    Opened(f.(stage := Resting, got := kept), f.stage.next + 1, env)
  }

  function Arrived(f: Flight, chunks: seq<Chunk>, env: Env): (g: Flight)
    requires InFlight(f) && f.stage.At?
    ensures InFlight(g)
  {
    match Receive(f.stage.cur, f.stage.cap, chunks)
    case More(c) => f.(stage := f.stage.(cur := c))
    case Complete(data) => Ended(f, Some(data), env)
    case Lost => Ended(f, None, env)
  }

  /** A new selection ends what was in flight. */
  function Offered(f: Flight, o: Option<(int, seq<string>)>, able: bool, paused: bool, excluded: bool, keep: Read -> bool): (g: Flight)
    ensures InFlight(g)
  {
    var quiet := f.(keepalive := false);
    if o.None? then OwnerGone(Aborted(quiet), able)
    else Taken(quiet, o.value.0, o.value.1, paused, excluded, keep)
  }

  function Taken(f: Flight, id: int, mimes: seq<string>, paused: bool, excluded: bool, keep: Read -> bool): (g: Flight)
    ensures InFlight(g)
  {
    if Marked(mimes) then Aborted(f) else Chosen(f, id, PlanOf(mimes), paused, excluded, keep)
  }

  lemma TakenAnyway(f: Flight, id: int, mimes: seq<string>, paused: bool, excluded: bool, keep: Read -> bool)
    ensures Taken(Aborted(f), id, mimes, paused, excluded, keep) == Taken(f, id, mimes, paused, excluded, keep)
  {
    hide PlanOf, Filtered;
  }

  /** There is a clip to put back, and nothing else is going on. */
  predicate Worth(f: Flight, able: bool) { able && f.current != 0 && !f.sensitive && f.offer == None }

  /** The clipboard's owner may have left: look soon, and once more later. */
  function OwnerGone(f: Flight, able: bool): Flight {
    if Worth(f, able) then f.(keepalive := true, recheck := true) else f
  }

  /** The clipboard is looked at; if it is empty the clip is put back. */
  function Probed(f: Flight, able: bool, serving: int, occupied: bool, found: bool): Flight {
    if Worth(f, able) && serving != f.current && !occupied && found then f.(putBack := f.putBack + [f.current]) else f
  }

  function Chosen(f: Flight, id: int, p: Plan, paused: bool, excluded: bool, keep: Read -> bool): Flight {
    var g := Aborted(f).(current := 0, sensitive := p.sensitive);
    var q := p.(steps := Filtered(p.steps, keep));
    if p.sensitive || paused || excluded || q.steps == [] then g else g.(offer := Some(id), stage := Waiting, plan := q)
  }

  class Capture {
    var offer: Option<int>
    var plan: Plan
    var next: nat
    var reading: bool       // a pipe is open on step `next`
    var cur: bytes
    var curCap: nat
    var got: seq<Got>
    var debounceTimer: bool
    var formatTimer: bool
    var keepaliveTimer: bool
    var recheckTimer: bool
    var currentClip: int
    var sensitive: bool
    var hook: bool

    ghost var handed: multiset<int>    // offers given to us
    ghost var destroyed: multiset<int> // offers released
    ghost var picked: seq<nat>         // which step of the plan each kept format came from
    ghost var caps: seq<nat>           // the cap each was read under
    ghost var putBack: seq<int>        // clips keep-alive put back
    ghost var log: seq<seq<Format>>    // what the database was given

    /** The capture as a value. */
    ghost function View(): Flight
      reads this
    {
      Flight(offer, if reading then At(next, cur, curCap) else if debounceTimer then Waiting else Resting,
             if offer.Some? then plan else NO_PLAN, got, currentClip, sensitive, hook, log,
             keepaliveTimer, recheckTimer, putBack)
    }

    ghost predicate Idle()
      reads this
    {
      offer == None && !debounceTimer && !reading && !formatTimer && got == []
    }

    ghost predicate Debouncing()
      reads this
    {
      offer.Some? && debounceTimer && !reading && !formatTimer && got == []
    }

    /** The pipe of step `next` is open. */
    ghost predicate InStep()
      reads this
    {
      && offer.Some? && !debounceTimer && reading
      && |got| <= next < |plan.steps|
      && Kept(got, picked, caps, plan, next)
      && |cur| <= curCap
    }

    ghost predicate Reading()
      reads this
    {
      InStep() && formatTimer
    }

    /** What holds even in the middle of a callback. */
    ghost predicate Sound()
      reads this
    {
      && Accounted(handed, destroyed, offer)
      && |plan.steps| <= MAX_READS && DistinctSteps(plan)
      && (sensitive ==> currentClip == 0)
    }

    /** A capture is under way but no pipe is open: between two steps. */
    ghost predicate Between()
      reads this
    {
      && Sound() && !sensitive && offer.Some? && !debounceTimer && !reading && !formatTimer
      && next <= |plan.steps| && Kept(got, picked, caps, plan, next)
    }

    ghost predicate Valid()
      reads this
    {
      && Sound()
      && (Idle() || Debouncing() || Reading())
      && (sensitive ==> Idle())
    }

    constructor ()
      ensures Valid() && Idle() && currentClip == 0 && !sensitive && handed == multiset{} && putBack == []
      ensures next == 0 && log == [] && View() == FRESH
    {
      offer, plan, next, reading := None, Plan([], false, false), 0, false;
      cur, curCap, got, picked, caps := [], 0, [], [], [];
      debounceTimer, formatTimer, keepaliveTimer, recheckTimer := false, false, false, false;
      currentClip, sensitive, hook := 0, false, false;
      handed, destroyed, putBack, log := multiset{}, multiset{}, [], [];
    }

    method StopReading()
      modifies this`formatTimer, this`reading, this`cur
      ensures !formatTimer && !reading && cur == []
      ensures unchanged(`plan, `next, `sensitive, `currentClip, `hook, `offer, `handed, `destroyed, `putBack, `got, `log)
      ensures unchanged(`debounceTimer)
    {
      formatTimer, reading, cur := false, false, [];
    }

    /** wl_offer_destroy of the offer held, if any. */
    method DestroyOffer()
      requires Accounted(handed, destroyed, offer)
      modifies this`offer, this`destroyed
      ensures offer == None && Accounted(handed, destroyed, offer)
      ensures unchanged(`plan, `next, `sensitive, `currentClip, `hook, `handed, `putBack, `log)
      ensures unchanged(`debounceTimer, `formatTimer, `reading, `got)
    {
      if offer.Some? { destroyed := destroyed + multiset{offer.value}; }
      offer := None;
    }

    /** Drop the capture in flight, if any, and release its offer. */
    method AbortCurrent()
      requires Sound()
      modifies this`debounceTimer, this`formatTimer, this`reading, this`cur, this`got, this`picked, this`caps,
               this`offer, this`destroyed
      ensures Valid() && Idle() && unchanged(`plan, `next, `sensitive, `currentClip, `hook, `handed, `putBack, `log)
      ensures View() == Aborted(old(View()))
    {
      hide Capture.InStep, Capture.Debouncing, Capture.Reading, Kept, Accounted, DistinctSteps;
      Discard();
      DestroyOffer();
    }

    /** Forget what has been read, and stop waiting for more. */
    method Discard()
      modifies this`debounceTimer, this`formatTimer, this`reading, this`cur, this`got, this`picked, this`caps
      ensures !debounceTimer && !formatTimer && !reading && got == []
      ensures unchanged(`plan, `next, `sensitive, `currentClip, `hook, `offer, `handed, `destroyed, `putBack, `log)
    {
      debounceTimer := false;
      StopReading();
      got, picked, caps := [], [], [];
    }

    function CurrentClip(): int
      reads this
    {
      if sensitive then 0 else currentClip
    }

    /** A deliberate serve makes its clip current. */
    method SetCurrentClip(id: int)
      modifies this`currentClip, this`sensitive
      ensures currentClip == id && !sensitive
      ensures View() == old(View()).(current := id, sensitive := false)
      ensures old(Valid()) ==> Valid()
    {
      hide Kept, Accounted, DistinctSteps;
      currentClip, sensitive := id, false;
    }

    /** Every step read, or time is up: hand the formats over, then let go of the offer. */
    method Finish(env: Env) returns (stored: Option<seq<Format>>)
      requires Between()
      modifies this
      ensures Valid() && Idle() && !sensitive
      ensures handed == old(handed) && putBack == old(putBack) && plan == old(plan) && next == old(next)
      ensures stored == Outcome(old(got), env.verdict)
      ensures View() == Finished(old(View()), env.verdict)
      ensures stored.None? ==> currentClip == old(currentClip) && hook == old(hook)
      ensures stored.Some? ==> !hook && currentClip == NowCurrent(old(hook), env.verdict)
    {
      hide Capture.InStep, Capture.Debouncing, Capture.Reading, Kept, Accounted, DistinctSteps, Handed, AnyBytes, NowCurrent;
      var fmts := Formats();
      var anyBytes := HasBytes(fmts);
      stored := None;
      if anyBytes && env.verdict.Stored? {
        fmts := Store(fmts, env.verdict);
        stored := Some(fmts);
      }
      AbortCurrent();
    }

    /** Hand the formats to the database, or the text a script makes of them. */
    method Store(fmts: seq<Format>, v: Verdict) returns (given: seq<Format>)
      requires v.Stored? && !sensitive
      modifies this`log, this`currentClip, this`sensitive, this`hook
      ensures given == if v.text.Some? then [Format(MIME_TEXT, v.text.value)] else fmts
      ensures log == old(log) + [given] && !hook && !sensitive && currentClip == NowCurrent(old(hook), v)
    {
      hide Kept, Accounted, DistinctSteps;
      given := if v.text.Some? then [Format(MIME_TEXT, v.text.value)] else fmts;
      log := log + [given];
      currentClip := if v.text.Some? then 0 else v.id;
      if hook {
        hook := false;
        if v.hooked.Some? { SetCurrentClip(v.hooked.value); }
      }
    }

    /** The formats as the database is given them. */
    method Formats() returns (fmts: seq<Format>)
      ensures fmts == Handed(got)
    {
      hide Handed, Utf8.Well, Utf8.Widen;
      fmts := [];
      HandedNone(got);
      for i := 0 to |got|
        invariant fmts == Handed(got[..i])
      {
        var data := got[i].data;
        Utf8.WellIsUtf8(data);
        if got[i].mime == MIME_TEXT {
          var valid := Utf8.Valid(data);
          if !valid && (got[i].offered == "STRING" || got[i].offered == "TEXT") {
            data := Utf8.Latin1ToUtf8(data);
          }
        }
        fmts := fmts + [Format(got[i].mime, data)];
        HandedMore(got, i);
      }
      assert got[..|got|] == got;
    }

    /** Open a pipe for the next step, or finish. */
    method ReadNext(env: Env) returns (stored: Option<seq<Format>>)
      requires Between()
      modifies this
      ensures Valid() && (Idle() || Reading()) && !sensitive
      ensures handed == old(handed) && putBack == old(putBack) && plan == old(plan) && next == old(next)
      ensures Reading() ==> stored == None && got == old(got) && picked == old(picked) && caps == old(caps)
                            && cur == [] && curCap == env.cap && currentClip == old(currentClip) && offer == old(offer)
      ensures Idle() <==> next >= |plan.steps| || env.late || !env.piped
      ensures Idle() ==> stored == Outcome(old(got), env.verdict)
      ensures View() == Opened(old(View()), old(next), env)
    {
      hide Outcome, Kept, Accounted, DistinctSteps;
      stored := None;
      if next >= |plan.steps| || env.late {
        stored := Finish(env);
        return;
      }
      if !env.piped {
        stored := Finish(env);
        return;
      }
      KeptIsBounded(got, picked, caps, plan, next);
      reading, formatTimer := true, true;
      cur, curCap := [], env.cap;
    }

    /** Done with the step at `next`: keep what came, or not, and go on. */
    method EndFormat(keep: bool, env: Env) returns (stored: Option<seq<Format>>)
      requires Sound() && !sensitive && InStep()
      modifies this
      ensures Valid() && (Idle() || Reading()) && !sensitive
      ensures handed == old(handed) && putBack == old(putBack) && plan == old(plan)
      // next only ever grows, so at most |plan.steps| formats are read
      ensures next == old(next) + 1
      ensures Reading() ==> stored == None && got == KeptNow(keep) && cur == [] && currentClip == old(currentClip)
      ensures Idle() <==> next >= |plan.steps| || env.late || !env.piped
      ensures Idle() ==> stored == Outcome(KeptNow(keep), env.verdict)
      ensures View() == Ended(old(View()), if keep then Some(old(cur)) else None, env)
    {
      hide Kept, Accounted, DistinctSteps, Outcome, Opened;
      if keep {
        KeepOne(got, picked, caps, plan, next, cur, curCap);
        got := got + [Got(plan.steps[next].canonical, plan.steps[next].offered, cur)];
        picked, caps := picked + [next], caps + [curCap];
        cur := [];
      } else {
        KeepNone(got, picked, caps, plan, next);
      }
      StopReading();
      next := next + 1;
      stored := ReadNext(env);
    }

    /** The kept formats once the current step is done with. */
    twostate function KeptNow(keep: bool): seq<Got>
      reads this
    {
      if keep && old(next) < |old(plan).steps| then
        old(got) + [Got(old(plan).steps[old(next)].canonical, old(plan).steps[old(next)].offered, old(cur))]
      else old(got)
    }

    method OnFormatTimeout(env: Env) returns (stored: Option<seq<Format>>)
      requires Valid() && Reading()
      modifies this
      ensures Valid() && next == old(next) + 1 && !sensitive
      ensures handed == old(handed) && putBack == old(putBack)
      ensures Reading() ==> got == old(got)
      ensures Idle() ==> stored == Outcome(old(got), env.verdict)
      ensures View() == Ended(old(View()), None, env)
    {
      hide Kept, Accounted, DistinctSteps, Outcome;
      formatTimer := false;
      stored := EndFormat(false, env);
    }

    /** The pipe has something for us. */
    method OnReadable(chunks: seq<Chunk>, env: Env) returns (stored: Option<seq<Format>>)
      requires Valid() && Reading()
      modifies this
      ensures Valid() && !sensitive && handed == old(handed) && putBack == old(putBack)
      ensures View() == Arrived(old(View()), chunks, env)
      ensures match Receive(old(cur), old(curCap), chunks)
              case More(c) =>
                Reading() && cur == c && next == old(next) && got == old(got) && stored == None
              case Complete(data) =>
                var kept := old(got) + [Got(old(plan).steps[old(next)].canonical, old(plan).steps[old(next)].offered, data)];
                next == old(next) + 1 && (Reading() ==> got == kept) && (Idle() ==> stored == Outcome(kept, env.verdict))
              case Lost =>
                && next == old(next) + 1
                && (Reading() ==> got == old(got)) && (Idle() ==> stored == Outcome(old(got), env.verdict))
    {
      hide Kept, Accounted, DistinctSteps, Outcome, Opened, Ended, Finished;
      var k := 0;
      assert chunks[0..] == chunks;
      while k < |chunks|
        invariant k <= |chunks| && Valid() && Reading() && !sensitive
        invariant handed == old(handed) && putBack == old(putBack) && plan == old(plan) && next == old(next)
        invariant got == old(got) && curCap == old(curCap)
        invariant View() == old(View()).(stage := At(next, cur, curCap))
        invariant Receive(old(cur), old(curCap), chunks) == Receive(cur, curCap, chunks[k..])
      {
        assert chunks[k..][1..] == chunks[k + 1..];
        EndedElsewhere(old(View()), At(next, cur, curCap), None, env);
        EndedElsewhere(old(View()), At(next, cur, curCap), Some(cur), env);
        match chunks[k] {
          case Data(b) =>
            if |cur| + |b| > curCap {
              stored := EndFormat(false, env);
              return;
            }
            cur := cur + b;
            k := k + 1;
          case Eof =>
            stored := EndFormat(true, env);
            return;
          case Interrupted =>
            k := k + 1;
          case WouldBlock =>
            return None;
          case Broken =>
            stored := EndFormat(false, env);
            return;
        }
      }
      stored := None;
    }

    /** The selection has held still: start reading. */
    method OnDebounced(env: Env) returns (stored: Option<seq<Format>>)
      requires Valid() && Debouncing()
      modifies this
      ensures Valid() && !sensitive && handed == old(handed) && putBack == old(putBack)
      ensures next == 0 && plan == old(plan) && stored == None
      ensures View() == Opened(old(View()), 0, env)
    {
      hide Kept, Accounted, DistinctSteps;
      debounceTimer := false;
      next := 0;
      picked, caps := [], [];
      KeptNothing(plan);
      stored := ReadNext(env);
    }

    // ---- keep-alive -----------------------------------------------------------

    /** `able`: there is a compositor and the keep_alive setting is on. */
    predicate KeepaliveWanted(able: bool)
      reads this
    {
      able && currentClip != 0 && !sensitive && offer == None
    }

    /**
     * Look whether the clipboard is empty, and if it is put the current clip
     * back. serving: the clip our own source holds, 0 if none.
     */
    method OnKeepalive(able: bool, serving: int, occupied: bool, exists_: bool)
      requires Valid()
      modifies this`keepaliveTimer, this`putBack, this`currentClip, this`sensitive
      ensures Valid() && currentClip == old(currentClip) && sensitive == old(sensitive)
      ensures putBack == old(putBack)
                + if able && old(currentClip) != 0 && !old(sensitive) && offer == None
                     && serving != old(currentClip) && !occupied && exists_
                  then [old(currentClip)] else []
      ensures View() == Probed(old(View()).(keepalive := false), able, serving, occupied, exists_)
    {
      hide Kept, Accounted, DistinctSteps;
      keepaliveTimer := false;
      if !KeepaliveWanted(able) { return; }
      if serving == currentClip && serving != 0 { return; }
      // on_probe
      if occupied || !KeepaliveWanted(able) || !exists_ { return; }
      putBack := putBack + [currentClip];
      SetCurrentClip(currentClip);
    }

    method OnRecheck(able: bool, serving: int, occupied: bool, exists_: bool)
      requires Valid()
      modifies this`keepaliveTimer, this`recheckTimer, this`putBack, this`currentClip, this`sensitive
      ensures Valid() && currentClip == old(currentClip) && sensitive == old(sensitive)
      ensures sensitive ==> putBack == old(putBack)
      ensures forall c :: c in putBack ==> c in old(putBack) || c == currentClip != 0
      ensures View() == Probed(old(View()).(keepalive := false, recheck := false), able, serving, occupied, exists_)
    {
      hide Kept, Accounted, DistinctSteps;
      recheckTimer := false;
      OnKeepalive(able, serving, occupied, exists_);
    }

    method OwnerMayHaveLeft(able: bool)
      requires Valid()
      modifies this`keepaliveTimer, this`recheckTimer
      ensures Valid()
      ensures keepaliveTimer == (old(keepaliveTimer) || KeepaliveWanted(able))
      ensures recheckTimer == (old(recheckTimer) || KeepaliveWanted(able))
      ensures View() == OwnerGone(old(View()), able)
    {
      hide Kept, Accounted, DistinctSteps;
      if !KeepaliveWanted(able) { return; }
      keepaliveTimer, recheckTimer := true, true;
    }

    // ---- selections -------------------------------------------------------------

    /**
     * A new selection: `o` is the offer and the names it lists, None when the
     * clipboard was emptied. Takes ownership of the offer.
     */
    method OnSelection(o: Option<(int, seq<string>)>, able: bool, paused: bool, excluded: bool, keep: Read -> bool)
        returns (ghost built: Plan)
      requires Valid()
      modifies this
      ensures Valid() && (Idle() || Debouncing()) && putBack == old(putBack) && next == old(next)
      ensures handed == old(handed) + if o.Some? then multiset{o.value.0} else multiset{}
      ensures o.None? ==> Idle() && currentClip == old(currentClip) && sensitive == old(sensitive)
      ensures o.Some? && Marked(o.value.1) ==>
                Idle() && currentClip == old(currentClip) && sensitive == old(sensitive)
      ensures o.Some? && !Marked(o.value.1) ==>
                currentClip == 0 && sensitive == Hinted(o.value.1)
      ensures o.Some? ==> PlanFor(built, o.value.1) && PlanIsComplete(built, o.value.1)
      ensures o.Some? && Ordinary(o.value.1, paused, excluded) ==>
                plan.steps == Filtered(built.steps, keep)
      ensures Debouncing() <==> o.Some? && Ordinary(o.value.1, paused, excluded) && plan.steps != []
      ensures Debouncing() ==> offer == Some(o.value.0)
      ensures View() == Offered(old(View()), o, able, paused, excluded, keep)
    {
      hide PlanOf, Filtered, Taken, Chosen, Worth, OwnerGone, PlanInOrder, Capture.InStep, Capture.Reading, Ordinary, Kept, Accounted, DistinctSteps, PlanFor, PlanIsComplete, Marked, Hinted;
      keepaliveTimer := false;
      AbortCurrent();
      if o.None? {
        OwnerMayHaveLeft(able);
        built := plan;
        return;
      }
      TakenAnyway(old(View()).(keepalive := false), o.value.0, o.value.1, paused, excluded, keep);
      built := OnOffer(o.value.0, o.value.1, paused, excluded, keep);
    }

    method OnOffer(id: int, mimes: seq<string>, paused: bool, excluded: bool, keep: Read -> bool)
        returns (ghost built: Plan)
      requires Valid() && Idle()
      modifies this`plan, this`handed, this`destroyed, this`offer, this`debounceTimer, this`currentClip, this`sensitive
      ensures Valid() && (Idle() || Debouncing())
      ensures handed == old(handed) + multiset{id}
      ensures Marked(mimes) ==> Idle() && currentClip == old(currentClip) && sensitive == old(sensitive)
      ensures !Marked(mimes) ==> currentClip == 0 && sensitive == Hinted(mimes)
      ensures PlanFor(built, mimes) && PlanIsComplete(built, mimes)
      ensures Ordinary(mimes, paused, excluded) ==> plan.steps == Filtered(built.steps, keep)
      ensures Debouncing() <==> Ordinary(mimes, paused, excluded) && plan.steps != []
      ensures Debouncing() ==> offer == Some(id)
      ensures View() == Taken(old(View()), id, mimes, paused, excluded, keep)
    {
      hide PlanOf, Capture.InStep, Capture.Reading, Kept, Accounted, DistinctSteps, PlanFor, PlanIsComplete, PlanInOrder, Filtered, Marked, Hinted;
      plan := BuildPlan(mimes);
      built := plan;
      PlanForMeans(plan, mimes);
      if plan.ours {
        Refuse(id);
        return;
      }
      Replace(id, paused, excluded, keep);
    }

    /** Another application's offer: what was current no longer is. */
    method Replace(id: int, paused: bool, excluded: bool, keep: Read -> bool)
      requires Valid() && Idle()
      modifies this`plan, this`handed, this`destroyed, this`offer, this`debounceTimer, this`currentClip, this`sensitive
      ensures Valid() && (Idle() || Debouncing())
      ensures handed == old(handed) + multiset{id}
      ensures currentClip == 0 && sensitive == old(plan.sensitive)
      ensures !sensitive && !paused && !excluded ==> plan.steps == Filtered(old(plan.steps), keep)
      ensures Debouncing() <==> !sensitive && !paused && !excluded && plan.steps != []
      ensures Debouncing() ==> offer == Some(id)
      ensures View() == Chosen(old(View()), id, old(plan), paused, excluded, keep)
    {
      hide Capture.InStep, Capture.Reading, Kept, Accounted, DistinctSteps, Filtered;
      currentClip, sensitive := 0, plan.sensitive;
      if plan.sensitive {
        Refuse(id);
      } else {
        Consider(id, paused, excluded, keep);
      }
    }

    /** An ordinary offer: hold it until it has been read, unless there is nothing to read. */
    method Consider(id: int, paused: bool, excluded: bool, keep: Read -> bool)
      requires Valid() && Idle() && !sensitive
      modifies this`plan, this`handed, this`destroyed, this`offer, this`debounceTimer
      ensures Valid() && (Idle() || Debouncing())
      ensures handed == old(handed) + multiset{id}
      ensures !paused && !excluded ==> plan.steps == Filtered(old(plan.steps), keep)
      ensures Debouncing() <==> !paused && !excluded && plan.steps != []
      ensures unchanged(`currentClip, `sensitive, `got, `reading, `hook, `log)
      ensures Debouncing() ==> offer == Some(id)
      ensures !Debouncing() ==> unchanged(`offer, `debounceTimer)
      ensures Debouncing() ==> plan == old(plan).(steps := Filtered(old(plan).steps, keep))
    {
      hide Capture.InStep, Capture.Reading, Kept, Accounted, DistinctSteps, Filtered;
      if paused || excluded {
        Refuse(id);
        return;
      }
      var kept := FilterPlan(plan, keep);
      if kept.steps == [] {
        plan := kept;
        Refuse(id);
        return;
      }
      plan := kept;
      Await(id);
    }

    /** Hold an offer just handed in, until the selection has held still. */
    method Await(id: int)
      requires Accounted(handed, destroyed, offer) && offer == None
      modifies this`handed, this`offer, this`debounceTimer
      ensures Accounted(handed, destroyed, offer) && handed == old(handed) + multiset{id}
      ensures offer == Some(id) && debounceTimer
      ensures unchanged(`plan, `sensitive, `currentClip, `reading, `formatTimer, `got, `hook, `log)
    {
      hide Accounted;
      Hold(handed, destroyed, id);
      handed := handed + multiset{id};
      offer := Some(id);
      debounceTimer := true;
    }

    /** Release an offer just handed in. */
    method Refuse(id: int)
      requires Accounted(handed, destroyed, offer)
      modifies this`handed, this`destroyed
      ensures Accounted(handed, destroyed, offer) && handed == old(handed) + multiset{id}
      ensures unchanged(`plan, `offer, `sensitive, `currentClip, `debounceTimer, `reading, `formatTimer, `got, `hook, `log)
    {
      handed, destroyed := handed + multiset{id}, destroyed + multiset{id};
    }

    /** Shutdown: every offer ever handed in has been released exactly once. */
    method Free()
      requires Valid()
      modifies this
      ensures Idle() && handed == old(handed) && destroyed == handed && log == old(log)
      ensures !keepaliveTimer && !recheckTimer
    {
      AbortCurrent();
      keepaliveTimer, recheckTimer := false, false;
    }
  }

  lemma KeptNothing(plan: Plan)
    ensures Kept([], [], [], plan, 0)
  {
  }

  lemma Hold(handed: multiset<int>, destroyed: multiset<int>, id: int)
    requires Accounted(handed, destroyed, None)
    ensures Accounted(handed + multiset{id}, destroyed, Some(id))
  {
  }

  // ---- whole runs ------------------------------------------------------------------

  datatype Event =
    | Selection(o: Option<(int, seq<string>)>, able: bool, paused: bool, excluded: bool, keep: Read -> bool)
    | Debounced(env: Env)
    | Readable(chunks: seq<Chunk>, env: Env)
    | FormatTimeout(env: Env)
    | Keepalive(able: bool, serving: int, occupied: bool, found: bool)
    | Recheck(able: bool, serving: int, occupied: bool, found: bool)
    | OwnerLeft(able: bool)
    | Served(clip: int)
    | Expect

  /** An unhinted selection of another application, or a deliberate serve. */
  predicate Clears(e: Event) {
    match e
    case Selection(o, _, _, _, _) =>
      o.Some? && !Marked(o.value.1) && !Hinted(o.value.1)
    case Served(_) => true
    case _ => false
  }

  /** The offer an event hands in. */
  function OfferOf(e: Event): multiset<int> {
    if e.Selection? && e.o.Some? then multiset{e.o.value.0} else multiset{}
  }

  function Offers(es: seq<Event>): multiset<int> {
    if es == [] then multiset{} else Offers(es[..|es| - 1]) + OfferOf(es[|es| - 1])
  }

  lemma OffersNext(es: seq<Event>, i: nat)
    requires i < |es|
    ensures Offers(es[..i + 1]) == Offers(es[..i]) + OfferOf(es[i])
  {
    assert es[..i + 1][..i] == es[..i];
  }

  /** What an event makes of a capture; timers and pipes that are not there do not fire. */
  function After(f: Flight, e: Event): (g: Flight)
    requires InFlight(f)
    ensures InFlight(g)
  {
    hide Opened, Ended, Arrived, Offered;
    match e
    case Selection(o, able, paused, excluded, keep) => Offered(f, o, able, paused, excluded, keep)
    case Debounced(env) => if f.stage.Waiting? then Opened(f, 0, env) else f
    case Readable(chunks, env) => if f.stage.At? then Arrived(f, chunks, env) else f
    case FormatTimeout(env) => if f.stage.At? then Ended(f, None, env) else f
    case Keepalive(able, serving, occupied, found) =>
      if f.keepalive then Probed(f.(keepalive := false), able, serving, occupied, found) else f
    case Recheck(able, serving, occupied, found) =>
      if f.recheck then Probed(f.(keepalive := false, recheck := false), able, serving, occupied, found) else f
    case OwnerLeft(able) => OwnerGone(f, able)
    case Served(clip) => f.(current := clip, sensitive := false)
    case Expect => f.(hook := true)
  }

  /** Nothing is read of our own offers, of secrets, and of what the user excludes; a secret leaves no current clip. */
  lemma NothingIsRead(f: Flight, id: int, mimes: seq<string>, able: bool, paused: bool, excluded: bool, keep: Read -> bool)
    requires InFlight(f)
    requires MIME_MARKER in mimes || "x-kde-passwordManagerHint" in mimes || paused || excluded
    ensures var g := After(f, Selection(Some((id, mimes)), able, paused, excluded, keep));
            && g.stage == Resting && g.offer == None && g.log == f.log && g.putBack == f.putBack
            && (MIME_MARKER in mimes ==> g.current == f.current && g.sensitive == f.sensitive)
            && (MIME_MARKER !in mimes ==> g.current == 0 && g.sensitive == ("x-kde-passwordManagerHint" in mimes))
  {
    hide Filtered, Wants, BestName, MIME_MARKER;
  }

  /** A format that does not come in time is skipped, and the next one is read. */
  lemma TimeoutSkips(f: Flight, env: Env)
    requires InFlight(f) && f.stage.At?
    ensures var g := After(f, FormatTimeout(env));
            f.stage.next + 1 < |f.plan.steps| && !env.late && env.piped ==>
              g == f.(stage := At(f.stage.next + 1, [], env.cap))
  {
    hide Finished;
  }

  /** A deliberate serve makes its clip current and clears the mark; a copy that is waited for is remembered. */
  lemma ServeAndExpect(f: Flight, clip: int)
    requires InFlight(f)
    ensures var g := After(f, Served(clip)); g.current == clip && !g.sensitive && g == f.(current := clip, sensitive := false)
    ensures After(f, Expect) == f.(hook := true)
  {
  }

  /**
   * When the owner leaves an empty clipboard behind, the current clip is put back
   * soon after, or else, if something was there at first, a while later; but
   * nothing is put back if there is none, or a secret was the last.
   */
  lemma OwnerLeaves(f: Flight, serving: int, found: bool, paused: bool, excluded: bool, keep: Read -> bool)
    requires InFlight(f) && serving != f.current
    ensures var gone := Selection(None, true, paused, excluded, keep);
            var clips := if found && f.current != 0 && !f.sensitive then [f.current] else [];
            && Course(f, [gone, Keepalive(true, serving, false, found)]).putBack == f.putBack + clips
            && Course(f, [gone, Keepalive(true, serving, true, found), Recheck(true, serving, false, found)]).putBack
               == f.putBack + clips
  {
    hide Course, After;
    var gone := Selection(None, true, paused, excluded, keep);
    var (k, l, r) := (Keepalive(true, serving, false, found), Keepalive(true, serving, true, found), Recheck(true, serving, false, found));
    var f1 := After(f, gone);
    CourseTwo(f, gone, k);
    CourseTwo(f, gone, l);
    CourseBoth(f, [gone, l], [r]);
    assert [gone, l] + [r] == [gone, l, r];
    CourseOne(After(f1, l), r);
    GoneIs(f, paused, excluded, keep);
    LookedAt(f1, serving, found);
  }

  lemma CourseTwo(f: Flight, e: Event, e': Event)
    requires InFlight(f)
    ensures Course(f, [e, e']) == After(After(f, e), e')
  {
    hide Course, After;
    CourseBoth(f, [e], [e']);
    assert [e] + [e'] == [e, e'];
    CourseOne(f, e);
    CourseOne(After(f, e), e');
  }

  lemma GoneIs(f: Flight, paused: bool, excluded: bool, keep: Read -> bool)
    requires InFlight(f)
    ensures var g := After(f, Selection(None, true, paused, excluded, keep));
            var arms := f.current != 0 && !f.sensitive;
            && g.offer == None && g.current == f.current && g.sensitive == f.sensitive && g.putBack == f.putBack
            && g.keepalive == arms && g.recheck == (f.recheck || arms)
  {
  }

  lemma LookedAt(f: Flight, serving: int, found: bool)
    requires InFlight(f) && f.offer == None && serving != f.current
    ensures var arms := f.current != 0 && !f.sensitive;
            var clips := if found && arms then [f.current] else [];
            && (f.keepalive == arms ==> After(f, Keepalive(true, serving, false, found)).putBack == f.putBack + clips)
            && (f.recheck || !arms ==>
                  var g := After(f, Keepalive(true, serving, true, found));
                  After(g, Recheck(true, serving, false, found)).putBack == f.putBack + clips)
  {
  }

  /** A whole run. */
  function Course(f: Flight, es: seq<Event>): (g: Flight)
    requires InFlight(f)
    ensures InFlight(g)
  {
    if es == [] then f else After(Course(f, es[..|es| - 1]), es[|es| - 1])
  }

  lemma ValidIsInFlight(c: Capture)
    requires c.Valid()
    ensures InFlight(c.View())
  {
    hide Kept, Accounted, DistinctSteps;
  }

  method Dispatch(c: Capture, e: Event)
    requires c.Valid()
    modifies c
    ensures InFlight(old(c.View())) && c.View() == After(old(c.View()), e)
    ensures c.Valid() && c.handed == old(c.handed) + OfferOf(e)
    ensures old(c.sensitive) && !Clears(e) ==> c.sensitive && c.putBack == old(c.putBack)
  {
    hide Kept, Accounted, DistinctSteps, Receive, Offered, Opened, Arrived, Ended;
    match e {
      case Selection(o, able, paused, excluded, keep) => var _ := c.OnSelection(o, able, paused, excluded, keep);
      case Debounced(env) => if c.debounceTimer { var _ := c.OnDebounced(env); }
      case Readable(chunks, env) => if c.reading { var _ := c.OnReadable(chunks, env); }
      case FormatTimeout(env) => if c.formatTimer { var _ := c.OnFormatTimeout(env); }
      case Keepalive(able, serving, occupied, found) =>
        if c.keepaliveTimer { c.OnKeepalive(able, serving, occupied, found); }
      case Recheck(able, serving, occupied, found) =>
        if c.recheckTimer { c.OnRecheck(able, serving, occupied, found); }
      case OwnerLeft(able) => c.OwnerMayHaveLeft(able);
      case Served(clip) => c.SetCurrentClip(clip);
      case Expect => c.hook := true;
    }
  }

  /**
   * After a selection marked sensitive the current clip stays 0 and keep-alive
   * puts nothing back, whatever happens, until an event that clears the mark.
   * The offers handed in are those of the run's selections.
   */
  method Drive(c: Capture, es: seq<Event>)
    requires c.Valid()
    modifies c
    ensures InFlight(old(c.View())) && c.View() == Course(old(c.View()), es)
    ensures c.Valid() && c.handed == old(c.handed) + Offers(es)
    ensures old(c.sensitive) && (forall e :: e in es ==> !Clears(e)) ==>
              c.sensitive && c.CurrentClip() == 0 && c.currentClip == 0 && c.putBack == old(c.putBack)
  {
    hide Kept, Accounted, DistinctSteps, OfferOf, Capture.View, After, InFlight;
    ValidIsInFlight(c);
    for i := 0 to |es|
      invariant InFlight(old(c.View())) && c.View() == Course(old(c.View()), es[..i])
      invariant c.Valid() && c.handed == old(c.handed) + Offers(es[..i])
      invariant old(c.sensitive) && (forall e :: e in es[..i] ==> !Clears(e)) ==>
                  c.sensitive && c.putBack == old(c.putBack)
    {
      assert es[..i + 1] == es[..i] + [es[i]];
      OffersNext(es, i);
      Dispatch(c, es[i]);
    }
    assert es[..|es|] == es;
  }

  // ---- a copy that holds still ------------------------------------------------------------

  lemma {:induction false} CourseBoth(f: Flight, es: seq<Event>, more: seq<Event>)
    requires InFlight(f)
    ensures Course(f, es + more) == Course(Course(f, es), more)
  {
    hide After;
    if more == [] {
      assert es + more == es;
    } else {
      var n := |more| - 1;
      CourseBoth(f, es, more[..n]);
      assert (es + more)[..|es| + n] == es + more[..n];
    }
  }

  lemma CourseOne(f: Flight, e: Event)
    requires InFlight(f)
    ensures Course(f, [e]) == After(f, e)
  {
    hide After;
    assert [e][..0] == [];
  }

  /** How one format arrives: some bursts after which the pipe is dry, then one that ends it. */
  datatype Delivery = Delivery(bursts: seq<seq<Chunk>>, last: seq<Chunk>, env: Env)

  /** Up to where a burst is data. */
  function Extent(chunks: seq<Chunk>): (n: nat)
    ensures Runs(chunks, n)
  {
    if chunks != [] && (chunks[0].Data? || chunks[0].Interrupted?) then 1 + Extent(chunks[1..]) else 0
  }

  function DataOf(chunks: seq<Chunk>): bytes { AllData(chunks[..Extent(chunks)]) }

  predicate RunsDry(chunks: seq<Chunk>) { Extent(chunks) == |chunks| || chunks[Extent(chunks)] == WouldBlock }
  predicate RunsOut(chunks: seq<Chunk>) { Extent(chunks) < |chunks| && chunks[Extent(chunks)] == Eof }

  predicate Arrives(d: Delivery) { (forall b :: b in d.bursts ==> RunsDry(b)) && RunsOut(d.last) }

  function Joined(bursts: seq<seq<Chunk>>): bytes {
    if bursts == [] then [] else Joined(bursts[..|bursts| - 1]) + DataOf(bursts[|bursts| - 1])
  }

  function Whole(d: Delivery): bytes { Joined(d.bursts) + DataOf(d.last) }

  function Readables(bursts: seq<seq<Chunk>>, env: Env): seq<Event> {
    if bursts == [] then [] else Readables(bursts[..|bursts| - 1], env) + [Readable(bursts[|bursts| - 1], env)]
  }

  function EventsOf(d: Delivery): seq<Event> { Readables(d.bursts, d.env) + [Readable(d.last, d.env)] }

  lemma {:induction false} BurstsAreKept(f: Flight, bursts: seq<seq<Chunk>>, env: Env)
    requires InFlight(f) && f.stage.At? && |f.stage.cur + Joined(bursts)| <= f.stage.cap
    requires forall b :: b in bursts ==> RunsDry(b)
    ensures Course(f, Readables(bursts, env)) == f.(stage := f.stage.(cur := f.stage.cur + Joined(bursts)))
  {
    hide DataOf, RunsDry, After, Course, Joined, Readables;
    BurstsStep(f, bursts, env);
    if bursts != [] {
      var (n, b) := (|bursts| - 1, bursts[|bursts| - 1]);
      var es := Readables(bursts[..n], env);
      assert b in bursts && forall c :: c in bursts[..n] ==> c in bursts;
      BurstsAreKept(f, bursts[..n], env);
      CourseBoth(f, es, [Readable(b, env)]);
      CourseOne(Course(f, es), Readable(b, env));
      DryIsMore(f.(stage := f.stage.(cur := f.stage.cur + Joined(bursts[..n]))), b, env);
    }
  }

  lemma BurstsStep(f: Flight, bursts: seq<seq<Chunk>>, env: Env)
    requires InFlight(f) && f.stage.At?
    ensures bursts == [] ==>
              Course(f, Readables(bursts, env)) == f && f.stage.cur + Joined(bursts) == f.stage.cur
    ensures bursts != [] ==>
              var (init, b) := (bursts[..|bursts| - 1], bursts[|bursts| - 1]);
              && Readables(bursts, env) == Readables(init, env) + [Readable(b, env)]
              && f.stage.cur + Joined(bursts) == f.stage.cur + Joined(init) + DataOf(b)
  {
    hide After, DataOf;
  }

  lemma DryIsMore(f: Flight, b: seq<Chunk>, env: Env)
    requires InFlight(f) && f.stage.At? && RunsDry(b) && |f.stage.cur + DataOf(b)| <= f.stage.cap
    ensures After(f, Readable(b, env)) == f.(stage := f.stage.(cur := f.stage.cur + DataOf(b)))
  {
    hide DataOf, RunsDry, Receive;
    DryIsKept(f.stage.cur, f.stage.cap, b);
  }

  lemma DryIsKept(cur: bytes, cap: nat, chunks: seq<Chunk>)
    requires |cur + DataOf(chunks)| <= cap
    ensures RunsDry(chunks) ==> Receive(cur, cap, chunks) == More(cur + DataOf(chunks))
    ensures RunsOut(chunks) ==> Receive(cur, cap, chunks) == Complete(cur + DataOf(chunks))
  {
    hide Receive, AllData;
    ReceiveIs(cur, cap, chunks, Extent(chunks));
  }

  /** However its bytes are split, a format that arrives within its cap ends its step with all of them. */
  lemma DeliveryIsKept(f: Flight, d: Delivery)
    requires InFlight(f) && f.stage.At? && f.stage.cur == [] && Arrives(d) && |Whole(d)| <= f.stage.cap
    ensures Course(f, EventsOf(d)) == Ended(f, Some(Whole(d)), d.env)
  {
    hide DataOf, RunsDry, RunsOut, Receive, Joined, Ended;
    var es := Readables(d.bursts, d.env);
    assert [] + Joined(d.bursts) == Joined(d.bursts);
    BurstsAreKept(f, d.bursts, d.env);
    CourseBoth(f, es, [Readable(d.last, d.env)]);
    CourseOne(Course(f, es), Readable(d.last, d.env));
    DryIsKept(Joined(d.bursts), f.stage.cap, d.last);
    EndedElsewhere(f, f.stage.(cur := Joined(d.bursts)), Some(Whole(d)), d.env);
  }

  lemma EndedElsewhere(f: Flight, at: Stage, data: Option<bytes>, env: Env)
    requires InFlight(f) && InFlight(f.(stage := at)) && f.stage.At? && at.At? && at.next == f.stage.next
    ensures Ended(f, data, env) == Ended(f.(stage := at), data, env)
  {
    hide Opened;
  }

  /** The formats that these deliveries make of the steps. */
  function Gots(steps: seq<Read>, ds: seq<Delivery>): (g: seq<Got>)
    requires |ds| <= |steps|
    ensures |g| == |ds|
  {
    seq(|ds|, k requires 0 <= k < |ds| => Got(steps[k].canonical, steps[k].offered, Whole(ds[k])))
  }

  function AllEvents(ds: seq<Delivery>): seq<Event> {
    if ds == [] then [] else AllEvents(ds[..|ds| - 1]) + EventsOf(ds[|ds| - 1])
  }

  /** The pipe for the next step opens in time and allows for what will come. */
  predicate Opens(env: Env, d: Delivery) { !env.late && env.piped && |Whole(d)| <= env.cap }

  /** The answers under which step k is opened. */
  function Before(env: Env, ds: seq<Delivery>, k: nat): Env
    requires k <= |ds|
  {
    if k == 0 then env else ds[k - 1].env
  }

  lemma StepEnds(f: Flight, n: nat, cap: nat, got: seq<Got>, data: bytes, env: Env)
    requires n < |f.plan.steps|
    ensures var at := f.(stage := At(n, [], cap), got := got);
            var kept := f.(stage := Resting, got := got + [Got(f.plan.steps[n].canonical, f.plan.steps[n].offered, data)]);
            && InFlight(at)
            && (n + 1 < |f.plan.steps| && !env.late && env.piped ==>
                  Ended(at, Some(data), env) == kept.(stage := At(n + 1, [], env.cap)))
            && (n + 1 == |f.plan.steps| ==> Ended(at, Some(data), env) == Finished(kept, env.verdict))
  {
    hide Finished;
  }

  lemma {:induction false} DeliveriesAreKept(f: Flight, env: Env, ds: seq<Delivery>, n: nat)
    requires 0 < n <= |ds| == |f.plan.steps| && f.got == []
    requires forall k :: 0 <= k < |ds| ==> Arrives(ds[k]) && Opens(Before(env, ds, k), ds[k])
    ensures var g := Course(Opened(f, 0, env), AllEvents(ds[..n]));
            && (n < |ds| ==> g == f.(stage := At(n, [], Before(env, ds, n).cap), got := Gots(f.plan.steps, ds[..n])))
            && (n == |ds| ==> g == Finished(f.(stage := Resting, got := Gots(f.plan.steps, ds)), Before(env, ds, n).verdict))
    decreases n
  {
    hide *;
    var (k, d) := (n - 1, ds[n - 1]);
    var start := Opened(f, 0, env);
    NoneYet(start, f.plan.steps, ds);
    OpenedIs(f, 0, env);
    if k > 0 { DeliveriesAreKept(f, env, ds, k); }
    var g := Course(start, AllEvents(ds[..k]));
    OpensIs(env, ds, k);
    assert g == f.(stage := At(k, [], Before(env, ds, k).cap), got := Gots(f.plan.steps, ds[..k]));
    EventsMore(ds, n);
    CourseBoth(start, AllEvents(ds[..k]), EventsOf(d));
    DeliveryIsKept(g, d);
    GotsMore(f.plan.steps, ds, n);
    StepEnds(f, k, Before(env, ds, k).cap, Gots(f.plan.steps, ds[..k]), Whole(d), d.env);
    if n < |ds| { OpensIs(env, ds, n); }
  }

  lemma OpenedIs(f: Flight, next: nat, env: Env)
    ensures next < |f.plan.steps| && !env.late && env.piped ==> Opened(f, next, env) == f.(stage := At(next, [], env.cap))
  {
  }

  lemma OpensIs(env: Env, ds: seq<Delivery>, k: nat)
    requires k < |ds|
    ensures var e := Before(env, ds, k); Opens(e, ds[k]) ==> !e.late && e.piped && |Whole(ds[k])| <= e.cap
    ensures Before(env, ds, k + 1) == ds[k].env
    ensures k == 0 ==> Before(env, ds, k) == env
  {
    hide Whole;
  }

  lemma EventsMore(ds: seq<Delivery>, n: nat)
    requires 0 < n <= |ds|
    ensures AllEvents(ds[..n]) == AllEvents(ds[..n - 1]) + EventsOf(ds[n - 1])
  {
    hide EventsOf;
    assert ds[..n][..n - 1] == ds[..n - 1];
  }

  lemma NoneYet(f: Flight, steps: seq<Read>, ds: seq<Delivery>)
    requires InFlight(f) && |ds| <= |steps|
    ensures Course(f, AllEvents(ds[..0])) == f && Gots(steps, ds[..0]) == []
  {
  }

  lemma GotsMore(steps: seq<Read>, ds: seq<Delivery>, n: nat)
    requires 0 < n <= |ds| == |steps|
    ensures Gots(steps, ds[..n]) == Gots(steps, ds[..n - 1]) + [Got(steps[n - 1].canonical, steps[n - 1].offered, Whole(ds[n - 1]))]
    ensures n == |ds| ==> ds[..n] == ds
  {
    hide Whole;
  }

  /**
   * A selection that holds still and whose pipes deliver in time is handed over
   * once, every format whole and in the order of the plan, and its clip becomes
   * the current one.
   */
  lemma CopyIsStored(f: Flight, id: int, mimes: seq<string>, able: bool, keep: Read -> bool, env: Env, ds: seq<Delivery>)
    requires InFlight(f) && Ordinary(mimes, false, false)
    requires var steps := Filtered(PlanOf(mimes).steps, keep); 0 < |ds| == |steps|
    requires forall k :: 0 <= k < |ds| ==> Arrives(ds[k]) && Opens(Before(env, ds, k), ds[k])
    ensures var steps := Filtered(PlanOf(mimes).steps, keep);
            var v := ds[|ds| - 1].env.verdict;
            var g := Course(f, [Selection(Some((id, mimes)), able, false, false, keep), Debounced(env)] + AllEvents(ds));
            && g.offer == None && g.stage == Resting && !g.sensitive
            && if v.Stored? && exists k :: 0 <= k < |ds| && Whole(ds[k]) != [] then
                 && g.log == f.log + [if v.text.Some? then [Format(MIME_TEXT, v.text.value)] else Handed(Gots(steps, ds))]
                 && g.current == (if f.hook && v.hooked.Some? then v.hooked.value else if v.text.Some? then 0 else v.id)
                 && !g.hook
               else g.log == f.log && g.current == 0 && g.hook == f.hook
  {
    hide *;
    var (sel, go) := (Selection(Some((id, mimes)), able, false, false, keep), Debounced(env));
    var steps := Filtered(PlanOf(mimes).steps, keep);
    var f1 := ReadingBegins(f, id, mimes, able, keep, env);
    CourseBoth(f, [sel, go], AllEvents(ds));
    DeliveriesAreKept(f1, env, ds, |ds|);
    assert ds[..|ds|] == ds;
    LastIs(env, ds);
    FinishedIs(f1.(stage := Resting, got := Gots(steps, ds)), ds[|ds| - 1].env.verdict);
    GotsAre(steps, ds);
  }

  lemma LastIs(env: Env, ds: seq<Delivery>)
    requires ds != []
    ensures Before(env, ds, |ds|) == ds[|ds| - 1].env
  {
  }

  /** An ordinary selection that holds still is read from its first step on. */
  lemma ReadingBegins(f: Flight, id: int, mimes: seq<string>, able: bool, keep: Read -> bool, env: Env) returns (f1: Flight)
    requires InFlight(f) && Ordinary(mimes, false, false) && Filtered(PlanOf(mimes).steps, keep) != []
    ensures Course(f, [Selection(Some((id, mimes)), able, false, false, keep), Debounced(env)]) == Opened(f1, 0, env)
    ensures InFlight(f1) && f1.plan.steps == Filtered(PlanOf(mimes).steps, keep) && f1.got == []
    ensures f1.current == 0 && !f1.sensitive && f1.hook == f.hook && f1.log == f.log
  {
    hide PlanOf, Filtered, Course, Opened, Marked, Hinted;
    CourseTwo(f, Selection(Some((id, mimes)), able, false, false, keep), Debounced(env));
    PlanIs(mimes);
    f1 := Offered(f, Some((id, mimes)), able, false, false, keep);
  }

  lemma GotsAre(steps: seq<Read>, ds: seq<Delivery>)
    requires |ds| <= |steps|
    ensures (exists k :: 0 <= k < |ds| && Gots(steps, ds)[k].data != []) <==> exists k :: 0 <= k < |ds| && Whole(ds[k]) != []
  {
    hide Whole;
    if k :| 0 <= k < |ds| && Gots(steps, ds)[k].data != [] { assert Whole(ds[k]) != []; }
    if k :| 0 <= k < |ds| && Whole(ds[k]) != [] { assert Gots(steps, ds)[k].data != []; }
  }

  lemma AnyBytesIs(got: seq<Got>)
    ensures AnyBytes(Handed(got)) <==> exists k :: 0 <= k < |got| && got[k].data != []
  {
    hide Utf8.Well, Utf8.Widen;
    forall k | 0 <= k < |got| ensures Handed(got)[k].data == [] <==> got[k].data == [] { WidenEmpty(got[k].data); }
  }

  lemma PlanIs(mimes: seq<string>)
    ensures PlanOf(mimes).sensitive == Hinted(mimes)
  {
  }

  lemma FinishedIs(f: Flight, v: Verdict)
    ensures var g := Finished(f, v);
            && g.offer == None && g.stage == Resting && g.sensitive == f.sensitive
            && if v.Stored? && exists k :: 0 <= k < |f.got| && f.got[k].data != [] then
                 && g.log == f.log + [if v.text.Some? then [Format(MIME_TEXT, v.text.value)] else Handed(f.got)]
                 && g.current == (if f.hook && v.hooked.Some? then v.hooked.value else if v.text.Some? then 0 else v.id)
                 && !g.hook
               else g.log == f.log && g.current == f.current && g.hook == f.hook
  {
    hide AnyBytes, Handed;
    AnyBytesIs(f.got);
  }

  /** A daemon's life: every offer that the run's selections handed in is destroyed exactly once; what was stored is the run's. */
  method Live(es: seq<Event>) returns (c: Capture)
    ensures fresh(c) && c.Idle() && c.destroyed == Offers(es) && c.log == Course(FRESH, es).log
  {
    hide Kept, Accounted, DistinctSteps, Offers, OfferOf, Course;
    c := new Capture();
    Drive(c, es);
    c.Free();
  }
}
