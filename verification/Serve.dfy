/**
 * Serving the clipboard (daemon/src/serve.c): reference-counted payloads shared
 * by sources and by the transfers that may outlive them. The compositor, the
 * pipes and the timers are the environment: each method below is one event it
 * may deliver, in any order, with any outcome of the writes.
 */
module Serve {
  import opened Bytes
  import opened Mime

  const DEFAULT_ALIASES := [MIME_TEXT, "text/plain", "UTF8_STRING", "STRING", "TEXT"]
  const CHUNK: nat := 64 * 1024

  datatype Format = Format(mime: string, aliases: seq<string>, data: bytes)
  datatype Content = Content(uuid: bytes, fmts: seq<Format>)

  // ---- offered names ---------------------------------------------------------

  /** The names one format is offered under, in order; text also answers to its usual aliases. */
  function NamesOf(f: Format): seq<string> {
    if f.mime == MIME_TEXT then [MIME_TEXT] + f.aliases + DEFAULT_ALIASES else [f.mime]
  }

  /** Offering format k under one more name; a name already taken keeps its format. */
  function Offer(m: map<string, nat>, name: string, k: nat): map<string, nat> {
    if name in m then m else m[name := k]
  }

  function OfferAll(m: map<string, nat>, names: seq<string>, k: nat): map<string, nat> {
    if names == [] then m else Offer(OfferAll(m, names[..|names| - 1], k), names[|names| - 1], k)
  }

  /** Which format answers to each offered name. */
  function NameMap(fmts: seq<Format>): map<string, nat> {
    if fmts == [] then map[]
    else OfferAll(NameMap(fmts[..|fmts| - 1]), NamesOf(fmts[|fmts| - 1]), |fmts| - 1)
  }

  lemma {:induction false} OfferAllMeans(m: map<string, nat>, names: seq<string>, k: nat)
    ensures OfferAll(m, names, k).Keys == m.Keys + set n | n in names
    ensures forall n :: n in OfferAll(m, names, k) ==> OfferAll(m, names, k)[n] == if n in m then m[n] else k
  {
    if names != [] { OfferAllMeans(m, names[..|names| - 1], k); }
  }

  /** A name is offered when some format has it, and the first such format answers. */
  lemma {:induction false} FirstFormatAnswers(fmts: seq<Format>, name: string)
    ensures name in NameMap(fmts) <==> exists i :: 0 <= i < |fmts| && name in NamesOf(fmts[i])
    ensures name in NameMap(fmts) ==>
              var k := NameMap(fmts)[name];
              k < |fmts| && name in NamesOf(fmts[k]) && forall i :: 0 <= i < k ==> name !in NamesOf(fmts[i])
  {
    hide NamesOf;
    if fmts != [] {
      var n := |fmts| - 1;
      FirstFormatAnswers(fmts[..n], name);
      OfferAllMeans(NameMap(fmts[..n]), NamesOf(fmts[n]), n);
      if name in NameMap(fmts[..n]) {
        var i :| 0 <= i < |fmts[..n]| && name in NamesOf(fmts[..n][i]);
        assert name in NamesOf(fmts[i]);
      }
    }
  }

  /** What a reader asking for a name must be sent; None when it was never offered. */
  function Asked(cp: Content, mime: string): Option<bytes> {
    if mime == MIME_MARKER then Some(cp.uuid)
    else if mime in NameMap(cp.fmts) then
      FirstFormatAnswers(cp.fmts, mime); Some(cp.fmts[NameMap(cp.fmts)[mime]].data)
    else None
  }

  /** Whether a format answers to a name: its own, or for text one of its aliases or of the usual ones. */
  predicate AnswersTo(f: Format, name: string) {
    name == f.mime || (f.mime == MIME_TEXT && (name in f.aliases || name in DEFAULT_ALIASES))
  }

  predicate IsFirst(fmts: seq<Format>, name: string, k: nat) {
    k < |fmts| && AnswersTo(fmts[k], name) && forall i :: 0 <= i < k ==> !AnswersTo(fmts[i], name)
  }

  /** The marker is answered with the clip's uuid, any other name with the bytes of the first format that answers to it. */
  lemma AskedIs(cp: Content, name: string)
    ensures name == MIME_MARKER ==> Asked(cp, name) == Some(cp.uuid)
    ensures name != MIME_MARKER && (forall i :: 0 <= i < |cp.fmts| ==> !AnswersTo(cp.fmts[i], name)) ==> Asked(cp, name) == None
    ensures name != MIME_MARKER ==>
              forall k: nat :: IsFirst(cp.fmts, name, k) ==> Asked(cp, name) == Some(cp.fmts[k].data)
  {
    hide NameMap, MIME_MARKER, DEFAULT_ALIASES;
    FirstFormatAnswers(cp.fmts, name);
    forall i | 0 <= i < |cp.fmts| ensures name in NamesOf(cp.fmts[i]) <==> AnswersTo(cp.fmts[i], name) {
      NamesAre(cp.fmts[i], name);
    }
    if k: nat :| name != MIME_MARKER && IsFirst(cp.fmts, name, k) {
      assert NameMap(cp.fmts)[name] == k;
    }
  }

  lemma NamesAre(f: Format, name: string)
    ensures name in NamesOf(f) <==> AnswersTo(f, name)
  {
    hide MIME_TEXT, DEFAULT_ALIASES;
  }

  /** The two parallel arrays of a source hold exactly the map m, each name once. */
  ghost predicate TableFor(names: seq<string>, fmtOf: seq<nat>, m: map<string, nat>) {
    && |names| == |fmtOf|
    && (forall i, j :: 0 <= i < j < |names| ==> names[i] != names[j])
    && (forall i :: 0 <= i < |names| ==> names[i] in m && m[names[i]] == fmtOf[i])
    && (forall n :: n in m ==> n in names)
  }

  method AddName(names: seq<string>, fmtOf: seq<nat>, name: string, fmt: nat, ghost m: map<string, nat>)
      returns (names': seq<string>, fmtOf': seq<nat>)
    requires TableFor(names, fmtOf, m)
    ensures TableFor(names', fmtOf', Offer(m, name, fmt))
  {
    for i := 0 to |names|
      invariant forall k :: 0 <= k < i ==> names[k] != name
    {
      if names[i] == name { return names, fmtOf; }
    }
    names', fmtOf' := names + [name], fmtOf + [fmt];
    assert forall n :: n in names' <==> n in names || n == name;
  }

  method Lookup(names: seq<string>, fmtOf: seq<nat>, name: string, ghost m: map<string, nat>)
      returns (fmt: Option<nat>)
    requires TableFor(names, fmtOf, m)
    ensures fmt == if name in m then Some(m[name]) else None
  {
    for i := 0 to |names|
      invariant forall k :: 0 <= k < i ==> names[k] != name
    {
      if names[i] == name { return Some(fmtOf[i]); }
    }
    fmt := None;
  }

  lemma OfferNext(m: map<string, nat>, names: seq<string>, name: string, k: nat)
    ensures OfferAll(m, names + [name], k) == Offer(OfferAll(m, names, k), name, k)
  {
    assert (names + [name])[..|names|] == names;
  }

  lemma NameMapNext(fmts: seq<Format>, i: nat)
    requires i < |fmts|
    ensures NameMap(fmts[..i + 1]) == OfferAll(NameMap(fmts[..i]), NamesOf(fmts[i]), i)
  {
    assert fmts[..i + 1][..i] == fmts[..i];
  }

  /** The name table of a new source. */
  method NameTable(fmts: seq<Format>) returns (names: seq<string>, fmtOf: seq<nat>)
    ensures TableFor(names, fmtOf, NameMap(fmts))
  {
    hide NameMap, OfferAll, Offer, TableFor;
    names, fmtOf := [], [];
    Nothing(fmts);
    for i := 0 to |fmts|
      invariant TableFor(names, fmtOf, NameMap(fmts[..i]))
    {
      var f := fmts[i];
      ghost var m, done := NameMap(fmts[..i]), [];
      OfferNone(m, i);
      if f.mime == MIME_TEXT {
        OfferNext(m, done, MIME_TEXT, i);
        names, fmtOf := AddName(names, fmtOf, MIME_TEXT, i, OfferAll(m, done, i));
        done := done + [MIME_TEXT];
        for k := 0 to |f.aliases|
          invariant done == [MIME_TEXT] + f.aliases[..k] && TableFor(names, fmtOf, OfferAll(m, done, i))
        {
          OfferNext(m, done, f.aliases[k], i);
          names, fmtOf := AddName(names, fmtOf, f.aliases[k], i, OfferAll(m, done, i));
          done := done + [f.aliases[k]];
        }
        for k := 0 to |DEFAULT_ALIASES|
          invariant done == [MIME_TEXT] + f.aliases + DEFAULT_ALIASES[..k]
          invariant TableFor(names, fmtOf, OfferAll(m, done, i))
        {
          OfferNext(m, done, DEFAULT_ALIASES[k], i);
          names, fmtOf := AddName(names, fmtOf, DEFAULT_ALIASES[k], i, OfferAll(m, done, i));
          done := done + [DEFAULT_ALIASES[k]];
        }
      } else {
        OfferNext(m, done, f.mime, i);
        names, fmtOf := AddName(names, fmtOf, f.mime, i, OfferAll(m, done, i));
        done := done + [f.mime];
      }
      assert done == NamesOf(f);
      NameMapNext(fmts, i);
    }
    assert fmts[..|fmts|] == fmts;
  }

  lemma Nothing(fmts: seq<Format>)
    ensures TableFor([], [], NameMap(fmts[..0]))
  {
  }

  lemma OfferNone(m: map<string, nat>, k: nat)
    ensures OfferAll(m, [], k) == m
  {
  }

  // ---- transfers ---------------------------------------------------------------

  /** What one write(2) on a reader's pipe returns. */
  datatype WriteResult = Wrote(n: nat) | Interrupted | WouldBlock | Failed

  datatype Status = Waiting | Finished | Broken

  datatype Pumped = Pumped(wrote: nat, status: Status)

  /**
   * What a run of writes achieves with `left` bytes to go: how many get out, and
   * how it ends. A pipe that has no more answers would block.
   */
  function Pump(left: nat, io: seq<WriteResult>): (p: Pumped)
    ensures p.wrote <= left
    ensures p.status == Finished <==> p.wrote == left
  {
    if left == 0 then Pumped(0, Finished)
    else if io == [] then Pumped(0, Waiting)
    else match io[0]
      case Interrupted => Pump(left, io[1..])
      case WouldBlock => Pumped(0, Waiting)
      case Failed => Pumped(0, Broken)
      case Wrote(n) =>
        if n == 0 then Pumped(0, Broken)
        else var w := Min(n, Min(left, CHUNK)); var rest := Pump(left - w, io[1..]); rest.(wrote := w + rest.wrote)
  }

  /** The answers that say the reader is gone, or that nothing can be written any more. */
  predicate Bad(r: WriteResult) { r == Failed || r == Wrote(0) }

  /** One comes before the pipe is full. */
  ghost predicate Breaks(io: seq<WriteResult>) {
    exists k :: 0 <= k < |io| && Bad(io[k]) && forall j :: 0 <= j < k ==> io[j] != WouldBlock
  }

  /** What the writes of a run accept, none of them more than a chunk. */
  function Accepted(io: seq<WriteResult>): nat {
    if io == [] then 0
    else Accepted(io[..|io| - 1]) + if io[|io| - 1].Wrote? then Min(io[|io| - 1].n, CHUNK) else 0
  }

  lemma {:induction false} AcceptedHead(r: WriteResult, io: seq<WriteResult>)
    ensures Accepted([r] + io) == (if r.Wrote? then Min(r.n, CHUNK) else 0) + Accepted(io)
  {
    if io == [] {
      assert ([r] + io)[..0] == [] && ([r] + io)[0] == r;
    } else {
      var n := |io| - 1;
      AcceptedHead(r, io[..n]);
      assert ([r] + io)[..n + 1] == [r] + io[..n];
    }
  }

  lemma PumpStep(left: nat, io: seq<WriteResult>)
    requires left > 0 && io != [] && !Bad(io[0]) && io[0] != WouldBlock
    ensures var more := if io[0].Wrote? then Min(io[0].n, Min(left, CHUNK)) else 0;
            && more <= left && Accepted(io) == (if io[0].Wrote? then Min(io[0].n, CHUNK) else 0) + Accepted(io[1..])
            && Pump(left, io) == Pump(left - more, io[1..]).(wrote := more + Pump(left - more, io[1..]).wrote)
  {
    assert io == [io[0]] + io[1..];
    AcceptedHead(io[0], io[1..]);
  }

  /**
   * Only such an answer breaks a transfer off. As long as the pipe is not full
   * all that the writes accept counts, until the whole is out.
   */
  lemma {:induction false} PumpEnds(left: nat, io: seq<WriteResult>)
    ensures Pump(left, io).status == Broken ==> Breaks(io)
    ensures !Breaks(io) && WouldBlock !in io ==>
              Pump(left, io) == if Accepted(io) < left then Pumped(Accepted(io), Waiting) else Pumped(left, Finished)
  {
    if left > 0 && io != [] && io[0] != WouldBlock {
      if !Bad(io[0]) {
        PumpStep(left, io);
        PumpEnds(left - if io[0].Wrote? then Min(io[0].n, Min(left, CHUNK)) else 0, io[1..]);
        BreaksLater(io);
      } else {
        assert Breaks(io);
      }
    }
  }

  /**
   * A full pipe makes the transfer wait and a broken one ends it, with all that
   * was accepted before on its way.
   */
  lemma {:induction false} PumpStops(left: nat, io: seq<WriteResult>, k: nat)
    requires k < |io| && (forall j :: 0 <= j < k ==> !Bad(io[j]) && io[j] != WouldBlock) && Accepted(io[..k]) < left
    ensures io[k] == WouldBlock ==> Pump(left, io) == Pumped(Accepted(io[..k]), Waiting)
    ensures Bad(io[k]) ==> Pump(left, io) == Pumped(Accepted(io[..k]), Broken)
  {
    hide Pump, Accepted;
    if k > 0 {
      PumpStep(left, io);
      assert io[..k] == [io[0]] + io[1..][..k - 1];
      AcceptedHead(io[0], io[1..][..k - 1]);
      PumpStops(left - if io[0].Wrote? then Min(io[0].n, Min(left, CHUNK)) else 0, io[1..], k - 1);
    } else {
      PumpFirst(left, io);
    }
  }

  lemma PumpFirst(left: nat, io: seq<WriteResult>)
    requires left > 0 && io != []
    ensures Accepted(io[..0]) == 0
    ensures io[0] == WouldBlock ==> Pump(left, io) == Pumped(0, Waiting)
    ensures Bad(io[0]) ==> Pump(left, io) == Pumped(0, Broken)
  {
  }

  /** The writes of a run take this much. */
  ghost predicate Takes(io: seq<WriteResult>, n: nat) { !Breaks(io) && WouldBlock !in io && Accepted(io) >= n }

  lemma TakesAll(left: nat, io: seq<WriteResult>)
    requires left > 0
    ensures Takes(io, left) ==> Pump(left, io) == Pumped(left, Finished)
  {
    hide Pump, Breaks, Accepted;
    PumpEnds(left, io);
  }

  lemma BreaksLater(io: seq<WriteResult>)
    requires io != [] && !Bad(io[0]) && io[0] != WouldBlock
    ensures Breaks(io) <==> Breaks(io[1..])
  {
    var rest := io[1..];
    if k :| 0 <= k < |io| && Bad(io[k]) && forall j :: 0 <= j < k ==> io[j] != WouldBlock {
      assert rest[k - 1] == io[k];
    }
    if k :| 0 <= k < |rest| && Bad(rest[k]) && forall j :: 0 <= j < k ==> rest[j] != WouldBlock {
      assert io[k + 1] == rest[k];
      forall j | 0 <= j < k + 1 ensures io[j] != WouldBlock { if j > 0 { assert io[j] == rest[j - 1]; } }
    }
  }

  class Payload {
    var refs: int
    const cp: Content
    ghost var frees: nat // how often the bytes were released

    constructor (cp: Content)
      ensures this.cp == cp && refs == 1 && frees == 0
    {
      this.cp := cp;
      refs, frees := 1, 0;
    }

    method Ref()
      modifies this
      ensures refs == old(refs) + 1 && frees == old(frees)
    {
      refs := refs + 1;
    }

    method Unref()
      modifies this
      ensures refs == old(refs) - 1
      ensures frees == if refs > 0 then old(frees) else old(frees) + 1
    {
      refs := refs - 1;
      if refs > 0 { return; }
      frees := frees + 1;
    }
  }

  /** An ended transfer: whose bytes, the name that was asked for, and what the reader got before its pipe closed. */
  datatype Transfer = Transfer(fd: int, pl: Payload, mime: string, sent: bytes)

  /** The reader got a prefix of the bytes that the name it asked for stands for. */
  ghost predicate Honest(t: Transfer) {
    Asked(t.pl.cp, t.mime).Some? && t.sent <= Asked(t.pl.cp, t.mime).value
  }

  class Source {
    const pl: Payload
    const names: seq<string>
    const fmtOf: seq<nat>
    const clipId: int
    var wantsRead: bool // a first-read callback is waiting

    constructor (pl: Payload, names: seq<string>, fmtOf: seq<nat>, clipId: int)
      ensures this.pl == pl && this.names == names && this.fmtOf == fmtOf && this.clipId == clipId && !wantsRead
    {
      this.pl, this.names, this.fmtOf, this.clipId := pl, names, fmtOf, clipId;
      wantsRead := false;
    }
  }

  class Writer {
    const pl: Payload
    const wanted: bytes // the whole of what the reader asked for
    const fd: int
    var p: nat          // next byte to write
    var left: nat
    var watched: bool
    var timed: bool
    ghost const mime: string // the name it asked for
    ghost var sent: bytes

    constructor (pl: Payload, wanted: bytes, fd: int, ghost mime: string)
      ensures this.pl == pl && this.wanted == wanted && this.fd == fd && this.mime == mime
      ensures p == 0 && left == |wanted| && sent == [] && !watched && !timed
    {
      this.pl, this.wanted, this.fd, this.mime := pl, wanted, fd, mime;
      p, left, watched, timed := 0, |wanted|, false, false;
      sent := [];
    }

    /** Sent plus left is exactly what was asked for. */
    ghost predicate Valid()
      reads this
    {
      p + left == |wanted| && sent == wanted[..p]
    }

    /** How the transfer goes down in the log when it ends now. */
    ghost function Record(): Transfer
      reads this
    {
      Transfer(fd, pl, mime, sent)
    }

    /** The write loop: until the pipe is full, nothing is left, or the reader is gone. */
    method WriteSome(io: seq<WriteResult>) returns (status: Status)
      requires Valid()
      modifies this`p, this`left, this`sent
      ensures Valid() && p == old(p) + Pump(old(left), io).wrote
      ensures status == Pump(old(left), io).status
    {
      var k := 0;
      assert io[0..] == io;
      while left > 0
        invariant k <= |io| && Valid() && p >= old(p)
        invariant Pump(old(left), io).status == Pump(left, io[k..]).status
        invariant old(p) + Pump(old(left), io).wrote == p + Pump(left, io[k..]).wrote
        decreases |io| - k
      {
        if k == |io| { return Waiting; }
        assert io[k..][1..] == io[k + 1..];
        match io[k] {
          case Interrupted =>
            k := k + 1;
          case WouldBlock =>
            return Waiting;
          case Failed =>
            return Broken;
          case Wrote(n) =>
            if n == 0 { return Broken; }
            var r := Min(n, Min(left, CHUNK));
            sent := sent + wanted[p..p + r];
            p := p + r;
            left := left - r;
            k := k + 1;
        }
      }
      status := Finished;
    }
  }

  /** w is a transfer of what `mime` stands for in `pl`, with `sent` already out. */
  ghost predicate Waits(w: Writer, pl: Payload, mime: string, fd: int, sent: bytes)
    reads w
  {
    w.pl == pl && w.mime == mime && w.fd == fd && w.sent == sent
  }

  /** w is a transfer of all this, a prefix of it already out. */
  ghost predicate Sends(w: Writer, whole: Transfer)
    reads w
  {
    w.fd == whole.fd && w.pl == whole.pl && w.mime == whole.mime && w.wanted == whole.sent && w.sent <= whole.sent
  }

  /** How many of the sources hold p. */
  ghost function SourceRefs(ss: seq<Source>, p: Payload): nat {
    if ss == [] then 0 else SourceRefs(ss[1..], p) + if ss[0].pl == p then 1 else 0
  }

  /** How many of the transfers hold p. */
  ghost function WriterRefs(ws: seq<Writer>, p: Payload): nat {
    if ws == [] then 0 else WriterRefs(ws[1..], p) + if ws[0].pl == p then 1 else 0
  }

  ghost function Fds(ws: seq<Writer>): multiset<int> {
    if ws == [] then multiset{} else Fds(ws[1..]) + multiset{ws[0].fd}
  }

  ghost predicate Distinct<T>(s: seq<T>) {
    forall i, j :: 0 <= i < j < |s| ==> s[i] != s[j]
  }

  function Without<T>(s: seq<T>, i: nat): (r: seq<T>)
    requires i < |s|
    ensures |r| == |s| - 1
  {
    s[..i] + s[i + 1..]
  }

  lemma WithoutFirst<T>(s: seq<T>, i: nat)
    requires i < |s|
    ensures i == 0 ==> Without(s, i) == s[1..]
    ensures i > 0 ==> Without(s, i) != [] && Without(s, i)[0] == s[0] && Without(s, i)[1..] == Without(s[1..], i - 1)
  {
  }

  lemma WithoutMembers<T>(s: seq<T>, i: nat)
    requires i < |s| && Distinct(s)
    ensures Distinct(Without(s, i)) && forall x :: x in Without(s, i) <==> x in s && x != s[i]
  {
    forall x | x in s && x != s[i] ensures x in Without(s, i) {
      var k :| 0 <= k < |s| && s[k] == x;
      assert Without(s, i)[if k < i then k else k - 1] == x;
    }
  }

  lemma {:induction false} LoseWriter(ws: seq<Writer>, i: nat)
    requires i < |ws|
    ensures forall p :: WriterRefs(Without(ws, i), p) + (if p == ws[i].pl then 1 else 0) == WriterRefs(ws, p)
  {
    WithoutFirst(ws, i);
    hide Without;
    if i > 0 { LoseWriter(ws[1..], i - 1); }
  }

  lemma {:induction false} LoseFd(ws: seq<Writer>, i: nat)
    requires i < |ws|
    ensures Fds(Without(ws, i)) + multiset{ws[i].fd} == Fds(ws)
  {
    WithoutFirst(ws, i);
    hide Without;
    if i > 0 { LoseFd(ws[1..], i - 1); }
  }

  lemma {:induction false} LoseSource(ss: seq<Source>, i: nat)
    requires i < |ss|
    ensures forall p :: SourceRefs(Without(ss, i), p) + (if p == ss[i].pl then 1 else 0) == SourceRefs(ss, p)
  {
    WithoutFirst(ss, i);
    hide Without;
    if i > 0 { LoseSource(ss[1..], i - 1); }
  }

  lemma GainWriter(ws: seq<Writer>, w: Writer)
    ensures forall p :: WriterRefs([w] + ws, p) == WriterRefs(ws, p) + if p == w.pl then 1 else 0
    ensures Fds([w] + ws) == Fds(ws) + multiset{w.fd}
    ensures Distinct(ws) && w !in ws ==> Distinct([w] + ws)
    ensures forall x :: x in [w] + ws <==> x == w || x in ws
  {
    assert ([w] + ws)[1..] == ws;
  }

  lemma GainSource(ss: seq<Source>, s: Source)
    ensures forall p :: SourceRefs([s] + ss, p) == SourceRefs(ss, p) + if p == s.pl then 1 else 0
    ensures Distinct(ss) && s !in ss ==> Distinct([s] + ss)
    ensures forall x :: x in [s] + ss <==> x == s || x in ss
  {
    assert ([s] + ss)[1..] == ss;
  }

  lemma {:induction false} HoldersCount(ss: seq<Source>, ws: seq<Writer>)
    ensures forall s :: s in ss ==> SourceRefs(ss, s.pl) > 0
    ensures forall w :: w in ws ==> WriterRefs(ws, w.pl) > 0
  {
    if ss != [] { HoldersCount(ss[1..], ws); }
    else if ws != [] { HoldersCount(ss, ws[1..]); }
  }

  // ---- the serving state ---------------------------------------------------------

  class Serve {
    var current: Source?
    var writers: seq<Writer>
    var sources: seq<Source>        // created and not yet cancelled: the compositor's handles
    ghost var born: set<Payload>    // every payload that was ever loaded for the clipboard
    ghost var handed: multiset<int> // pipe ends received with send requests
    ghost var closed: multiset<int> // pipe ends closed
    ghost var log: seq<Transfer>

    /** A payload's count is the number of its live holders, and it is freed once, when there are none. */
    ghost predicate Counted(p: Payload)
      reads this`sources, this`writers, p
    {
      && p.refs == SourceRefs(sources, p) + WriterRefs(writers, p)
      && p.frees == if p.refs == 0 then 1 else 0
    }

    ghost predicate Balanced()
      reads this`sources, this`writers, this`born, born
    {
      forall p :: p in born ==> Counted(p)
    }

    ghost predicate Sourced()
      reads this`sources, this`born, this`current
    {
      && Distinct(sources)
      && (forall s :: s in sources ==> s.pl in born && TableFor(s.names, s.fmtOf, NameMap(s.pl.cp.fmts)))
      && (current != null ==> current in sources)
    }

    /** Every transfer listed sends the bytes that the name its reader asked for stands for. */
    ghost predicate Listed()
      reads this`writers, this`born, writers
    {
      && Distinct(writers)
      && (forall w :: w in writers ==> w.pl in born && w.Valid() && Asked(w.pl.cp, w.mime) == Some(w.wanted))
    }

    ghost predicate Logged()
      reads this`log, this`born
    {
      forall t :: t in log ==> t.pl in born && Honest(t)
    }

    ghost predicate Valid()
      reads this, born, writers
    {
      Balanced() && Sourced() && Listed() && Logged() && handed == closed + Fds(writers)
    }

    /** Between events every transfer left is waiting on its pipe and on its timer. */
    ghost predicate Settled()
      reads this, writers
    {
      forall w :: w in writers ==> w.left > 0 && w.timed
    }

    constructor ()
      ensures Valid() && Settled() && current == null && sources == [] && writers == []
      ensures born == {} && handed == multiset{} && log == []
    {
      current, writers := null, [];
      sources, born, handed, closed, log := [], {}, multiset{}, multiset{}, [];
    }

    /** Walk the list to a transfer on it. */
    method Find(w: Writer) returns (i: nat)
      requires w in writers
      ensures i < |writers| && writers[i] == w
    {
      i := 0;
      while writers[i] != w
        invariant i < |writers| && forall k :: 0 <= k < i ==> writers[k] != w
        decreases |writers| - i
      {
        i := i + 1;
      }
    }

    /** Take a transfer off the list, close its pipe and let go of its payload. */
    method WriterFree(w: Writer)
      requires Valid() && w in writers
      modifies this, w.pl
      ensures Valid() && sources == old(sources) && current == old(current)
      ensures born == old(born) && handed == old(handed)
      ensures |writers| == |old(writers)| - 1
      ensures Distinct(writers) && forall x :: x in writers <==> x in old(writers) && x != w
      ensures closed == old(closed) + multiset{w.fd}
      ensures log == old(log) + [w.Record()]
    {
      hide WriterRefs, SourceRefs, Fds, Without, TableFor, NameMap, Distinct;
      var i := Find(w);
      LoseWriter(writers, i);
      LoseFd(writers, i);
      WithoutMembers(writers, i);
      HoldersCount(sources, writers);
      writers := Without(writers, i);
      closed := closed + multiset{w.fd};
      log := log + [w.Record()];
      w.pl.Unref();
    }

    /**
     * Write until the pipe is full, the transfer ends, or the reader is gone;
     * in the last two cases it is freed. True when it was.
     */
    method WriterPump(w: Writer, io: seq<WriteResult>) returns (gone: bool)
      requires Valid() && w in writers
      modifies this, w, w.pl
      ensures Valid() && sources == old(sources) && current == old(current)
      ensures born == old(born) && handed == old(handed)
      ensures gone == !Pump(old(w.left), io).status.Waiting?
      ensures gone && !Breaks(io) ==> w.sent == w.wanted
      ensures w.sent == w.wanted[..old(w.p) + Pump(old(w.left), io).wrote]
      ensures !gone ==> writers == old(writers) && closed == old(closed) && log == old(log) && w.left > 0
      ensures gone ==> Distinct(writers) && forall x :: x in writers <==> x in old(writers) && x != w
      ensures gone ==> closed == old(closed) + multiset{w.fd}
      ensures gone ==> log == old(log) + [w.Record()]
      ensures w.watched == old(w.watched) && w.timed == old(w.timed)
    {
      hide WriterRefs, SourceRefs, Fds, TableFor, NameMap, Distinct, Pump, Breaks;
      PumpEnds(w.left, io);
      var status := w.WriteSome(io);
      if status == Waiting { return false; }
      WriterFree(w);
      gone := true;
    }

    method OnWritable(w: Writer, hangup: bool, io: seq<WriteResult>)
      requires Valid() && Settled() && w in writers && w.watched
      modifies this, w, w.pl
      ensures Valid() && Settled() && sources == old(sources) && current == old(current)
      ensures born == old(born) && handed == old(handed)
      ensures hangup ==> w !in writers && log == old(log) + [old(w.Record())]
      ensures !hangup ==>
                && w.sent == w.wanted[..old(w.p) + Pump(old(w.left), io).wrote]
                && (w in writers <==> Pump(old(w.left), io).status == Waiting)
                && log == old(log) + if w in writers then [] else [w.Record()]
      // a reader that is still there loses nothing
      ensures !hangup && !Breaks(io) ==> w in writers || w.sent == w.wanted
      ensures !hangup && Takes(io, old(w.left)) ==> w !in writers && w.sent == w.wanted
      ensures forall x :: x != w ==> (x in writers <==> x in old(writers))
    {
      hide WriterRefs, SourceRefs, Fds, TableFor, NameMap, Distinct, Pump, Asked, Takes;
      if hangup {
        WriterFree(w);
        return;
      }
      TakesAll(w.left, io);
      var gone := WriterPump(w, io);
    }

    method OnWriterTimeout(w: Writer)
      requires Valid() && Settled() && w in writers
      modifies this, w, w.pl
      ensures Valid() && Settled() && sources == old(sources) && current == old(current)
      ensures born == old(born) && handed == old(handed)
      ensures log == old(log) + [w.Record()]
      ensures forall x :: x in writers <==> x in old(writers) && x != w
    {
      hide WriterRefs, SourceRefs, Fds, TableFor, NameMap, Distinct, Asked;
      w.timed := false;
      WriterFree(w);
    }

    /** Put a new transfer, holding a reference of its own, at the head of the list. */
    method Enlist(pl: Payload, wanted: bytes, fd: int, ghost mime: string) returns (w: Writer)
      requires Valid() && pl in born && pl.refs > 0 && Asked(pl.cp, mime) == Some(wanted)
      modifies this`writers, this`handed, pl
      ensures Valid() && writers == [w] + old(writers) && w !in old(writers)
      ensures fresh(w) && w.pl == pl && w.wanted == wanted && w.fd == fd && w.mime == mime
      ensures w.p == 0 && w.left == |wanted|
      ensures handed == old(handed) + multiset{fd}
    {
      hide WriterRefs, SourceRefs, Fds, TableFor, NameMap, Distinct, Asked, Honest;
      w := new Writer(pl, wanted, fd, mime);
      pl.Ref();
      GainWriter(writers, w);
      handed := handed + multiset{fd};
      writers := [w] + writers;
      assert forall p :: p in born && p != pl ==> p.refs == old(p.refs) && p.frees == old(p.frees);
      assert Listed();
    }

    /** Wait for the pipe to drain, and not forever. */
    method Register(w: Writer, watched: bool)
      requires Valid() && w in writers && w.left > 0
      requires forall x :: x in writers && x != w ==> x.left > 0 && x.timed
      modifies w`watched, w`timed
      ensures Valid() && Settled() && w.watched == watched
    {
      hide WriterRefs, SourceRefs, Fds, TableFor, NameMap, Distinct, Asked, Honest;
      w.watched := watched;
      w.timed := true;
    }

    /** Begin a transfer; a small one finishes right here. `watched`: epoll took the pipe. */
    method StartWriter(pl: Payload, wanted: bytes, fd: int, ghost mime: string, io: seq<WriteResult>, watched: bool)
      requires Valid() && Settled() && pl in born && pl.refs > 0 && Asked(pl.cp, mime) == Some(wanted)
      modifies this, pl
      ensures Valid() && Settled() && sources == old(sources) && current == old(current) && born == old(born)
      ensures handed == old(handed) + multiset{fd}
      ensures Pump(|wanted|, io).status == Waiting ==>
                && log == old(log) && |writers| > 0 && writers[1..] == old(writers)
                && Waits(writers[0], pl, mime, fd, wanted[..Pump(|wanted|, io).wrote]) && fresh(writers[0])
      ensures Pump(|wanted|, io).status != Waiting ==>
                && (forall w :: w in writers <==> w in old(writers))
                && log == old(log) + [Transfer(fd, pl, mime, wanted[..Pump(|wanted|, io).wrote])]
      ensures !Breaks(io) ==> Served(old(writers), old(log), Transfer(fd, pl, mime, wanted))
    {
      hide Serve.Valid, Serve.Counted, Breaks, WriterRefs, SourceRefs, Fds, TableFor, NameMap, Distinct, Pump, Asked, Honest;
      var w := Enlist(pl, wanted, fd, mime);
      var gone := WriterPump(w, io);
      if !gone { Register(w, watched); }
    }

    /** The transfer that sends all of `whole` is on the list, and new there, or has ended with all of it sent. */
    ghost predicate Served(ws: seq<Writer>, was: seq<Transfer>, whole: Transfer)
      reads this`writers, this`log, writers
    {
      || log == was + [whole]
      || (log == was && exists w :: w in writers && w !in ws && Sends(w, whole))
    }

    /** A reader asks a source for one type. True: the first-read callback runs. */
    method OnSend(src: Source, mime: string, fd: int, io: seq<WriteResult>, watched: bool) returns (firstRead: bool)
      requires Valid() && Settled() && src in sources
      modifies this, src, src.pl
      ensures Valid() && Settled() && sources == old(sources) && current == old(current) && born == old(born)
      ensures handed == old(handed) + multiset{fd}
      ensures firstRead <==> mime != MIME_MARKER && mime in NameMap(src.pl.cp.fmts) && old(src.wantsRead)
      ensures src.wantsRead == (old(src.wantsRead) && !firstRead)
      ensures match Asked(src.pl.cp, mime)
              case None => log == old(log) && closed == old(closed) + multiset{fd} && writers == old(writers)
              case Some(wanted) =>
                if Pump(|wanted|, io).status == Waiting then
                  && log == old(log) && |writers| > 0 && writers[1..] == old(writers)
                  && Waits(writers[0], src.pl, mime, fd, wanted[..Pump(|wanted|, io).wrote]) && fresh(writers[0])
                else
                  && (forall w :: w in writers <==> w in old(writers))
                  && log == old(log) + [Transfer(fd, src.pl, mime, wanted[..Pump(|wanted|, io).wrote])]
      ensures Asked(src.pl.cp, mime).Some? && !Breaks(io) ==>
                Served(old(writers), old(log), Transfer(fd, src.pl, mime, Asked(src.pl.cp, mime).value))
    {
      hide Serve.Valid, Serve.Counted, Breaks, WriterRefs, SourceRefs, Fds, TableFor, NameMap, Pump, Distinct, Honest;
      SourceHolds(src);
      if mime == MIME_MARKER {
        StartWriter(src.pl, src.pl.cp.uuid, fd, mime, io, watched);
        return false;
      }
      var found := Lookup(src.names, src.fmtOf, mime, NameMap(src.pl.cp.fmts));
      if found.Some? {
        FirstFormatAnswers(src.pl.cp.fmts, mime);
        StartWriter(src.pl, src.pl.cp.fmts[found.value].data, fd, mime, io, watched);
        firstRead := src.wantsRead;
        src.wantsRead := false;
        return;
      }
      Hang(fd);
      firstRead := false;
    }

    /** A type never offered: the reader sees the end of the file at once. */
    method Hang(fd: int)
      requires Valid()
      modifies this`handed, this`closed
      ensures Valid() && handed == old(handed) + multiset{fd} && closed == old(closed) + multiset{fd}
    {
      hide WriterRefs, SourceRefs, Fds, TableFor, NameMap, Distinct, Asked, Honest;
      handed, closed := handed + multiset{fd}, closed + multiset{fd};
    }

    /** A live source holds a reference, and its names are in its table. */
    lemma SourceHolds(src: Source)
      requires Valid() && src in sources
      ensures src.pl in born && src.pl.refs > 0 && TableFor(src.names, src.fmtOf, NameMap(src.pl.cp.fmts))
    {
      hide TableFor, NameMap;
      HoldersCount(sources, writers);
      assert Counted(src.pl);
    }

    method SourceFree(src: Source) returns (i: nat)
      requires Valid() && src in sources
      modifies this, src.pl
      ensures Valid() && writers == old(writers) && log == old(log) && closed == old(closed)
      ensures born == old(born) && handed == old(handed) && |sources| == |old(sources)| - 1
      ensures i < |old(sources)| && old(sources)[i] == src && sources == Without(old(sources), i)
      ensures Distinct(sources) && forall s :: s in sources <==> s in old(sources) && s != src
      ensures current == if old(current) == src then null else old(current)
    {
      hide WriterRefs, SourceRefs, Fds, TableFor, NameMap, Distinct, Without, Asked, Honest;
      i :| 0 <= i < |sources| && sources[i] == src;
      LoseSource(sources, i);
      WithoutMembers(sources, i);
      HoldersCount(sources, writers);
      if current == src { current := null; }
      sources := Without(sources, i);
      src.pl.Unref();
    }

    /** The compositor tells a source it is no longer the selection. */
    method OnCancelled(src: Source) returns (i: nat)
      requires Valid() && Settled() && src in sources
      modifies this, src.pl
      ensures Valid() && Settled() && writers == old(writers) && log == old(log)
      ensures born == old(born) && handed == old(handed) && closed == old(closed) && |sources| == |old(sources)| - 1
      ensures i < |old(sources)| && old(sources)[i] == src && sources == Without(old(sources), i)
      ensures forall s :: s in sources <==> s in old(sources) && s != src
      ensures current == if old(current) == src then null else old(current)
    {
      hide WriterRefs, SourceRefs, Fds, TableFor, NameMap, Distinct, Asked, Honest;
      i := SourceFree(src);
    }

    method Adopt(pl: Payload, src: Source)
      requires Valid() && pl !in born && src !in sources && pl.refs == 1 && pl.frees == 0
      requires src.pl == pl && TableFor(src.names, src.fmtOf, NameMap(pl.cp.fmts))
      modifies this`sources, this`born, this`current
      ensures Valid() && sources == [src] + old(sources) && born == old(born) + {pl} && current == src
    {
      hide WriterRefs, SourceRefs, Fds, TableFor, NameMap, Distinct, Asked, Honest;
      StrangersHoldNothing(sources, writers, pl);
      GainSource(sources, src);
      sources := [src] + sources;
      born := born + {pl};
      current := src;
    }

    /** A payload that never got onto the clipboard is freed at once. */
    method Discard(pl: Payload)
      requires Valid() && pl !in born && pl.refs == 1 && pl.frees == 0
      modifies this`born, pl
      ensures Valid() && born == old(born) + {pl} && pl.frees == 1
    {
      hide WriterRefs, SourceRefs, Fds, NameMap, Distinct, TableFor, Asked, Honest;
      StrangersHoldNothing(sources, writers, pl);
      pl.Unref();
      born := born + {pl};
    }

    /**
     * Put content on the clipboard. The source it replaces stays until the
     * compositor cancels it, and transfers already running are left alone.
     * None: the clip could not be loaded.
     */
    method Own(loaded: Option<Content>, clipId: int, connected: bool) returns (ok: bool, ghost made: set<Payload>)
      requires Valid() && Settled()
      modifies this`sources, this`born, this`current
      ensures Valid() && Settled() && ok == (loaded.Some? && connected)
      ensures born == old(born) + made && fresh(made) && |born| == |old(born)| + if loaded.Some? then 1 else 0
      ensures forall p :: p in made ==> loaded == Some(p.cp)
      ensures !ok ==> current == old(current) && sources == old(sources) && forall p :: p in made ==> p.frees == 1
      ensures ok ==> current != null && fresh(current) && sources == [current] + old(sources)
                     && current.clipId == clipId && current.pl in made && !current.wantsRead
    {
      hide Serve.Valid, Serve.Counted, WriterRefs, SourceRefs, Fds, NameMap, Distinct, TableFor, Asked, Honest;
      if loaded.None? { return false, {}; }
      var pl := new Payload(loaded.value);
      made := {pl};
      if !connected {
        Discard(pl);
        return false, made;
      }
      var names, fmtOf := NameTable(pl.cp.fmts);
      var src := new Source(pl, names, fmtOf, clipId);
      Adopt(pl, src);
      ok := true;
    }

    lemma CurrentIsLive()
      requires Valid()
      ensures current != null ==> current in sources
    {
    }

    /** Ask for one callback at the current source's first real read. */
    method OnFirstRead()
      requires Valid() && Settled()
      modifies if current == null then {} else {current}
      ensures Valid() && Settled()
      ensures current != null ==> current.wantsRead
    {
      hide WriterRefs, SourceRefs, Fds, NameMap, Distinct, TableFor, Asked, Honest;
      if current == null { return; }
      current.wantsRead := true;
    }

    method Current() returns (clipId: int)
      ensures clipId == if current == null then 0 else current.clipId
    {
      clipId := if current == null then 0 else current.clipId;
    }

    /** Shutdown: every pipe is closed; only sources replaced but not yet cancelled keep a payload. */
    method Free()
      requires Valid()
      modifies this, born
      ensures Valid() && writers == [] && current == null && closed == handed && handed == old(handed)
      ensures born == old(born) && old(log) <= log
      ensures forall s :: s in sources <==> s in old(sources) && s != old(current)
      ensures forall p :: p in born ==> p.frees == if exists s :: s in sources && s.pl == p then 0 else 1
    {
      hide WriterRefs, SourceRefs, Fds, NameMap, TableFor, Asked, Honest;
      while writers != []
        invariant Valid() && sources == old(sources) && current == old(current) && born == old(born)
        invariant handed == old(handed) && old(log) <= log
        decreases |writers|
      {
        WriterFree(writers[0]);
      }
      NoWriters();
      if current != null { var _ := SourceFree(current); }
      forall p | p in born ensures p.frees == if exists s :: s in sources && s.pl == p then 0 else 1 {
        HeldOrFreed(this, p);
      }
    }
  }

  lemma NoWriters()
    ensures Fds([]) == multiset{}
  {
  }

  lemma {:induction false} NobodyHolds(ss: seq<Source>, p: Payload)
    requires forall s :: s in ss ==> s.pl != p
    ensures SourceRefs(ss, p) == 0
  {
    if ss != [] { NobodyHolds(ss[1..], p); }
  }

  lemma {:induction false} StrangersHoldNothing(ss: seq<Source>, ws: seq<Writer>, p: Payload)
    requires forall s :: s in ss ==> s.pl != p
    requires forall w :: w in ws ==> w.pl != p
    ensures SourceRefs(ss, p) == 0 && WriterRefs(ws, p) == 0
  {
    if ss != [] { StrangersHoldNothing(ss[1..], ws, p); }
    else if ws != [] { StrangersHoldNothing(ss, ws[1..], p); }
  }

  /** Bytes are never freed under a reader or a source, whatever has been cancelled or replaced. */
  lemma HeldBytesAreAlive(s: Serve, p: Payload)
    requires s.Valid()
    requires (exists w :: w in s.writers && w.pl == p) || (exists src :: src in s.sources && src.pl == p)
    ensures p in s.born && p.refs > 0 && p.frees == 0
  {
    HoldersCount(s.sources, s.writers);
    if src :| src in s.sources && src.pl == p { assert s.Counted(p); }
    if w :| w in s.writers && w.pl == p { assert s.Counted(p); }
  }

  /** A payload is freed, once, exactly when no source and no transfer has it. */
  lemma HeldOrFreed(s: Serve, p: Payload)
    requires s.Valid() && p in s.born
    ensures p.frees == if Held(s, p) then 0 else 1
  {
    if Held(s, p) {
      HeldBytesAreAlive(s, p);
    } else {
      StrangersHoldNothing(s.sources, s.writers, p);
      assert s.Counted(p);
    }
  }

  ghost predicate Held(s: Serve, p: Payload)
    reads s
  {
    (exists w :: w in s.writers && w.pl == p) || (exists src :: src in s.sources && src.pl == p)
  }

  // ---- whole runs ------------------------------------------------------------------

  /**
   * What may happen next. Transfers and sources are named by their place in the
   * lists of the moment; an event for one that is not there is not delivered.
   */
  datatype Event =
    | Writable(w: nat, hangup: bool, io: seq<WriteResult>)
    | TimedOut(w: nat)
    | Send(src: nat, mime: string, fd: int, io: seq<WriteResult>, watched: bool)
    | Cancelled(src: nat)
    | Put(loaded: Option<Content>, clipId: int, connected: bool)
    | FirstRead

  /** How many sources there are after an event, of n before it. */
  function SourcesAfter(n: nat, e: Event): nat {
    match e
    case Cancelled(src) => if src < n then n - 1 else n
    case Put(loaded, _, connected) => if loaded.Some? && connected then n + 1 else n
    case _ => n
  }

  /** The pipe ends a run hands over, starting with n sources. */
  function Ends(n: nat, es: seq<Event>): multiset<int>
    decreases |es|
  {
    if es == [] then multiset{}
    else EndOf(n, es[0]) + Ends(SourcesAfter(n, es[0]), es[1..])
  }

  function EndOf(n: nat, e: Event): multiset<int> {
    if e.Send? && e.src < n then multiset{e.fd} else multiset{}
  }

  /** How many payloads an event, or a run, loads for the clipboard. */
  function PutsOf(e: Event): nat { if e.Put? && e.loaded.Some? then 1 else 0 }

  function Puts(es: seq<Event>): nat {
    if es == [] then 0 else PutsOf(es[0]) + Puts(es[1..])
  }

  /** All that was asked for was sent. */
  ghost predicate Whole(t: Transfer) { Asked(t.pl.cp, t.mime) == Some(t.sent) }

  /** The events that may end a transfer early: the reader hung up or stalled, or its pipe broke. */
  ghost predicate CutsOff(e: Event) {
    (e.Writable? && (e.hangup || Breaks(e.io))) || e.TimedOut? || (e.Send? && Breaks(e.io))
  }

  /** At most one transfer ended at e, and early only if e may cut it off. */
  ghost predicate EndsRightly(was: seq<Transfer>, now: seq<Transfer>, e: Event) {
    now == was || (|now| == |was| + 1 && now[..|was|] == was && (Whole(now[|was|]) || CutsOff(e)))
  }

  /** The transfers that ended since are those of these events, in order, one each. */
  ghost predicate EndedBy(first: nat, log: seq<Transfer>, es: seq<Event>, causes: seq<nat>) {
    && |log| == first + |causes|
    && (forall i, j :: 0 <= i < j < |causes| ==> causes[i] < causes[j])
    && (forall i :: 0 <= i < |causes| ==> causes[i] < |es| && (Whole(log[first + i]) || CutsOff(es[causes[i]])))
  }

  lemma EndedMore(first: nat, was: seq<Transfer>, now: seq<Transfer>, es: seq<Event>, causes: seq<nat>, k: nat)
    requires k < |es| && EndedBy(first, was, es[..k], causes) && EndsRightly(was, now, es[k])
    ensures EndedBy(first, now, es[..k + 1], if now == was then causes else causes + [k])
  {
    hide Whole, CutsOff;
    assert es[..k + 1] == es[..k] + [es[k]];
    var more := if now == was then causes else causes + [k];
    forall i | 0 <= i < |more|
      ensures more[i] < k + 1 && (Whole(now[first + i]) || CutsOff(es[..k + 1][more[i]]))
    {
      if i < |causes| {
        assert es[..k][causes[i]] == es[..k + 1][causes[i]];
        assert now[first + i] == now[..|was|][first + i];
      }
    }
  }

  lemma WantedIsAsked(s: Serve, w: Writer)
    requires s.Valid() && w in s.writers
    ensures Asked(w.pl.cp, w.mime) == Some(w.wanted)
  {
  }

  /** The event does what it is for; ws and ss were the transfers and the sources before it. */
  twostate predicate Heeded(s: Serve, e: Event, ws: seq<Writer>, ss: seq<Source>)
    reads s, s.writers, s.sources, ws
  {
    match e
    // what the reader takes is sent, and a transfer that is done, or whose reader is gone, is over
    case Writable(k, hangup, io) => k < |ws| && old(ws[k].watched) ==>
      && (hangup ==> ws[k] !in s.writers)
      && (!hangup && Takes(io, old(ws[k].left)) ==> ws[k] !in s.writers && ws[k].sent == ws[k].wanted)
    case TimedOut(k) => k < |ws| ==> ws[k] !in s.writers
    // a reader is served all it asked for, or its pipe is closed at once
    case Send(k, mime, fd, io, _) => k < |ss| ==>
      var asked := Asked(ss[k].pl.cp, mime);
      && (asked.None? ==> s.closed == old(s.closed) + multiset{fd} && s.writers == ws)
      && (asked.Some? && !Breaks(io) ==> s.Served(ws, old(s.log), Transfer(fd, ss[k].pl, mime, asked.value)))
    case Cancelled(k) => k < |ss| ==>
      && |s.sources| == |ss| - 1 && (forall x :: x in s.sources ==> x in ss && x != ss[k])
      && s.current == if old(s.current) == ss[k] then null else old(s.current)
    case Put(loaded, clipId, connected) => loaded.Some? && connected ==>
      && s.current != null && s.sources == [s.current] + ss && s.current in s.sources
      && s.current.clipId == clipId && s.current.pl.cp == loaded.value && !s.current.wantsRead
    case FirstRead => s.current != null ==> s.current == old(s.current) && s.current in s.sources && s.current.wantsRead
  }

  /** The events of transfers. */
  method Advance(s: Serve, e: Event)
    requires s.Valid() && s.Settled() && (e.Writable? || e.TimedOut?)
    modifies s, s.writers, s.born
    ensures s.Valid() && s.Settled() && s.born == old(s.born) && s.sources == old(s.sources)
    ensures forall w :: w in s.writers ==> w in old(s.writers)
    ensures s.handed == old(s.handed) && old(s.log) <= s.log && EndsRightly(old(s.log), s.log, e)
    ensures Heeded(s, e, old(s.writers), old(s.sources))
    ensures forall p :: p in s.born ==> old(p.frees) <= p.frees
  {
    hide WriterRefs, SourceRefs, Fds, NameMap, TableFor, Asked, Honest, Distinct, Pump, Breaks;
    hide Serve.Valid, Serve.Settled, Serve.Counted;
    if e.w >= |s.writers| { return; }
    var w := s.writers[e.w];
    HeldBytesAreAlive(s, w.pl);
    WantedIsAsked(s, w);
    if e.TimedOut? {
      s.OnWriterTimeout(w);
    } else if w.watched {
      s.OnWritable(w, e.hangup, e.io);
    }
  }

  method Ask(s: Serve, e: Event)
    requires s.Valid() && s.Settled() && e.Send?
    modifies s, s.sources, s.born
    ensures s.Valid() && s.Settled() && s.born == old(s.born) && s.sources == old(s.sources)
    ensures forall k :: 0 <= k < |s.writers| ==> s.writers[k] in old(s.writers) || fresh(s.writers[k])
    ensures s.handed == old(s.handed) + EndOf(|old(s.sources)|, e) && old(s.log) <= s.log
    ensures EndsRightly(old(s.log), s.log, e) && Heeded(s, e, old(s.writers), old(s.sources))
    ensures forall p :: p in s.born ==> old(p.frees) <= p.frees
  {
    hide WriterRefs, SourceRefs, Fds, NameMap, TableFor, Asked, Honest, Distinct, Pump, Waits, Breaks;
    hide Serve.Valid, Serve.Settled, Serve.Counted;
    if e.src >= |s.sources| { return; }
    HeldBytesAreAlive(s, s.sources[e.src].pl);
    var _ := s.OnSend(s.sources[e.src], e.mime, e.fd, e.io, e.watched);
  }

  method Drop(s: Serve, e: Event)
    requires s.Valid() && s.Settled() && e.Cancelled?
    modifies s, s.born
    ensures s.Valid() && s.Settled() && s.born == old(s.born) && s.writers == old(s.writers)
    ensures |s.sources| == SourcesAfter(|old(s.sources)|, e) && forall src :: src in s.sources ==> src in old(s.sources)
    ensures s.handed == old(s.handed) && s.log == old(s.log) && Heeded(s, e, old(s.writers), old(s.sources))
    ensures forall p :: p in s.born ==> old(p.frees) <= p.frees
  {
    hide WriterRefs, SourceRefs, Fds, NameMap, TableFor, Asked, Honest, Distinct, Pump, Waits;
    hide Serve.Valid, Serve.Settled, Serve.Counted;
    if e.src >= |s.sources| { return; }
    HeldBytesAreAlive(s, s.sources[e.src].pl);
    var _ := s.OnCancelled(s.sources[e.src]);
  }

  method Dispatch(s: Serve, e: Event)
    requires s.Valid() && s.Settled()
    modifies s, s.writers, s.sources, s.born
    ensures s.Valid() && s.Settled()
    ensures old(s.born) <= s.born && |s.born| == |old(s.born)| + PutsOf(e)
    ensures forall k :: 0 <= k < |s.writers| ==> s.writers[k] in old(s.writers) || fresh(s.writers[k])
    ensures forall k :: 0 <= k < |s.sources| ==> s.sources[k] in old(s.sources) || fresh(s.sources[k])
    ensures forall p :: p in s.born ==> p in old(s.born) || fresh(p)
    ensures |s.sources| == SourcesAfter(|old(s.sources)|, e)
    ensures s.handed == old(s.handed) + EndOf(|old(s.sources)|, e)
    ensures old(s.log) <= s.log && EndsRightly(old(s.log), s.log, e) && Heeded(s, e, old(s.writers), old(s.sources))
    ensures forall p :: p in old(s.born) ==> old(p.frees) <= p.frees
  {
    hide WriterRefs, SourceRefs, Fds, NameMap, TableFor, Asked, Honest, Distinct, Pump, Waits, Whole, CutsOff;
    hide Serve.Valid, Serve.Settled, Serve.Counted, Heeded, EndsRightly, EndOf;
    EndsOf(|s.sources|, e, s.log);
    if e.Writable? || e.TimedOut? {
      Advance(s, e);
    } else if e.Send? {
      Ask(s, e);
    } else if e.Cancelled? {
      Drop(s, e);
    } else {
      Change(s, e);
    }
  }

  lemma EndsOf(n: nat, e: Event, log: seq<Transfer>)
    ensures !e.Send? ==> EndOf(n, e) == multiset{}
    ensures EndsRightly(log, log, e)
  {
  }

  method Change(s: Serve, e: Event)
    requires s.Valid() && s.Settled() && (e.Put? || e.FirstRead?)
    modifies s, s.sources
    ensures s.Valid() && s.Settled() && s.writers == old(s.writers) && s.handed == old(s.handed) && s.log == old(s.log)
    ensures old(s.born) <= s.born && |s.born| == |old(s.born)| + PutsOf(e) && forall p :: p in s.born ==> p in old(s.born) || fresh(p)
    ensures forall k :: 0 <= k < |s.sources| ==> s.sources[k] in old(s.sources) || fresh(s.sources[k])
    ensures |s.sources| == SourcesAfter(|old(s.sources)|, e) && Heeded(s, e, old(s.writers), old(s.sources))
  {
    hide WriterRefs, SourceRefs, Fds, NameMap, TableFor, Asked, Honest, Distinct, Pump, Waits, Whole, CutsOff;
    hide Serve.Valid, Serve.Settled, Serve.Counted;
    s.CurrentIsLive();
    if e.Put? {
      var _, _ := s.Own(e.loaded, e.clipId, e.connected);
    } else {
      s.OnFirstRead();
    }
  }

  /**
   * Over every run: a payload once put on the clipboard is freed exactly when
   * nothing has it any more, and stays freed; every pipe end handed over is open
   * in one transfer or was closed once; and every transfer that ended sent a
   * prefix of the bytes that the name asked for stands for.
   */
  method Drive(s: Serve, es: seq<Event>) returns (ghost causes: seq<nat>)
    requires s.Valid() && s.Settled()
    modifies s, s.writers, s.sources, s.born
    ensures s.Valid() && s.Settled()
    ensures old(s.born) <= s.born && |s.born| == |old(s.born)| + Puts(es)
    ensures forall p :: p in s.born ==> p in old(s.born) || fresh(p)
    ensures forall p :: p in s.born ==> p.frees == if Held(s, p) then 0 else 1
    ensures forall p :: p in old(s.born) ==> old(p.frees) <= p.frees
    ensures s.handed == old(s.handed) + Ends(|old(s.sources)|, es)
    ensures s.handed == s.closed + Fds(s.writers)
    ensures old(s.log) <= s.log && forall t :: t in s.log ==> t.pl in s.born && Honest(t)
    // only a reader that hung up, stalled or broke its pipe gets less than it asked for
    ensures EndedBy(|old(s.log)|, s.log, es, causes)
  {
    hide WriterRefs, SourceRefs, Fds, NameMap, TableFor, Asked, Honest, Distinct, Ends, Puts, PutsOf, EndedBy, EndsRightly, Heeded;
    causes := [];
    NoneEnded(s.log, es);
    NoEnds(0, es);
    for i := 0 to |es|
      invariant s.Valid() && s.Settled()
      invariant |old(s.born)| + Puts(es) == |s.born| + Puts(es[i..])
      invariant old(s.born) <= s.born && forall p :: p in s.born ==> p in old(s.born) || fresh(p)
      invariant forall k :: 0 <= k < |s.writers| ==> s.writers[k] in old(s.writers) || fresh(s.writers[k])
      invariant forall k :: 0 <= k < |s.sources| ==> s.sources[k] in old(s.sources) || fresh(s.sources[k])
      invariant old(s.handed) + Ends(|old(s.sources)|, es) == s.handed + Ends(|s.sources|, es[i..])
      invariant old(s.log) <= s.log && EndedBy(|old(s.log)|, s.log, es[..i], causes)
      invariant forall p :: p in old(s.born) ==> old(p.frees) <= p.frees
    {
      EndsNext(|s.sources|, es, i);
      ghost var was := s.log;
      Dispatch(s, es[i]);
      EndedMore(|old(s.log)|, was, s.log, es, causes, i);
      causes := if s.log == was then causes else causes + [i];
    }
    assert es[..|es|] == es;
    NoEnds(|s.sources|, es);
    forall p | p in s.born ensures p.frees == if Held(s, p) then 0 else 1 { HeldOrFreed(s, p); }
  }

  lemma NoneEnded(log: seq<Transfer>, es: seq<Event>)
    ensures EndedBy(|log|, log, es[..0], [])
  {
  }

  lemma EndsNext(n: nat, es: seq<Event>, i: nat)
    requires i < |es|
    ensures Ends(n, es[i..]) == EndOf(n, es[i]) + Ends(SourcesAfter(n, es[i]), es[i + 1..])
    ensures Puts(es[i..]) == PutsOf(es[i]) + Puts(es[i + 1..])
  {
    assert es[i..][1..] == es[i + 1..];
  }

  lemma NoEnds(n: nat, es: seq<Event>)
    ensures Ends(n, es[|es|..]) == multiset{} && Puts(es[|es|..]) == 0 && es[0..] == es
  {
  }

  /**
   * A daemon's life: after shutdown every pipe end handed over in the run was
   * closed once, and every payload was freed once unless a source that was
   * replaced but never cancelled still has it.
   */
  method Live(es: seq<Event>) returns (s: Serve)
    ensures fresh(s) && s.Valid() && s.writers == [] && s.closed == Ends(0, es) && |s.born| == Puts(es)
    ensures forall p :: p in s.born ==> p.frees == if exists src :: src in s.sources && src.pl == p then 0 else 1
    ensures forall t :: t in s.log ==> t.pl in s.born && Honest(t)
  {
    hide WriterRefs, SourceRefs, Fds, NameMap, TableFor, Asked, Honest, Distinct, Ends;
    s := new Serve();
    ghost var causes := Drive(s, es);
    s.Free();
  }
}
