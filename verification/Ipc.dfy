/**
 * The socket side (daemon/src/ipc.c): request lines reassembled from arbitrary
 * reads, and an output window that drains through partial sends.
 */
module Ipc {
  import opened Bytes

  const NEWLINE: byte := '\n' as int
  const MAX_LINE: nat := 16 * 1024 * 1024
  const MAX_PENDING_OUT: nat := 64 * 1024 * 1024
  const COMPACT_AT: nat := 1024 * 1024

  // ---- lines ------------------------------------------------------------------

  datatype Split = Split(lines: seq<bytes>, tail: bytes)

  /** The newline-terminated segments of what arrived, and the rest. */
  function Segments(s: bytes): Split {
    if s == [] then Split([], [])
    else
      var r, c := Segments(s[..|s| - 1]), s[|s| - 1];
      if c == NEWLINE then Split(r.lines + [r.tail], []) else Split(r.lines, r.tail + [c])
  }

  /** Lines, each with its newline. */
  function Joined(lines: seq<bytes>): bytes {
    if lines == [] then [] else Joined(lines[..|lines| - 1]) + lines[|lines| - 1] + [NEWLINE]
  }

  /** Segments is the one way to cut a byte string into newline-free lines and a newline-free tail. */
  lemma {:induction false} SegmentsCut(s: bytes)
    ensures Joined(Segments(s).lines) + Segments(s).tail == s
    ensures NEWLINE !in Segments(s).tail && forall l :: l in Segments(s).lines ==> NEWLINE !in l
  {
    if s != [] {
      var r, c := Segments(s[..|s| - 1]), s[|s| - 1];
      SegmentsCut(s[..|s| - 1]);
      assert s == s[..|s| - 1] + [c];
      if c == NEWLINE {
        assert (r.lines + [r.tail])[..|r.lines|] == r.lines;
      }
    }
  }

  lemma SegmentsStep(s: bytes, c: byte)
    ensures var r := Segments(s);
            Segments(s + [c]) == if c == NEWLINE then Split(r.lines + [r.tail], []) else Split(r.lines, r.tail + [c])
  {
    assert (s + [c])[..|s|] == s;
  }

  lemma {:induction false} SegmentsAppend(s: bytes, t: bytes)
    requires NEWLINE !in t
    ensures Segments(s + t) == Split(Segments(s).lines, Segments(s).tail + t)
  {
    hide Segments;
    if t == [] {
      assert s + t == s && Segments(s).tail + t == Segments(s).tail;
    } else {
      var n := |t| - 1;
      SegmentsAppend(s, t[..n]);
      SegmentsStep(s + t[..n], t[n]);
      assert s + t == (s + t[..n]) + [t[n]];
      assert Segments(s).tail + t == (Segments(s).tail + t[..n]) + [t[n]];
    }
  }

  lemma NoLines()
    ensures Joined([]) == [] && Segments([]) == Split([], [])
  {
  }

  lemma {:induction false} SegmentsUnique(lines: seq<bytes>, tail: bytes)
    requires NEWLINE !in tail && forall l :: l in lines ==> NEWLINE !in l
    ensures Segments(Joined(lines) + tail) == Split(lines, tail)
  {
    hide Segments, Joined;
    SegmentsAppend(Joined(lines), tail);
    assert [] + tail == tail;
    if lines == [] {
      NoLines();
    } else {
      var n := |lines| - 1;
      SegmentsUnique(lines[..n], lines[n]);
      SegmentsStep(Joined(lines[..n]) + lines[n], NEWLINE);
      assert lines == lines[..n] + [lines[n]];
      JoinedAppend(lines[..n], lines[n]);
    }
  }

  // ---- output ---------------------------------------------------------------------

  /** What one send(2) returns. */
  datatype SendResult = Sent(n: nat) | Interrupted | WouldBlock | Failed

  datatype Flushed = Flushed(n: nat, ok: bool)

  /** How much of `pending` bytes a run of sends gets out, and whether the socket still works. */
  function Drain(pending: nat, io: seq<SendResult>): (f: Flushed)
    ensures f.n <= pending
    decreases |io|
  {
    if pending == 0 || io == [] then Flushed(0, true)
    else match io[0]
      case Interrupted => Drain(pending, io[1..])
      case WouldBlock => Flushed(0, true)
      case Failed => Flushed(0, false)
      case Sent(k) =>
        if k == 0 then Flushed(0, false)
        else var w := Min(k, pending);
             var rest := Drain(pending - w, io[1..]);
             rest.(n := w + rest.n)
  }

  /** The answers that say the peer is gone, or that nothing can be sent any more. */
  predicate Bad(r: SendResult) { r == Failed || r == Sent(0) }

  /** One comes before the socket is full. */
  ghost predicate Breaks(io: seq<SendResult>) {
    exists k :: 0 <= k < |io| && Bad(io[k]) && forall j :: 0 <= j < k ==> io[j] != WouldBlock
  }

  /** What the sends of a run accept. */
  function Accepted(io: seq<SendResult>): nat {
    if io == [] then 0
    else Accepted(io[..|io| - 1]) + if io[|io| - 1].Sent? then io[|io| - 1].n else 0
  }

  lemma {:induction false} AcceptedHead(r: SendResult, io: seq<SendResult>)
    ensures Accepted([r] + io) == (if r.Sent? then r.n else 0) + Accepted(io)
  {
    if io == [] {
      assert ([r] + io)[..0] == [] && ([r] + io)[0] == r;
    } else {
      var n := |io| - 1;
      AcceptedHead(r, io[..n]);
      assert ([r] + io)[..n + 1] == [r] + io[..n];
    }
  }

  lemma BreaksLater(io: seq<SendResult>)
    requires io != [] && !Bad(io[0]) && io[0] != WouldBlock
    ensures Breaks(io) <==> Breaks(io[1..])
  {
    var rest := io[1..];
    if k :| 0 <= k < |io| && Bad(io[k]) && forall j :: 0 <= j < k ==> io[j] != WouldBlock {
      assert rest[k - 1] == io[k];
    }
    if k :| 0 <= k < |rest| && Bad(rest[k]) && forall j :: 0 <= j < k ==> rest[j] != WouldBlock {
      assert io[k + 1] == rest[k];
      forall j | 0 <= j < k + 1 ensures io[j] != WouldBlock { if j > 0 { assert io[j] == rest[j - 1]; } }
    }
  }

  /**
   * Only such an answer makes the socket fail; and as long as it is not full all
   * that the sends accept counts, until nothing is pending.
   */
  lemma {:induction false} DrainEnds(pending: nat, io: seq<SendResult>)
    ensures !Drain(pending, io).ok ==> Breaks(io)
    ensures !Breaks(io) && WouldBlock !in io ==> Drain(pending, io) == Flushed(Min(pending, Accepted(io)), true)
  {
    if pending > 0 && io != [] && io[0] != WouldBlock {
      if !Bad(io[0]) {
        var rest := io[1..];
        assert io == [io[0]] + rest;
        AcceptedHead(io[0], rest);
        DrainEnds(pending - if io[0].Sent? then Min(io[0].n, pending) else 0, rest);
        BreaksLater(io);
      } else {
        assert Breaks(io);
      }
    }
  }

  /** A full socket keeps the rest for later, a broken one is given up; what was accepted before is on its way. */
  lemma {:induction false} DrainStops(pending: nat, io: seq<SendResult>, k: nat)
    requires k < |io| && (forall j :: 0 <= j < k ==> !Bad(io[j]) && io[j] != WouldBlock) && Accepted(io[..k]) < pending
    ensures io[k] == WouldBlock ==> Drain(pending, io) == Flushed(Accepted(io[..k]), true)
    ensures Bad(io[k]) ==> Drain(pending, io) == Flushed(Accepted(io[..k]), false)
  {
    if k > 0 {
      assert io[..k] == [io[0]] + io[1..][..k - 1];
      AcceptedHead(io[0], io[1..][..k - 1]);
      DrainStops(pending - if io[0].Sent? then Min(io[0].n, pending) else 0, io[1..], k - 1);
    }
  }

  /** The sends of a run take this much. */
  ghost predicate Takes(io: seq<SendResult>, n: nat) { !Breaks(io) && WouldBlock !in io && Accepted(io) >= n }

  /** The socket takes whatever may be pending when this is sent. */
  ghost predicate Ready(r: Reply) { Takes(r.io, MAX_PENDING_OUT + 1) }

  lemma ReadyTakes(r: Reply, n: nat)
    requires Ready(r) && n <= MAX_PENDING_OUT + 1
    ensures Takes(r.io, n)
  {
  }

  lemma TakesLess(io: seq<SendResult>, n: nat, m: nat)
    requires Takes(io, n) && m <= n
    ensures Takes(io, m)
  {
  }

  lemma DrainStep(pending: nat, io: seq<SendResult>, k: nat)
    requires k < |io| && pending > 0
    ensures io[k] == Interrupted ==> Drain(pending, io[k..]) == Drain(pending, io[k + 1..])
    ensures io[k] == WouldBlock ==> Drain(pending, io[k..]) == Flushed(0, true)
    ensures io[k] == Failed || io[k] == Sent(0) ==> Drain(pending, io[k..]) == Flushed(0, false)
    ensures io[k].Sent? && io[k].n > 0 ==>
              var w := Min(io[k].n, pending);
              && Drain(pending, io[k..]).n == w + Drain(pending - w, io[k + 1..]).n
              && Drain(pending, io[k..]).ok == Drain(pending - w, io[k + 1..]).ok
  {
    assert io[k..][1..] == io[k + 1..];
  }

  lemma DrainNone(pending: nat, io: seq<SendResult>)
    ensures Drain(pending, io[|io|..]) == Flushed(0, true) && Drain(0, io) == Flushed(0, true) && io[0..] == io
  {
  }

  lemma MinIs(x: nat, y: nat)
    ensures Min(x, y) <= x && Min(x, y) <= y && (x > 0 && y > 0 ==> Min(x, y) > 0)
  {
  }

  lemma MoreSent(was: bytes, s: bytes, a: nat, b: nat, c: nat)
    requires a <= b <= c <= |s|
    ensures (was + s[a..b]) + s[b..c] == was + s[a..c]
  {
  }

  function Behind(len: nat, off: nat): nat { if off <= len then len - off else 0 }

  /** What one recv(2) returns. */
  datatype RecvResult = Data(bytes: bytes) | RecvInterrupted | RecvWouldBlock | Ended

  /** What handling one line comes to: the messages sent, and perhaps a change of the subscription. */
  datatype Handling = Handling(replies: seq<Reply>, subscribe: Option<bool>)

  /** One message a handler sends, and how the socket behaves while it is flushed. */
  datatype Reply = Reply(message: bytes, io: seq<SendResult>)

  function Messages(rs: seq<Reply>): seq<bytes> {
    if rs == [] then [] else Messages(rs[..|rs| - 1]) + [rs[|rs| - 1].message]
  }

  lemma MessagesAppend(rs: seq<Reply>, r: Reply)
    ensures Messages(rs + [r]) == Messages(rs) + [r.message]
    ensures Joined(Messages(rs + [r])) == Joined(Messages(rs)) + r.message + [NEWLINE]
  {
    assert (rs + [r])[..|rs|] == rs;
    JoinedAppend(Messages(rs), r.message);
  }

  /** Whenever this is sent, the socket takes all that is pending. */
  ghost predicate Prompt(h: Handling) { forall r :: r in h.replies ==> Ready(r) }

  lemma NoMessages(rs: seq<Reply>)
    ensures Joined(Messages(rs[..0])) == []
  {
  }

  lemma Queue(x: bytes, y: bytes, m: bytes)
    ensures (x + y) + (m + [NEWLINE]) == x + (y + m + [NEWLINE])
  {
  }

  /**
   * What a run of lines is answered, in order: handler says what the line at each
   * place gets, whatever the line says; empty lines are ignored.
   */
  function Answers(handler: nat -> Handling, lines: seq<bytes>): seq<bytes> {
    if lines == [] then []
    else
      var n := |lines| - 1;
      Answers(handler, lines[..n]) + AnswerTo(handler(n).replies, lines[n])
  }

  function AnswerTo(replies: seq<Reply>, line: bytes): seq<bytes> {
    if line == [] then [] else Messages(replies)
  }

  lemma AnswersAppend(was: bytes, handler: nat -> Handling, lines: seq<bytes>, line: bytes)
    ensures was + Joined(Answers(handler, lines + [line]))
            == was + Joined(Answers(handler, lines)) + Joined(AnswerTo(handler(|lines|).replies, line))
  {
    hide Joined, AnswerTo;
    var (a, b) := (Answers(handler, lines), AnswerTo(handler(|lines|).replies, line));
    assert (lines + [line])[..|lines|] == lines;
    JoinedBoth(a, b);
    Assoc(was, Joined(a), Joined(b));
  }

  /** Whether a client is subscribed once these lines have been handled. */
  function Subscribed(was: bool, handler: nat -> Handling, lines: seq<bytes>): bool {
    if lines == [] then was
    else
      var n := |lines| - 1;
      SubscribedAfter(Subscribed(was, handler, lines[..n]), handler(n).subscribe, lines[n])
  }

  function SubscribedAfter(was: bool, change: Option<bool>, line: bytes): bool {
    if line != [] && change.Some? then change.value else was
  }

  lemma SubscribedMore(was: bool, handler: nat -> Handling, lines: seq<bytes>, line: bytes)
    ensures Subscribed(was, handler, lines + [line])
         == SubscribedAfter(Subscribed(was, handler, lines), handler(|lines|).subscribe, line)
    ensures Subscribed(was, handler, []) == was
  {
    assert (lines + [line])[..|lines|] == lines;
  }

  lemma NoAnswers(was: bytes, handler: nat -> Handling)
    ensures was + Joined(Answers(handler, [])) == was
  {
  }

  lemma {:induction false} JoinedBoth(ls: seq<bytes>, ms: seq<bytes>)
    ensures Joined(ls + ms) == Joined(ls) + Joined(ms)
  {
    hide Joined;
    if ms == [] {
      assert ls + ms == ls;
      NoLines();
    } else {
      var n := |ms| - 1;
      JoinedBoth(ls, ms[..n]);
      assert ls + ms == (ls + ms[..n]) + [ms[n]] && ms == ms[..n] + [ms[n]];
      JoinedAppend(ls + ms[..n], ms[n]);
      JoinedAppend(ms[..n], ms[n]);
      Assoc(Joined(ls), Joined(ms[..n]), ms[n] + [NEWLINE]);
    }
  }

  lemma JoinedAppend(ls: seq<bytes>, l: bytes)
    ensures Joined(ls + [l]) == Joined(ls) + l + [NEWLINE]
  {
    assert (ls + [l])[..|ls|] == ls;
  }

  /** None of these messages meets a socket that fails. */
  ghost predicate Quiet(rs: seq<Reply>) { forall r :: r in rs ==> !Breaks(r.io) }

  /** Answering these lines is trouble: a socket fails on one answer, or all of them do not fit. */
  ghost predicate Troubled(pending: nat, handler: nat -> Handling, lines: seq<bytes>) {
    || pending + |Joined(Answers(handler, lines))| > MAX_PENDING_OUT
    || exists k :: 0 <= k < |lines| && lines[k] != [] && !Quiet(handler(k).replies)
  }

  /** Answering this one line is. */
  ghost predicate Worsens(pending: nat, replies: seq<Reply>, line: bytes) {
    (line != [] && !Quiet(replies)) || pending + |Joined(AnswerTo(replies, line))| > MAX_PENDING_OUT
  }

  lemma WorseBehind(p: nat, q: nat, replies: seq<Reply>, line: bytes)
    requires p <= q
    ensures Worsens(p, replies, line) ==> Worsens(q, replies, line)
  {
  }

  lemma TroubleBehind(p: nat, q: nat, handler: nat -> Handling, lines: seq<bytes>)
    requires p <= q
    ensures Troubled(p, handler, lines) ==> Troubled(q, handler, lines)
  {
  }

  lemma TroubleGrows(pending: nat, handler: nat -> Handling, lines: seq<bytes>, line: bytes)
    ensures Troubled(pending, handler, lines) ==> Troubled(pending, handler, lines + [line])
    ensures Worsens(pending + |Joined(Answers(handler, lines))|, handler(|lines|).replies, line)
            ==> Troubled(pending, handler, lines + [line])
    ensures |Joined(Answers(handler, lines + [line]))|
         == |Joined(Answers(handler, lines))| + |Joined(AnswerTo(handler(|lines|).replies, line))|
  {
    hide Joined, Answers, AnswerTo, Quiet;
    var all := lines + [line];
    AnswersAppend([], handler, lines, line);
    if k :| 0 <= k < |lines| && lines[k] != [] && !Quiet(handler(k).replies) { assert all[k] == lines[k]; }
    assert all[|lines|] == line;
  }

  /** Whoever is in trouble over the first lines is so over all of them. */
  lemma {:induction false} TroubleStays(pending: nat, handler: nat -> Handling, lines: seq<bytes>, k: nat)
    requires k <= |lines| && Troubled(pending, handler, lines[..k])
    ensures Troubled(pending, handler, lines)
    decreases |lines| - k
  {
    hide Troubled;
    if k < |lines| {
      TroubleGrows(pending, handler, lines[..k], lines[k]);
      assert lines[..k] + [lines[k]] == lines[..k + 1];
      TroubleStays(pending, handler, lines, k + 1);
    } else {
      assert lines[..k] == lines;
    }
  }

  /** What a burst of reads delivers; it ends at the first that would block, at the end, or once too long. */
  datatype Burst = Burst(data: bytes, ended: bool, tooLong: bool)

  function Receive(buffered: nat, io: seq<RecvResult>): Burst
    decreases |io|
  {
    if io == [] then Burst([], false, false)
    else match io[0]
      case RecvInterrupted => Receive(buffered, io[1..])
      case RecvWouldBlock => Burst([], false, false)
      case Ended => Burst([], true, false)
      case Data(b) =>
        if buffered + |b| > MAX_LINE then Burst(b, false, true)
        else var rest := Receive(buffered + |b|, io[1..]); rest.(data := b + rest.data)
  }

  /** Nothing but data and interruptions up to here. */
  predicate Flows(io: seq<RecvResult>, k: nat) {
    k <= |io| && forall j :: 0 <= j < k ==> io[j].Data? || io[j] == RecvInterrupted
  }

  /** All the data in these answers. */
  function DataOf(io: seq<RecvResult>): bytes {
    if io == [] then [] else DataOf(io[..|io| - 1]) + if io[|io| - 1].Data? then io[|io| - 1].bytes else []
  }

  lemma {:induction false} DataHead(r: RecvResult, io: seq<RecvResult>)
    ensures DataOf([r] + io) == (if r.Data? then r.bytes else []) + DataOf(io)
  {
    if io == [] {
      assert ([r] + io)[..0] == [] && ([r] + io)[0] == r;
    } else {
      var n := |io| - 1;
      DataHead(r, io[..n]);
      assert ([r] + io)[..n + 1] == [r] + io[..n];
    }
  }

  /** A burst stops here: nothing more is there, the peer hung up, or the line has just become too long. */
  predicate Dries(io: seq<RecvResult>, k: nat) { Flows(io, k) && (k == |io| || io[k] == RecvWouldBlock) }
  predicate HangsUp(io: seq<RecvResult>, k: nat) { Flows(io, k) && k < |io| && io[k] == Ended }

  predicate Overflows(buffered: nat, io: seq<RecvResult>, k: nat) {
    && 0 < k && Flows(io, k) && io[k - 1].Data?
    && buffered + |DataOf(io[..k - 1])| <= MAX_LINE < buffered + |DataOf(io[..k])|
  }

  lemma StopsLater(buffered: nat, io: seq<RecvResult>, k: nat)
    requires k < |io| && (io[0].Data? || io[0] == RecvInterrupted)
    ensures var b := if io[0].Data? then io[0].bytes else [];
            && (Dries(io[1..], k) <==> Dries(io, k + 1))
            && (HangsUp(io[1..], k) <==> HangsUp(io, k + 1))
            && (k > 0 ==> (Overflows(buffered + |b|, io[1..], k) <==> Overflows(buffered, io, k + 1)))
            && DataOf(io[..k + 1]) == b + DataOf(io[1..][..k])
  {
    var rest := io[1..];
    assert io[..k + 1] == [io[0]] + rest[..k];
    DataHead(io[0], rest[..k]);
    FlowsLater(io, k);
    if k > 0 {
      assert io[..k] == [io[0]] + rest[..k - 1] && io[k] == rest[k - 1];
      DataHead(io[0], rest[..k - 1]);
    }
  }

  lemma FlowsLater(io: seq<RecvResult>, k: nat)
    requires k < |io| && (io[0].Data? || io[0] == RecvInterrupted)
    ensures Flows(io[1..], k) <==> Flows(io, k + 1)
  {
    if Flows(io[1..], k) {
      forall j | 0 <= j < k + 1 ensures io[j].Data? || io[j] == RecvInterrupted { if j > 0 { assert io[j] == io[1..][j - 1]; } }
    }
    if Flows(io, k + 1) {
      forall j | 0 <= j < k ensures io[1..][j].Data? || io[1..][j] == RecvInterrupted { assert io[1..][j] == io[j + 1]; }
    }
  }

  /** Only the first answer makes the line too long at once. */
  lemma OverflowsFirst(buffered: nat, io: seq<RecvResult>, k: nat)
    requires 0 < k && Flows(io, k) && buffered <= MAX_LINE
    ensures var b := if io[0].Data? then io[0].bytes else [];
            && (k == 1 ==> DataOf(io[..k]) == b && (Overflows(buffered, io, k) <==> buffered + |b| > MAX_LINE))
            && (k > 1 && buffered + |b| > MAX_LINE ==> !Overflows(buffered, io, k))
  {
    if k == 1 {
      assert io[..0] == [] && io[..1] == [io[0]] + [];
      DataHead(io[0], []);
    } else {
      StopsLater(buffered, io, k - 2);
    }
  }

  /** What arrives up to there is what is received, and why it stops is told. */
  lemma {:induction false} ReceiveIs(buffered: nat, io: seq<RecvResult>, k: nat)
    requires buffered <= MAX_LINE
    ensures Dries(io, k) && buffered + |DataOf(io[..k])| <= MAX_LINE ==>
              Receive(buffered, io) == Burst(DataOf(io[..k]), false, false)
    ensures HangsUp(io, k) && buffered + |DataOf(io[..k])| <= MAX_LINE ==>
              Receive(buffered, io) == Burst(DataOf(io[..k]), true, false)
    ensures Overflows(buffered, io, k) ==> Receive(buffered, io) == Burst(DataOf(io[..k]), false, true)
    decreases |io|
  {
    if 0 < k && Flows(io, k) {
      hide Dries, HangsUp, Overflows, DataOf;
      FlowsParts(io, k);
      var b := if io[0].Data? then |io[0].bytes| else 0;
      StopsLater(buffered, io, k - 1);
      OverflowsFirst(buffered, io, k);
      if buffered + b <= MAX_LINE {
        ReceiveIs(buffered + b, io[1..], k - 1);
      }
    } else if k == 0 {
      assert io[..0] == [];
    }
  }

  lemma FlowsParts(io: seq<RecvResult>, k: nat)
    requires 0 < k && Flows(io, k)
    ensures 0 < k <= |io| && (io[0].Data? || io[0] == RecvInterrupted)
  {
  }

  /** Every burst stops in one of these ways. */
  lemma {:induction false} ReceiveStops(buffered: nat, io: seq<RecvResult>) returns (k: nat)
    requires buffered <= MAX_LINE
    ensures k <= |io|
    ensures Overflows(buffered, io, k) || ((Dries(io, k) || HangsUp(io, k)) && buffered + |DataOf(io[..k])| <= MAX_LINE)
    decreases |io|
  {
    if io == [] || io[0] == RecvWouldBlock || io[0] == Ended { return 0; }
    var b := if io[0].Data? then |io[0].bytes| else 0;
    if buffered + b > MAX_LINE {
      OverflowsFirst(buffered, io, 1);
      return 1;
    }
    k := ReceiveStops(buffered + b, io[1..]);
    StopsLater(buffered, io, k);
    k := k + 1;
  }

  /** The peer hangs up, or sends a line that is too long. */
  ghost predicate CutOff(buffered: nat, io: seq<RecvResult>) {
    exists k :: HangsUp(io, k) || Overflows(buffered, io, k)
  }

  /** A burst ends the connection for these reasons only. */
  lemma ReceiveCutsOff(buffered: nat, io: seq<RecvResult>)
    requires buffered <= MAX_LINE
    ensures Receive(buffered, io).ended || Receive(buffered, io).tooLong <==> CutOff(buffered, io)
    ensures !CutOff(buffered, io) ==> buffered + |Receive(buffered, io).data| <= MAX_LINE
  {
    hide Receive, DataOf;
    var k := ReceiveStops(buffered, io);
    ReceiveIs(buffered, io, k);
    if j :| HangsUp(io, j) || Overflows(buffered, io, j) { ReceiveIs(buffered, io, j); }
  }

  /** What was handled are the first lines received, whatever is still buffered. */
  lemma {:induction false} HandledIsPrefix(handled: seq<bytes>, input: bytes)
    requires forall l :: l in handled ==> NEWLINE !in l
    ensures Segments(Joined(handled) + input) == Split(handled + Segments(input).lines, Segments(input).tail)
  {
    if input == [] {
      SegmentsUnique(handled, []);
    } else {
      var n := |input| - 1;
      HandledIsPrefix(handled, input[..n]);
      assert (Joined(handled) + input)[..|Joined(handled)| + n] == Joined(handled) + input[..n];
    }
  }

  class Client {
    var input: bytes
    var out: bytes
    var outOff: nat
    var subscribed: bool
    var closing: bool
    ghost var received: bytes       // everything recv returned
    ghost var handled: seq<bytes>   // the lines handed to handle_line
    ghost var appended: bytes       // every message queued, with its newline
    ghost var sent: bytes           // everything send took

    /** Sent plus pending is exactly what was queued, and pending is bounded. */
    ghost predicate OutputSound()
      reads this`out, this`outOff, this`appended, this`sent
    {
      && outOff <= |out|
      && appended == sent + out[outOff..]
      && |out| - outOff <= MAX_PENDING_OUT + 1
    }

    /** What was handled, then what is buffered, is exactly what was received. */
    ghost predicate InputSound()
      reads this`received, this`handled, this`input
    {
      HandledThen(input)
    }

    /** What was handled, then `rest`, is exactly what was received. */
    ghost predicate HandledThen(rest: bytes)
      reads this`received, this`handled
    {
      && received == Joined(handled) + rest
      && forall l :: l in handled ==> NEWLINE !in l
    }

    lemma AppendedIs()
      requires OutputSound()
      ensures outOff <= |out| && appended == sent + out[outOff..] && Pending() <= MAX_PENDING_OUT + 1
    {
    }

    ghost predicate Valid()
      reads this
    {
      OutputSound() && InputSound() && (closing || (NEWLINE !in input && |input| <= MAX_LINE))
    }

    /** What is queued and not yet sent. */
    ghost function Pending(): nat
      reads this`out, this`outOff
    {
      Behind(|out|, outOff)
    }

    constructor ()
      ensures Valid() && !closing && !subscribed && received == [] && handled == [] && appended == [] && sent == []
    {
      input, out, outOff, subscribed, closing := [], [], 0, false, false;
      received, handled, appended, sent := [], [], [], [];
    }

    /** Send until the socket is full or fails, or nothing is pending. */
    method SendPending(io: seq<SendResult>) returns (ok: bool)
      requires outOff <= |out|
      modifies this`outOff, this`sent
      ensures old(outOff) <= outOff <= |out|
      ensures outOff == old(outOff) + Drain(|out| - old(outOff), io).n && ok == Drain(|out| - old(outOff), io).ok
      ensures sent == old(sent) + out[old(outOff)..outOff]
    {
      hide Drain, Min;
      var k := 0;
      ghost var n, was := outOff, sent;
      var queued := out;
      DrainNone(|queued| - n, io);
      assert sent == was + queued[n..n];
      while outOff < |queued|
        invariant k <= |io| && n <= outOff <= |queued|
        invariant out == queued && sent == was + queued[n..outOff]
        invariant Drain(|queued| - n, io).ok == Drain(|queued| - outOff, io[k..]).ok
        invariant n + Drain(|queued| - n, io).n == outOff + Drain(|queued| - outOff, io[k..]).n
        decreases |io| - k
      {
        if k == |io| {
          DrainNone(|queued| - outOff, io);
          return true;
        }
        DrainStep(|queued| - outOff, io, k);
        match io[k] {
          case Sent(w) =>
            if w == 0 { return false; }
            var r := Min(w, |queued| - outOff);
            MinIs(w, |queued| - outOff);
            MoreSent(was, queued, n, outOff, outOff + r);
            sent := sent + queued[outOff..outOff + r];
            outOff := outOff + r;
          case Interrupted =>
          case WouldBlock =>
            return true;
          case Failed =>
            return false;
        }
        k := k + 1;
      }
      DrainNone(|queued| - outOff, io[k..]);
      ok := true;
    }

    method FlushOut(io: seq<SendResult>)
      requires OutputSound()
      modifies this`out, this`outOff, this`closing, this`sent
      ensures OutputSound() && appended == old(appended) && unchanged(`input, `handled, `received, `subscribed)
      ensures var f := Drain(|old(out)| - old(outOff), io);
              sent == old(sent) + old(out)[old(outOff)..old(outOff) + f.n] && closing == (old(closing) || !f.ok)
      ensures !closing ==> outOff <= COMPACT_AT
      ensures Pending() <= old(Pending()) && (old(closing) || !closing || Breaks(io))
      ensures Takes(io, old(Pending())) ==> sent == appended
    {
      hide Drain, Breaks;
      DrainEnds(|out| - outOff, io);
      var ok := SendPending(io);
      assert old(out)[old(outOff)..] == old(out)[old(outOff)..outOff] + out[outOff..];
      if !ok {
        closing := true;
        return;
      }
      if outOff == |out| {
        out, outOff := [], 0;
      } else if outOff > COMPACT_AT {
        out, outOff := out[outOff..], 0;
      }
    }

    /** Queue one message and push what is pending; a reader too far behind is cut off. */
    method Send(r: Reply)
      requires OutputSound()
      modifies this`out, this`outOff, this`closing, this`sent, this`appended
      ensures OutputSound() && (old(closing) ==> closing)
      ensures appended == old(appended) + (if old(Pending()) + |r.message| <= MAX_PENDING_OUT then r.message + [NEWLINE] else [])
      ensures old(Pending()) + |r.message| > MAX_PENDING_OUT ==> closing && sent == old(sent)
      ensures Pending() <= old(Pending()) + |r.message| + 1
      ensures closing ==> old(closing) || old(Pending()) + |r.message| > MAX_PENDING_OUT || Breaks(r.io)
      ensures (old(sent) == old(appended) || old(Pending()) + |r.message| <= MAX_PENDING_OUT) && Ready(r) ==> sent == appended
      ensures unchanged(`input, `handled, `received, `subscribed)
    {
      hide Drain, Breaks;
      if |out| - outOff + |r.message| > MAX_PENDING_OUT {
        closing := true;
        return;
      }
      out := out + r.message + [NEWLINE];
      appended := appended + r.message + [NEWLINE];
      if Ready(r) { ReadyTakes(r, Pending()); }
      FlushOut(r.io);
    }

    /** Everything a request handler answers. */
    method Answer(replies: seq<Reply>)
      requires OutputSound()
      modifies this`out, this`outOff, this`closing, this`sent, this`appended
      ensures OutputSound() && (old(closing) ==> closing)
      ensures !closing ==> appended == old(appended) + Joined(Messages(replies))
      ensures Pending() <= old(Pending()) + |Joined(Messages(replies))|
      ensures closing ==> old(closing) || !Quiet(replies) || old(Pending()) + |Joined(Messages(replies))| > MAX_PENDING_OUT
      ensures old(sent) == old(appended) && (forall r :: r in replies ==> Ready(r)) ==> sent == appended
    {
      hide Ready, Joined, Messages, Drain, Segments, Breaks;
      NoMessages(replies);
      for i := 0 to |replies|
        invariant OutputSound() && (old(closing) ==> closing)
        invariant !closing ==> appended == old(appended) + Joined(Messages(replies[..i]))
        invariant Pending() <= old(Pending()) + |Joined(Messages(replies[..i]))|
        invariant old(sent) == old(appended) && (forall r :: r in replies ==> Ready(r)) ==> sent == appended
        invariant closing ==>
                    old(closing) || !Quiet(replies) || old(Pending()) + |Joined(Messages(replies[..i]))| > MAX_PENDING_OUT
      {
        Send(replies[i]);
        assert replies[..i + 1] == replies[..i] + [replies[i]];
        MessagesAppend(replies[..i], replies[i]);
        Queue(old(appended), Joined(Messages(replies[..i])), replies[i].message);
      }
      assert replies[..|replies|] == replies;
    }

    /** handle_line: empty lines are ignored, others answered. */
    method HandleLine(line: bytes, handling: Handling)
      requires OutputSound()
      modifies this`out, this`outOff, this`closing, this`sent, this`appended, this`handled, this`subscribed
      ensures OutputSound() && (old(closing) ==> closing)
      ensures handled == old(handled) + [line] && unchanged(`input, `received)
      ensures line == [] ==> appended == old(appended) && closing == old(closing)
      ensures line != [] && !closing ==> appended == old(appended) + Joined(Messages(handling.replies))
      ensures subscribed == if line != [] && handling.subscribe.Some? then handling.subscribe.value else old(subscribed)
      ensures subscribed == SubscribedAfter(old(subscribed), handling.subscribe, line)
      ensures old(sent) == old(appended) && Prompt(handling) ==> sent == appended
      ensures !closing ==> appended == old(appended) + Joined(AnswerTo(handling.replies, line))
      ensures Pending() <= old(Pending()) + |Joined(AnswerTo(handling.replies, line))|
      ensures closing ==> old(closing) || Worsens(old(Pending()), handling.replies, line)
    {
      hide Drain, Ready, Segments, Quiet, Joined, Messages, Client.OutputSound;
      NoLines();
      handled := handled + [line];
      if line == [] { return; }
      if handling.subscribe.Some? { subscribed := handling.subscribe.value; }
      Answer(handling.replies);
    }

    /** Read until nothing more is there. True: the line is too long. */
    method ReadBurst(io: seq<RecvResult>) returns (tooLong: bool)
      modifies this`input, this`closing, this`received
      ensures var b := Receive(|old(input)|, io);
              && input == old(input) + b.data && received == old(received) + b.data
              && tooLong == b.tooLong && closing == (old(closing) || b.ended)
      ensures unchanged(`out, `outOff, `handled, `appended, `sent, `subscribed)
    {
      var k := 0;
      ghost var got: bytes := [];
      assert io[0..] == io;
      while k < |io|
        invariant k <= |io| && closing == old(closing)
        invariant input == old(input) + got && received == old(received) + got
        invariant var b := Receive(|input|, io[k..]); Receive(|old(input)|, io) == b.(data := got + b.data)
      {
        assert io[k..][1..] == io[k + 1..];
        match io[k] {
          case Data(b) =>
            Assoc(old(input), got, b);
            Assoc(old(received), got, b);
            input, received := input + b, received + b;
            ghost var rest := Receive(|input|, io[k + 1..]).data;
            Assoc(got, b, rest);
            got := got + b;
            if |input| > MAX_LINE { return true; }
          case RecvInterrupted =>
          case RecvWouldBlock =>
            return false;
          case Ended =>
            closing := true;
            return false;
        }
        k := k + 1;
      }
      tooLong := false;
    }

    /** Take one line off what is buffered, and answer it. */
    method Take(line: bytes, ghost rest: bytes, handling: Handling)
      requires OutputSound() && HandledThen(line + [NEWLINE] + rest) && NEWLINE !in line
      modifies this`out, this`outOff, this`closing, this`sent, this`appended, this`handled, this`subscribed
      ensures subscribed == SubscribedAfter(old(subscribed), handling.subscribe, line)
      ensures OutputSound() && HandledThen(rest) && (old(closing) ==> closing)
      ensures handled == old(handled) + [line] && unchanged(`input, `received)
      ensures !closing ==> appended == old(appended) + Joined(AnswerTo(handling.replies, line))
      ensures Pending() <= old(Pending()) + |Joined(AnswerTo(handling.replies, line))|
      ensures closing ==> old(closing) || Worsens(old(Pending()), handling.replies, line)
      ensures old(sent) == old(appended) && Prompt(handling) ==> sent == appended
    {
      hide Joined, AnswerTo, Client.OutputSound, Worsens, Prompt;
      JoinedAppend(handled, line);
      HandleLine(line, handling);
      assert received == Joined(handled) + rest;
    }

    /** Hand over every complete line, in order, unless one of them ends the connection. */
    method HandleLines(handler: nat -> Handling)
      requires OutputSound() && InputSound()
      modifies this`input, this`out, this`outOff, this`closing, this`sent, this`appended, this`handled, this`subscribed
      ensures OutputSound() && InputSound() && (old(closing) ==> closing)
      ensures closing || NEWLINE !in input
      ensures old(handled) <= handled
      ensures subscribed == Subscribed(old(subscribed), handler, handled[|old(handled)|..])
      ensures !closing ==> appended == old(appended) + Joined(Answers(handler, handled[|old(handled)|..]))
      ensures old(closing) ==> handled == old(handled) && appended == old(appended)
      ensures closing ==> old(closing) || Troubled(old(Pending()), handler, handled[|old(handled)|..])
      ensures old(sent) == old(appended) && (forall k :: Prompt(handler(k))) ==> sent == appended
      ensures |input| <= old(|input|) && unchanged(`received)
    {
      hide Prompt, Troubled, Worsens, Drain, Segments, Answers, AnswerTo, Subscribed, SubscribedAfter, Client.OutputSound, Client.HandledThen, Joined;
      var start := 0;
      var i := 0;
      var count := 0;
      ghost var all := input;
      ghost var lines: seq<bytes> := [];
      assert all[0..] == all;
      NoAnswers(appended, handler);
      NoAnswers([], handler);
      SubscribedMore(subscribed, handler, [], []);
      while i < |input| && !closing
        invariant start <= i <= |input| && input == all
        invariant OutputSound() && (old(closing) ==> closing)
        invariant HandledThen(all[start..])
        invariant NEWLINE !in all[start..i]
        invariant handled == old(handled) + lines && count == |lines|
        invariant subscribed == Subscribed(old(subscribed), handler, lines)
        invariant !closing ==> appended == old(appended) + Joined(Answers(handler, lines))
        invariant old(closing) ==> lines == [] && appended == old(appended)
        invariant closing ==> old(closing) || Troubled(old(Pending()), handler, lines)
        invariant Pending() <= old(Pending()) + |Joined(Answers(handler, lines))|
        invariant old(sent) == old(appended) && (forall k :: Prompt(handler(k))) ==> sent == appended
      {
        if input[i] == NEWLINE {
          var line := input[start..i];
          Cut(all, start, i);
          AnswersAppend(old(appended), handler, lines, line);
          TroubleGrows(old(Pending()), handler, lines, line);
          WorseBehind(Pending(), old(Pending()) + |Joined(Answers(handler, lines))|, handler(|lines|).replies, line);
          Assoc(old(handled), lines, [line]);
          SubscribedMore(old(subscribed), handler, lines, line);
          var handling := handler(count);
          Take(line, all[i + 1..], handling);
          assert handling == handler(|lines|);
          lines, count := lines + [line], count + 1;
          start := i + 1;
        }
        i := i + 1;
      }
      input := input[start..];
      assert handled[|old(handled)|..] == lines;
    }

    /** Read what is there; who sends too much in a line is told so and cut off. */
    method Read(burst: seq<RecvResult>, complaint: Reply)
      requires OutputSound() && InputSound() && (closing || |input| <= MAX_LINE)
      modifies this`input, this`out, this`outOff, this`closing, this`sent, this`appended, this`received
      ensures OutputSound() && InputSound() && (closing || |input| <= MAX_LINE)
      ensures var b := Receive(|old(input)|, burst);
              && received == old(received) + b.data
              && (b.tooLong ==> Complained(complaint.message) && closing)
              && (!b.tooLong ==> unchanged(`out, `outOff, `appended, `sent))
              && (old(sent) == old(appended) && Ready(complaint) ==> sent == appended)
      ensures !old(closing) ==> (closing <==> CutOff(|old(input)|, burst))
      ensures (old(closing) ==> closing) && unchanged(`handled, `subscribed)
    {
      hide Receive, Joined, CutOff, Drain, Client.OutputSound, Breaks, Ready;
      if !closing { ReceiveCutsOff(|input|, burst); }
      Assoc(Joined(handled), input, Receive(|input|, burst).data);
      var tooLong := ReadBurst(burst);
      if tooLong {
        Send(complaint);
        closing := true;
      }
    }

    /** The client was told so, if there was room for it. */
    twostate predicate Complained(message: bytes)
      reads this`appended, this`out, this`outOff
    {
      old(Pending()) + |message| <= MAX_PENDING_OUT ==> appended == old(appended) + message + [NEWLINE]
    }

    /**
     * One readiness event. While the client lives, the lines handled are exactly
     * the newline-terminated segments of everything received and the tail is kept,
     * and what was sent plus what is pending has grown by the answers to those
     * lines, in order. It is freed because it was closing already, because a
     * socket failed or the answers do not fit, or because the peer hung up or sent
     * too long a line; then the lines of this burst go unanswered, and what is
     * queued is sent as far as the socket takes it.
     */
    method OnClient(writable: bool, readable: bool, io: seq<SendResult>, burst: seq<RecvResult>,
                    handler: nat -> Handling, complaint: Reply, lastIo: seq<SendResult>) returns (freed: bool)
      requires Valid()
      modifies this`input, this`out, this`outOff, this`closing, this`sent, this`appended, this`handled, this`received,
               this`subscribed
      ensures Valid() && freed == closing
      ensures received == old(received) + if readable then Receive(|old(input)|, burst).data else []
      ensures !freed ==> handled == Segments(received).lines && input == Segments(received).tail
      ensures old(handled) <= handled <= Segments(received).lines
      ensures subscribed == Subscribed(old(subscribed), handler, handled[|old(handled)|..])
      ensures !freed ==> sent + out[outOff..] == old(sent + out[outOff..])
                           + Joined(Answers(handler, handled[|old(handled)|..]))
      ensures freed ==> || old(closing) || (writable && Breaks(io)) || (readable && CutOff(|old(input)|, burst))
                        || (readable && Troubled(old(Pending()), handler, handled[|old(handled)|..]))
      ensures old(closing) || (readable && CutOff(|old(input)|, burst)) ==> freed && handled == old(handled)
      ensures readable && Receive(|old(input)|, burst).tooLong ==> Complained(complaint.message)
      ensures freed && Takes(lastIo, MAX_PENDING_OUT + 1) ==> sent == appended
      ensures !freed && old(sent) == old(appended) && (forall k :: Prompt(handler(k))) ==> sent == appended
    {
      hide Prompt, Ready, Receive, Drain, Segments, Joined, Answers, Subscribed, Troubled, Breaks, Takes, CutOff, Client.OutputSound;
      SubscribedMore(subscribed, handler, [], []);
      NoAnswers(appended, handler);
      AppendedIs();
      assert handled[|handled|..] == [];
      if writable { FlushOut(io); }
      if readable {
        ghost var p := Pending();
        Read(burst, complaint);
        HandleLines(handler);
        TroubleBehind(p, old(Pending()), handler, handled[|old(handled)|..]);
      }
      HandledIsPrefix(handled, input);
      AppendedIs();
      if closing {
        ghost var left := Pending();
        FlushOut(lastIo);
        if Takes(lastIo, MAX_PENDING_OUT + 1) { TakesLess(lastIo, MAX_PENDING_OUT + 1, left); }
      } else { SegmentsUnique(handled, input); }
      freed := closing;
    }
  }

  lemma Assoc<T>(x: seq<T>, y: seq<T>, z: seq<T>)
    ensures (x + y) + z == x + (y + z)
  {
  }

  lemma Cut(s: bytes, start: nat, i: nat)
    requires start <= i < |s| && s[i] == NEWLINE
    ensures s[start..] == s[start..i] + [NEWLINE] + s[i + 1..]
  {
  }

  // ---- all clients -------------------------------------------------------------------

  class Hub {
    var clients: seq<Client>
    var reapTimer: bool

    constructor ()
      ensures clients == [] && !reapTimer
    {
      clients, reapTimer := [], false;
    }

    ghost predicate Valid()
      reads this, clients
    {
      && (forall i, j :: 0 <= i < j < |clients| ==> clients[i] != clients[j])
      && (forall c :: c in clients ==> c.Valid())
    }

    /** c got the message if it is an open subscriber with room for it; else, or if its socket fails, it is cut off. */
    twostate predicate Told(c: Client, message: bytes, io: seq<SendResult>)
      reads c
    {
      && c.subscribed == old(c.subscribed)
      && if !c.subscribed || old(c.closing) then c.appended == old(c.appended) && c.closing == old(c.closing)
         else if old(c.Pending()) + |message| <= MAX_PENDING_OUT then
           c.appended == old(c.appended) + message + [NEWLINE] && (c.closing ==> Breaks(io))
           && (Ready(Reply(message, io)) ==> c.sent == c.appended)
         else c.closing && c.appended == old(c.appended)
    }

    /** An event for every subscriber; those too far behind are marked for the reaper. */
    method Broadcast(message: bytes, io: seq<seq<SendResult>>)
      requires Valid() && |io| == |clients|
      modifies this`reapTimer, clients
      ensures Valid() && reapTimer
      ensures clients == old(clients) && forall k :: 0 <= k < |clients| ==> Told(clients[k], message, io[k])
    {
      hide Segments, Joined, Drain, Breaks, Ready;
      for i := 0 to |clients|
        invariant Valid() && clients == old(clients)
        invariant forall k :: i <= k < |clients| ==> unchanged(clients[k])
        invariant forall k :: 0 <= k < i ==> Told(clients[k], message, io[k])
      {
        var c := clients[i];
        assert c in clients && c.Valid() && unchanged(c);
        if c.subscribed && !c.closing { c.Send(Reply(message, io[i])); }
      }
      reapTimer := true;
    }

    /** Free the clients that failed, from a fresh turn of the loop. */
    method OnReap()
      requires Valid()
      modifies this
      ensures Valid() && !reapTimer
      ensures forall c :: c in clients <==> c in old(clients) && !c.closing
    {
      reapTimer := false;
      var rest: seq<Client> := [];
      for i := 0 to |clients|
        invariant clients == old(clients) && Valid()
        invariant forall c :: c in rest <==> c in clients[..i] && !c.closing
        invariant forall i, j :: 0 <= i < j < |rest| ==> rest[i] != rest[j]
      {
        assert clients[i] !in clients[..i];
        if !clients[i].closing { rest := rest + [clients[i]]; }
        assert clients[..i + 1] == clients[..i] + [clients[i]];
      }
      clients := rest;
    }
  }
}
