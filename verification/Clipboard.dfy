/**
 * What daemon/src/buffers.c asks of its neighbours, answered by them: the
 * sources of serve.c and the current clip of capture.c step as Buffers.State
 * says they do.
 */
module Clipboard {
  import opened Bytes
  import Buffers
  import Capture
  import opened Mime
  import Serve

  ghost predicate Falling(numbers: seq<nat>) {
    forall i, j :: 0 <= i < j < |numbers| ==> numbers[i] > numbers[j]
  }

  ghost predicate Lists(numbers: seq<nat>, faces: seq<Buffers.Source>, sources: map<nat, Buffers.Source>) {
    && |numbers| == |faces|
    && (forall n :: n in sources <==> n in numbers)
    && (forall i :: 0 <= i < |numbers| ==> sources[numbers[i]] == faces[i])
  }

  /**
   * v from outside: numbers says when each live source was created, newest first,
   * faces what it serves, and at which of them is current.
   */
  ghost predicate Pictured(numbers: seq<nat>, faces: seq<Buffers.Source>, at: Option<nat>, captured: int, v: Buffers.State) {
    && |numbers| == |faces| && Falling(numbers) && Lists(numbers, faces, v.sources)
    && (forall n :: n in numbers ==> n < v.created)
    && (at.Some? ==> at.value < |numbers|)
    && v.current == (if at.Some? then Some(numbers[at.value]) else None)
    && v.captured == captured
  }

  lemma ServePictured(numbers: seq<nat>, faces: seq<Buffers.Source>, at: Option<nat>, captured: int, v: Buffers.State, clip: int)
    requires Pictured(numbers, faces, at, captured, v)
    ensures Pictured([v.created] + numbers, [Buffers.Source(clip, false)] + faces, Some(0), clip, v.Serve(clip))
  {
    hide Lists;
    ListsMore(numbers, faces, v.sources, v.created, Buffers.Source(clip, false));
    var more := [v.created] + numbers;
    assert forall n :: n in more <==> n == v.created || n in numbers;
    forall i, j | 0 <= i < j < |more| ensures more[i] > more[j] {
      assert more[j] == numbers[j - 1] && more[j] in numbers;
      assert i > 0 ==> more[i] == numbers[i - 1];
    }
  }

  lemma ListsMore(numbers: seq<nat>, faces: seq<Buffers.Source>, sources: map<nat, Buffers.Source>, n: nat, face: Buffers.Source)
    requires Lists(numbers, faces, sources) && n !in numbers
    ensures Lists([n] + numbers, [face] + faces, sources[n := face])
  {
    var (more, shown) := ([n] + numbers, [face] + faces);
    assert forall x :: x in more <==> x == n || x in numbers;
    forall k | 0 <= k < |more| ensures sources[n := face][more[k]] == shown[k] {
      if k > 0 {
        assert more[k] == numbers[k - 1] && more[k] in numbers && shown[k] == faces[k - 1];
      }
    }
  }

  lemma AskPictured(numbers: seq<nat>, faces: seq<Buffers.Source>, at: Option<nat>, captured: int, v: Buffers.State, i: nat, wants: bool)
    requires Pictured(numbers, faces, at, captured, v) && i < |faces|
    ensures var n := numbers[i];
            && v.sources[n] == faces[i]
            && Pictured(numbers, faces[i := faces[i].(wantsRead := wants)], at, captured,
                        v.(sources := v.sources[n := v.sources[n].(wantsRead := wants)]))
            && (wants == faces[i].wantsRead ==> v.sources[n := v.sources[n].(wantsRead := wants)] == v.sources)
            && (!wants && faces[i].wantsRead ==> v.sources[n := v.sources[n].(wantsRead := wants)] == v.Read(n).sources)
            && (!faces[i].wantsRead ==> v.Read(n).sources == v.sources)
  {
  }

  /** Where the current source is once the i-th is gone. */
  function AtWithout(at: Option<nat>, i: nat): Option<nat> {
    if at == Some(i) then None else if at.Some? && at.value > i then Some(at.value - 1) else at
  }

  lemma CancelPictured(numbers: seq<nat>, faces: seq<Buffers.Source>, at: Option<nat>, captured: int, v: Buffers.State, i: nat)
    requires Pictured(numbers, faces, at, captured, v) && i < |faces|
    ensures Pictured(Serve.Without(numbers, i), Serve.Without(faces, i), AtWithout(at, i), captured, v.Cancel(numbers[i]))
  {
    hide Serve.Without, Falling, Lists;
    FallingWithout(numbers, i);
    ListsWithout(numbers, faces, v.sources, i);
    WithoutAt(numbers, i);
    if at.Some? && at != Some(i) {
      assert Skip(AtWithout(at, i).value, i) == at.value;
      assert Serve.Without(numbers, i)[AtWithout(at, i).value] == numbers[at.value];
      assert numbers[at.value] in Serve.Without(numbers, i);
    }
  }

  lemma FallingWithout(numbers: seq<nat>, i: nat)
    requires Falling(numbers) && i < |numbers|
    ensures Falling(Serve.Without(numbers, i)) && forall n :: n in Serve.Without(numbers, i) <==> n in numbers && n != numbers[i]
  {
    hide Serve.Without;
    Serve.WithoutMembers(numbers, i);
    WithoutAt(numbers, i);
    var less := Serve.Without(numbers, i);
    forall a, b | 0 <= a < b < |less| ensures less[a] > less[b] {
      assert Skip(a, i) < Skip(b, i) && less[a] == numbers[Skip(a, i)] && less[b] == numbers[Skip(b, i)];
    }
  }

  lemma ListsWithout(numbers: seq<nat>, faces: seq<Buffers.Source>, sources: map<nat, Buffers.Source>, i: nat)
    requires Falling(numbers) && Lists(numbers, faces, sources) && i < |numbers|
    ensures Lists(Serve.Without(numbers, i), Serve.Without(faces, i), sources - {numbers[i]})
  {
    hide Serve.Without, Falling;
    FallingWithout(numbers, i);
    WithoutAt(numbers, i);
    WithoutAt(faces, i);
    var less := Serve.Without(numbers, i);
    forall k | 0 <= k < |less| ensures less[k] in sources - {numbers[i]} && sources[less[k]] == Serve.Without(faces, i)[k] {
      assert less[k] in less;
      assert less[k] == numbers[Skip(k, i)] && Serve.Without(faces, i)[k] == faces[Skip(k, i)];
    }
  }

  function Skip(k: nat, i: nat): nat { if k < i then k else k + 1 }

  lemma WithoutAt<T>(s: seq<T>, i: nat)
    requires i < |s|
    ensures forall k: nat :: k < |s| - 1 ==> Serve.Without(s, i)[k] == s[Skip(k, i)]
  {
  }

  ghost function Face(src: Serve.Source): Buffers.Source
    reads src
  {
    Buffers.Source(src.clipId, src.wantsRead)
  }

  ghost function Faces(ss: seq<Serve.Source>): (faces: seq<Buffers.Source>)
    reads ss
    ensures |faces| == |ss|
    ensures forall i :: 0 <= i < |ss| ==> faces[i] == Face(ss[i])
  {
    if ss == [] then [] else [Face(ss[0])] + Faces(ss[1..])
  }

  lemma FacesMore(ss: seq<Serve.Source>)
    requires ss != []
    ensures Faces(ss) == [Face(ss[0])] + Faces(ss[1..])
  {
  }

  /** Where the current source is among the live ones. */
  ghost predicate IsAt(current: Serve.Source?, ss: seq<Serve.Source>, at: Option<nat>) {
    match at
    case None => current == null
    case Some(i) => i < |ss| && current == ss[i]
  }

  /** v is what s and c look like to buffers.c. */
  ghost predicate Mirrors(s: Serve.Serve, c: Capture.Capture, numbers: seq<nat>, v: Buffers.State)
    reads s, s.sources, c
  {
    exists at :: IsAt(s.current, s.sources, at) && Pictured(numbers, Faces(s.sources), at, c.CurrentClip(), v)
  }

  lemma Look(s: Serve.Serve, c: Capture.Capture, numbers: seq<nat>, v: Buffers.State) returns (at: Option<nat>)
    requires Mirrors(s, c, numbers, v)
    ensures IsAt(s.current, s.sources, at) && Pictured(numbers, Faces(s.sources), at, c.CurrentClip(), v)
  {
    at :| IsAt(s.current, s.sources, at) && Pictured(numbers, Faces(s.sources), at, c.CurrentClip(), v);
  }

  lemma Seen(s: Serve.Serve, c: Capture.Capture, numbers: seq<nat>, at: Option<nat>, v: Buffers.State)
    requires IsAt(s.current, s.sources, at) && Pictured(numbers, Faces(s.sources), at, c.CurrentClip(), v)
    ensures Mirrors(s, c, numbers, v)
  {
  }

  lemma SourcesDiffer(s: Serve.Serve)
    requires s.Valid()
    ensures Serve.Distinct(s.sources)
  {
  }

  /** serve_current. */
  method ServeCurrent(s: Serve.Serve, c: Capture.Capture, ghost numbers: seq<nat>, ghost v: Buffers.State) returns (clip: int)
    requires Mirrors(s, c, numbers, v)
    ensures clip == v.Served()
  {
    clip := s.Current();
  }

  /** serve_clip: the new source replaces the current one, and its clip becomes current. */
  method ServeClip(s: Serve.Serve, c: Capture.Capture, ghost numbers: seq<nat>, ghost v: Buffers.State,
                   loaded: Option<Serve.Content>, clip: int, connected: bool)
    returns (ok: bool, ghost numbers': seq<nat>)
    requires s.Valid() && s.Settled() && c.Valid() && Mirrors(s, c, numbers, v)
    modifies s, c
    ensures s.Valid() && s.Settled() && c.Valid() && ok == (loaded.Some? && connected)
    ensures Mirrors(s, c, numbers', if ok then v.Serve(clip) else v)
  {
    hide Serve.Serve.Valid, Serve.Serve.Settled, Capture.Capture.Valid, Faces, Mirrors, Pictured;
    ghost var at := Look(s, c, numbers, v);
    ghost var faces, captured, was := Faces(s.sources), c.CurrentClip(), s.sources;
    numbers' := numbers;
    ghost var made;
    ok, made := s.Own(loaded, clip, connected);
    if ok {
      c.SetCurrentClip(clip);
      numbers' := [v.created] + numbers;
      ServePictured(numbers, faces, at, captured, v, clip);
      FacesMore(s.sources);
      assert s.sources[1..] == was && Faces(was) == faces;
      Seen(s, c, numbers', Some(0), v.Serve(clip));
    } else {
      Seen(s, c, numbers, at, v);
    }
  }

  /** A reader asks the i-th source for `mime`; the callback is told exactly when content is first read. */
  method Send(s: Serve.Serve, c: Capture.Capture, ghost numbers: seq<nat>, ghost v: Buffers.State,
              i: nat, mime: string, fd: int, io: seq<Serve.WriteResult>, watched: bool)
    returns (firstRead: bool)
    requires s.Valid() && s.Settled() && Mirrors(s, c, numbers, v) && i < |s.sources|
    modifies s, s.sources, s.born
    ensures s.Valid() && s.Settled() && s.sources == old(s.sources)
    ensures |numbers| == |s.sources| && numbers[i] in v.sources
    ensures var content := mime != MIME_MARKER && mime in Serve.NameMap(s.sources[i].pl.cp.fmts);
            && firstRead == (content && v.sources[numbers[i]].wantsRead)
            && Mirrors(s, c, numbers, v.(sources := if content then v.Read(numbers[i]).sources else v.sources))
  {
    hide Serve.Serve.Valid, Serve.Serve.Settled, Capture.Capture.Valid, Faces, Mirrors, Pictured, Serve.NameMap, Serve.Asked;
    ghost var at := Look(s, c, numbers, v);
    ghost var faces, was := Faces(s.sources), s.sources[i].wantsRead;
    SourcesDiffer(s);
    PicturedAt(numbers, faces, at, c.CurrentClip(), v, i);
    Serve.HeldBytesAreAlive(s, s.sources[i].pl);
    firstRead := s.OnSend(s.sources[i], mime, fd, io, watched);
    AskPictured(numbers, faces, at, c.CurrentClip(), v, i, was && !firstRead);
    assert Faces(s.sources) == faces[i := faces[i].(wantsRead := was && !firstRead)];
    Seen(s, c, numbers, at, v.(sources := v.sources[numbers[i] := v.sources[numbers[i]].(wantsRead := was && !firstRead)]));
  }

  lemma PicturedAt(numbers: seq<nat>, faces: seq<Buffers.Source>, at: Option<nat>, captured: int, v: Buffers.State, i: nat)
    requires Pictured(numbers, faces, at, captured, v) && i < |faces|
    ensures |numbers| == |faces| && numbers[i] in v.sources && v.sources[numbers[i]] == faces[i]
  {
  }

  /** serve_on_first_read, right after a serve. */
  method OnFirstRead(s: Serve.Serve, c: Capture.Capture, ghost numbers: seq<nat>, ghost v: Buffers.State)
    requires s.Valid() && s.Settled() && Mirrors(s, c, numbers, v) && s.current != null
    modifies s.current
    ensures s.Valid() && s.Settled() && v.current.Some? && v.current.value in v.sources
    ensures var n := v.current.value; Mirrors(s, c, numbers, v.(sources := v.sources[n := v.sources[n].(wantsRead := true)]))
  {
    hide Serve.Serve.Valid, Serve.Serve.Settled, Capture.Capture.Valid, Faces, Mirrors;
    ghost var at := Look(s, c, numbers, v);
    ghost var faces := Faces(s.sources);
    SourcesDiffer(s);
    s.OnFirstRead();
    AskPictured(numbers, faces, at, c.CurrentClip(), v, at.value, true);
    assert Faces(s.sources) == faces[at.value := faces[at.value].(wantsRead := true)];
    Seen(s, c, numbers, at, v.(sources := v.sources[numbers[at.value] := v.sources[numbers[at.value]].(wantsRead := true)]));
  }

  /** The compositor cancels the i-th source. */
  method Cancel(s: Serve.Serve, c: Capture.Capture, ghost numbers: seq<nat>, ghost v: Buffers.State, i: nat)
    returns (ghost numbers': seq<nat>)
    requires s.Valid() && s.Settled() && Mirrors(s, c, numbers, v) && i < |s.sources|
    modifies s, s.born
    ensures s.Valid() && s.Settled() && |numbers| == |old(s.sources)| && Mirrors(s, c, numbers', v.Cancel(numbers[i]))
  {
    hide Serve.Serve.Valid, Serve.Serve.Settled, Capture.Capture.Valid, Faces, Mirrors, Pictured;
    ghost var at := Look(s, c, numbers, v);
    ghost var faces, was := Faces(s.sources), s.sources;
    SourcesDiffer(s);
    PicturedAt(numbers, faces, at, c.CurrentClip(), v, i);
    CancelPictured(numbers, faces, at, c.CurrentClip(), v, i);
    Serve.HeldBytesAreAlive(s, s.sources[i].pl);
    ghost var current := s.current;
    var k := s.OnCancelled(s.sources[i]);
    numbers' := Serve.Without(numbers, i);
    FacesWithout(was, i);
    CurrentWithout(was, i, at, current);
    assert Faces(s.sources) == Serve.Without(faces, i);
    Seen(s, c, numbers', AtWithout(at, i), v.Cancel(numbers[i]));
  }

  /** Taking the i-th source off leaves the others as they are, but for the gap. */
  lemma FacesWithout(ss: seq<Serve.Source>, i: nat)
    requires i < |ss|
    ensures Faces(Serve.Without(ss, i)) == Serve.Without(Faces(ss), i)
  {
    hide Faces, Serve.Without, Face;
    WithoutAt(ss, i);
    WithoutAt(Faces(ss), i);
    var (less, faces) := (Serve.Without(ss, i), Serve.Without(Faces(ss), i));
    forall k | 0 <= k < |less| ensures Faces(less)[k] == faces[k] {
      assert less[k] == ss[Skip(k, i)] && faces[k] == Faces(ss)[Skip(k, i)];
    }
  }

  lemma CurrentWithout(ss: seq<Serve.Source>, i: nat, at: Option<nat>, current: Serve.Source?)
    requires Serve.Distinct(ss) && i < |ss| && IsAt(current, ss, at)
    ensures IsAt(if current == ss[i] then null else current, Serve.Without(ss, i), AtWithout(at, i))
  {
    hide Serve.Without;
    WithoutAt(ss, i);
    if at.Some? && at != Some(i) {
      assert Skip(AtWithout(at, i).value, i) == at.value;
      assert Serve.Without(ss, i)[AtWithout(at, i).value] == ss[at.value];
    }
  }
}
