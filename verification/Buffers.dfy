/**
 * Copy buffers (daemon/src/buffers.c): paste from a buffer, then put the old
 * clip back. The state includes what buffers.c reads of its neighbours: the
 * sources serve.c owns and the clip capture.c takes to be current.
 */
module Buffers {
  import opened Bytes

  const BUFFER_SLOTS := 3
  const RESTORE_AFTER_READ_MS := 300
  const RESTORE_FALLBACK_MS := 3000

  /** A source the compositor has not cancelled yet. */
  datatype Source = Source(clip: int, wantsRead: bool)

  datatype State = State(
    sources: map<nat, Source>, // live sources, by creation number
    created: nat,
    current: Option<nat>,      // serve.c's current source
    captured: int,             // capture.c's current clip, 0 when unknown
    clips: set<int>,           // clips in the database; ids are positive
    slots: map<int, int>,      // copy_buffers
    pasteClip: int,
    pastePrev: int,
    timer: Option<int>,        // the restore timer's delay, while it is armed
    copySlot: int,
    copyPrev: int)
  {
    ghost predicate Valid() {
      && (forall n :: n in sources ==> n < created)
      && (current.Some? ==> current.value in sources)
      && (forall c :: c in clips ==> c > 0)
      && (pasteClip == 0 ==> pastePrev == 0)
    }

    /** serve_current */
    function Served(): int {
      if current.Some? && current.value in sources then sources[current.value].clip else 0
    }

    /** serve_clip when the clip loads: a new source replaces the current one, which stays until cancelled. */
    function Serve(clip: int): State {
      this.(sources := sources[created := Source(clip, false)], created := created + 1,
            current := Some(created), captured := clip)
    }

    /** restore: only when nothing else took the clipboard. `loads`: the old clip can be served. */
    function Restore(loads: bool): State {
      if pastePrev != 0 && Served() == pasteClip && pastePrev in clips && loads then Serve(pastePrev) else this
    }

    /** on_restore */
    function Expire(loads: bool): State {
      Restore(loads).(pasteClip := 0, pastePrev := 0, timer := None)
    }

    function SlotClip(slot: int): int {
      if slot in slots then slots[slot] else 0
    }

    /** Does buffers_paste get past its checks? */
    predicate CanPaste(slot: int) {
      1 <= slot <= BUFFER_SLOTS && SlotClip(slot) in clips
    }

    /**
     * buffers_paste. A paste still waiting to restore finishes first. The new
     * source carries the first-read callback.
     */
    function Paste(slot: int, restores: bool, serves: bool): State {
      if !CanPaste(slot) then this
      else
        var st := if timer.Some? then Expire(restores) else this;
        var clip := SlotClip(slot);
        if !serves then st
        else
          var prev := st.captured;
          var served := st.Serve(clip);
          served.(sources := served.sources[st.created := Source(clip, true)],
                  pasteClip := clip, pastePrev := if prev != clip then prev else 0,
                  timer := Some(RESTORE_FALLBACK_MS))
    }

    /** A reader asks source n for content: its callback, on_read, runs at most once. */
    function Read(n: nat): State {
      if n in sources && sources[n].wantsRead then
        this.(sources := sources[n := sources[n].(wantsRead := false)], timer := Some(RESTORE_AFTER_READ_MS))
      else this
    }

    /** The compositor cancels source n, having made another one the selection. */
    function Cancel(n: nat): State {
      this.(sources := sources - {n}, current := if current == Some(n) then None else current)
    }

    /** A clip is deleted; slots that held it become empty. */
    function Delete(clip: int): State {
      this.(clips := clips - {clip}, slots := map s | s in slots && slots[s] != clip :: slots[s])
    }

    /** Another application's selection is captured as `clip` (0: not stored). */
    function Foreign(clip: int): State {
      this.(captured := clip, clips := if clip > 0 then clips + {clip} else clips)
    }

    /** buffers_copy; `accepted`: Hyprland took the keystroke. */
    function CopyStart(slot: int, accepted: bool): State {
      if 1 <= slot <= BUFFER_SLOTS then this.(copySlot := if accepted then slot else 0, copyPrev := captured)
      else this
    }

    /** The copied selection arrives in time as `clip`, and capture.c calls the hook. */
    function Copied(clip: int, stores: bool, serves: bool): State {
      Foreign(clip).OnCopied(clip, stores, serves)
    }

    /** on_copied stores the clip in the slot and puts the old one back; `stores`: the slot could be written. */
    function OnCopied(clip: int, stores: bool, serves: bool): State {
      var waiting := this.(copySlot := 0);
      if copySlot == 0 || !stores then waiting
      else
        var stored := waiting.(slots := slots[copySlot := clip]);
        if PutsBack(clip) && serves then stored.Serve(copyPrev) else stored
    }

    /** Is there a clip to put back once `clip` is in its slot? */
    predicate PutsBack(clip: int) { copyPrev != 0 && copyPrev != clip && copyPrev in clips }
  }

  datatype Event =
    | Paste(slot: int, restores: bool, serves: bool)
    | Read(src: nat)
    | Expired(restores: bool)
    | Cancelled(src: nat)
    | Deleted(clip: int)
    | Foreign(clip: int)
    | Served(clip: int)
    | CopyStart(slot: int, accepted: bool)
    | Copied(clip: int, stores: bool, serves: bool)

  function Step(st: State, e: Event): State {
    match e
    case Paste(slot, restores, serves) => st.Paste(slot, restores, serves)
    case Read(n) => st.Read(n)
    case Expired(restores) => if st.timer.Some? then st.Expire(restores) else st
    case Cancelled(n) => if n in st.sources then st.Cancel(n) else st
    case Deleted(c) => st.Delete(c)
    case Foreign(c) => if c >= 0 then st.Foreign(c) else st
    case Served(c) => if c == 0 || c in st.clips then st.Serve(c) else st
    case CopyStart(slot, accepted) => st.CopyStart(slot, accepted)
    case Copied(c, stores, serves) => if c > 0 then st.Copied(c, stores, serves) else st
  }

  function Run(st: State, es: seq<Event>): State {
    if es == [] then st else Step(Run(st, es[..|es| - 1]), es[|es| - 1])
  }

  lemma StepIsValid(st: State, e: Event)
    requires st.Valid()
    ensures Step(st, e).Valid()
  {
  }

  // ---- undisturbed runs --------------------------------------------------------

  /**
   * Events of an undisturbed run: pastes and expiries whose serves succeed,
   * reads of any live source, cancellations of sources that were replaced, and
   * deletions other than of p.
   */
  predicate Quiet(st: State, e: Event, p: int) {
    match e
    case Paste(_, restores, serves) => restores && serves
    case Expired(restores) => restores
    case Read(_) => true
    case Cancelled(n) => st.current != Some(n)
    case Deleted(c) => c != p
    case _ => false
  }

  predicate QuietRun(st: State, es: seq<Event>, p: int) {
    es == [] || (QuietRun(st, es[..|es| - 1], p) && Quiet(Run(st, es[..|es| - 1]), es[|es| - 1], p))
  }

  /** Clip p is known to be on the clipboard and no paste is in flight. */
  ghost predicate Resting(st: State, p: int) {
    st.Valid() && p in st.clips && st.captured == p && st.timer == None && st.pasteClip == 0
  }

  /** A paste is in flight: its buffer is current and p is what comes back (or the two coincide). */
  ghost predicate InFlight(st: State, p: int) {
    && st.timer.Some? && st.pasteClip != 0
    && st.captured == st.pasteClip == st.Served()
    && st.pastePrev == (if st.pasteClip == p then 0 else p)
  }

  /** No paste is in flight and p is current. A timer may still be armed, with nothing to do. */
  ghost predicate Quiescent(st: State, p: int) {
    st.pasteClip == 0 && st.captured == p
  }

  ghost predicate Keeps(st: State, p: int) {
    st.Valid() && p in st.clips && (InFlight(st, p) || Quiescent(st, p))
  }

  lemma KeepsStep(st: State, e: Event, p: int)
    requires Keeps(st, p) && Quiet(st, e, p)
    ensures Keeps(Step(st, e), p)
  {
  }

  /**
   * Whatever pastes, reads and expiries happen, and in whatever order: with no
   * timer armed the clip is p again, and while a paste is in flight the buffer
   * is current and p is remembered.
   */
  lemma {:induction false} PastingKeepsTheClip(st: State, es: seq<Event>, p: int)
    requires Resting(st, p) && QuietRun(st, es, p)
    ensures Keeps(Run(st, es), p)
    ensures Run(st, es).timer == None ==> Run(st, es).captured == p
    ensures Run(st, es).timer == None ==> Run(st, es).pasteClip == 0
  {
    if es != [] {
      PastingKeepsTheClip(st, es[..|es| - 1], p);
      KeepsStep(Run(st, es[..|es| - 1]), es[|es| - 1], p);
    }
  }

  /**
   * Pasting from one of the three buffers puts its clip on the clipboard for
   * three seconds, or for 0.3 seconds from when it is first read; then the old
   * clip is back.
   */
  lemma PasteComesBack(st: State, slot: int, p: int)
    requires Resting(st, p) && 1 <= slot <= 3 && slot in st.slots && st.slots[slot] in st.clips && st.slots[slot] != p
    ensures var st1 := Step(st, Event.Paste(slot, true, true));
            var st2 := Step(st1, Event.Read(st.created));
            var st3 := Step(st2, Event.Read(st.created));
            && st1.Served() == st1.captured == st.slots[slot] && st1.current == Some(st.created) && st1.timer == Some(3000)
            && st2.Served() == st.slots[slot] && st2.timer == Some(300) && st3 == st2
            && (forall st' :: st' in {st1, st2} ==>
                  var back := Step(st', Expired(true));
                  back.Served() == back.captured == p && back.timer == None && back.pasteClip == 0 && back.slots == st.slots)
  {
  }

  /** A paste from no buffer, or from an empty one, changes nothing. */
  lemma NothingToPaste(st: State, slot: int, restores: bool, serves: bool)
    requires !(1 <= slot <= 3) || slot !in st.slots || st.slots[slot] !in st.clips
    requires 0 !in st.clips
    ensures Step(st, Event.Paste(slot, restores, serves)) == st
  {
  }

  /** A deleted clip is in no buffer any more; the other buffers keep theirs. */
  lemma DeletedLeavesItsBuffers(st: State, clip: int)
    ensures var st' := Step(st, Deleted(clip));
            && clip !in st'.clips && (forall s :: s in st'.slots ==> st'.slots[s] != clip)
            && (forall s :: s in st.slots && st.slots[s] != clip ==> s in st'.slots && st'.slots[s] == st.slots[s])
            && forall s :: s in st'.slots ==> s in st.slots
  {
  }

  // ---- where the timer is armed with nothing to restore ---------------------------

  /** A restore timer is armed although no paste is in flight. */
  predicate Phantom(st: State) { st.timer.Some? && st.pasteClip == 0 }

  /**
   * serve.h promises that a first-read callback is dropped when its source is
   * replaced; serve.c keeps it until the source is cancelled. A late read of a
   * replaced source then arms the timer again. This is the only way it happens.
   */
  lemma PhantomTimerExactly(st: State, e: Event, p: int)
    requires Keeps(st, p) && Quiet(st, e, p) && !Phantom(st)
    ensures Phantom(Step(st, e)) <==>
            e.Read? && e.src in st.sources && st.sources[e.src].wantsRead && st.pasteClip == 0
  {
  }

  lemma PhantomTimerHappens() returns (st: State, es: seq<Event>)
    ensures Resting(st, 1) && QuietRun(st, es, 1) && Phantom(Run(st, es))
  {
    st := State(map[], 0, None, 1, {1, 2}, map[1 := 2], 0, 0, None, 0, 0);
    var e1, e2, e3 := Event.Paste(1, true, true), Expired(true), Event.Read(0);
    var s1, s2 := Step(st, e1), Step(Step(st, e1), e2);
    RunsOn(st, [], e1, 1);
    RunsOn(st, [e1], e2, 1);
    RunsOn(st, [e1, e2], e3, 1);
    assert [] + [e1] == [e1] && [e1] + [e2] == [e1, e2] && [e1, e2] + [e3] == [e1, e2, e3];
    assert s2.sources[0].wantsRead;
    es := [e1, e2, e3];
  }

  lemma RunsOn(st: State, es: seq<Event>, e: Event, p: int)
    ensures Run(st, es + [e]) == Step(Run(st, es), e)
    ensures QuietRun(st, es + [e], p) <==> QuietRun(st, es, p) && Quiet(Run(st, es), e, p)
  {
    assert (es + [e])[..|es|] == es;
  }

  /** Without a phantom timer in between, an armed timer always means a paste in flight. */
  lemma {:induction false} TimerMeansInFlight(st: State, es: seq<Event>, p: int)
    requires Resting(st, p) && QuietRun(st, es, p)
    requires forall i :: 0 <= i <= |es| ==> !Phantom(Run(st, es[..i]))
    ensures Run(st, es).timer.Some? <==> InFlight(Run(st, es), p)
  {
    PastingKeepsTheClip(st, es, p);
    assert es[..|es|] == es;
  }

  // ---- disturbed restores -----------------------------------------------------------

  ghost predicate SameClipboard(st: State, st': State) {
    st'.sources == st.sources && st'.current == st.current && st'.captured == st.captured
  }

  /** A timer firing touches the clipboard exactly when the buffer is still being served. */
  lemma RestoreExactly(st: State, restores: bool)
    requires st.Valid() && st.timer.Some?
    ensures var st' := Step(st, Expired(restores));
            SameClipboard(st, st') <==> !(restores && st.pastePrev != 0 && st.pastePrev in st.clips && st.Served() == st.pasteClip)
  {
    assert st.created !in st.sources;
  }

  /** No restore happens at e: it is not the expiry, nor a paste, which runs the expiry first. */
  predicate Waits(st: State, e: Event) {
    match e
    case Paste(slot, _, _) => !st.CanPaste(slot)
    case Expired(_) => st.timer == None
    case _ => true
  }

  predicate WaitingRun(st: State, es: seq<Event>) {
    es == [] || (WaitingRun(st, es[..|es| - 1]) && Waits(Run(st, es[..|es| - 1]), es[|es| - 1]))
  }

  /** The clip that e puts on the clipboard, if it puts one there. */
  function Brought(st: State, e: Event): Option<int> {
    match e
    case Served(c) => if c == 0 || c in st.clips then Some(c) else None
    case Copied(c, stores, serves) =>
      if c > 0 && st.copySlot != 0 && stores && st.Foreign(c).PutsBack(c) && serves then Some(st.copyPrev) else None
    case _ => None
  }

  /** What is served after e: what e brought, nothing if e cancelled the current source, else what was. */
  lemma ServedAfter(st: State, e: Event)
    requires st.Valid() && Waits(st, e)
    ensures Step(st, e).Served() ==
            if Brought(st, e).Some? then Brought(st, e).value
            else if e.Cancelled? && st.current == Some(e.src) then 0
            else st.Served()
    ensures Step(st, e).pasteClip == st.pasteClip && Step(st, e).pastePrev == st.pastePrev
    ensures st.timer.Some? ==> Step(st, e).timer.Some?
  {
  }

  /** The last event of a run that touched the clipboard left clip b there. */
  predicate Shows(st: State, es: seq<Event>, b: int) {
    if es == [] then st.Served() == b
    else
      var (before, e) := (Run(st, es[..|es| - 1]), es[|es| - 1]);
      match Brought(before, e)
      case Some(c) => c == b
      case None => Shows(st, es[..|es| - 1], b) && !(e.Cancelled? && before.current == Some(e.src))
  }

  lemma {:induction false} RunShows(st: State, es: seq<Event>, b: int)
    requires st.Valid() && WaitingRun(st, es) && b != 0
    ensures Run(st, es).Valid() && (Run(st, es).Served() == b <==> Shows(st, es, b))
    ensures Run(st, es).pasteClip == st.pasteClip && Run(st, es).pastePrev == st.pastePrev
    ensures st.timer.Some? ==> Run(st, es).timer.Some?
  {
    hide Step, Brought, State.Valid;
    if es != [] {
      var before, e := Run(st, es[..|es| - 1]), es[|es| - 1];
      RunShows(st, es[..|es| - 1], b);
      ServedAfter(before, e);
      StepIsValid(before, e);
    }
  }

  /**
   * Whatever happens while a paste waits, its timer touches the clipboard exactly
   * when the last event that touched it left the buffer's clip there, and the
   * old clip is still to be had.
   */
  lemma RestoresExactly(st: State, es: seq<Event>, restores: bool)
    requires st.Valid() && st.timer.Some? && st.pasteClip != 0 && WaitingRun(st, es)
    ensures var st' := Run(st, es);
            !SameClipboard(st', Step(st', Expired(restores)))
            <==> restores && st.pastePrev != 0 && st.pastePrev in st'.clips && Shows(st, es, st.pasteClip)
  {
    hide Step, Shows;
    RunShows(st, es, st.pasteClip);
    RestoreExactly(Run(st, es), restores);
  }

  /** e takes the buffer's clip off the clipboard: its source is cancelled, or another clip is served. */
  predicate Disturbs(st: State, e: Event) {
    match Brought(st, e)
    case Some(c) => c != st.pasteClip
    case None => e.Cancelled? && st.current == Some(e.src)
  }

  /** Nothing in the run puts clip b on the clipboard again. */
  predicate NeverBrings(st: State, es: seq<Event>, b: int) {
    es == [] || (NeverBrings(st, es[..|es| - 1], b) && Brought(Run(st, es[..|es| - 1]), es[|es| - 1]) != Some(b))
  }

  lemma {:induction false} NeverShows(st: State, es: seq<Event>, b: int)
    requires st.Served() != b && NeverBrings(st, es, b)
    ensures !Shows(st, es, b)
  {
    hide Brought;
    if es != [] { NeverShows(st, es[..|es| - 1], b); }
  }

  /**
   * Once the pasted source is cancelled or another clip is served, then whatever
   * happens, unless something serves the buffer's clip again, it is never what
   * is served, and the restore changes nothing but forgets the paste; so does
   * the restore that a new paste runs first.
   */
  lemma DisturbedRestoreIsIdle(st: State, e: Event, es: seq<Event>, restores: bool)
    requires st.Valid() && st.timer.Some? && st.pasteClip != 0 && Disturbs(st, e)
    requires var st1 := Step(st, e); WaitingRun(st1, es) && NeverBrings(st1, es, st.pasteClip)
    ensures var st2 := Run(Step(st, e), es);
            var idle := st2.(pasteClip := 0, pastePrev := 0, timer := None);
            && st2.Served() != st.pasteClip
            && Step(st2, Expired(restores)) == idle
            && forall slot, serves :: Step(st2, Event.Paste(slot, restores, serves)) ==
                                      if st2.CanPaste(slot) then Step(idle, Event.Paste(slot, restores, serves)) else st2
  {
    hide Brought, Shows, NeverBrings, WaitingRun, State.Valid;
    var st1 := Step(st, e);
    DisturbedNow(st, e);
    NeverShows(st1, es, st.pasteClip);
    RunShows(st1, es, st.pasteClip);
  }

  lemma DisturbedNow(st: State, e: Event)
    requires st.Valid() && st.timer.Some? && st.pasteClip != 0 && Disturbs(st, e)
    ensures var st1 := Step(st, e);
            st1.Valid() && st1.timer.Some? && st1.pasteClip == st.pasteClip && st1.Served() != st.pasteClip
  {
    StepIsValid(st, e);
    ServedAfter(st, e);
  }

  // ---- copying into a buffer -----------------------------------------------------------

  /** With no paste in flight, copying into a slot leaves the clipboard as it was. */
  lemma CopyKeepsTheClip(st: State, slot: int, clip: int, p: int)
    requires Keeps(st, p) && st.pasteClip == 0 && 1 <= slot <= BUFFER_SLOTS && clip > 0
    ensures var st' := Step(Step(st, CopyStart(slot, true)), Copied(clip, true, true));
            st'.captured == p && slot in st'.slots && st'.slots[slot] == clip
  {
  }

  /**
   * What the arrival of a copied clip does: it goes into the slot that waits for
   * one, and then, and only then, the clip from before is served again, if there
   * was one, it is another, it is still there and it can be served.
   */
  lemma CopiedExactly(st: State, clip: int, stores: bool, serves: bool)
    requires clip > 0
    ensures var st' := Step(st, Copied(clip, stores, serves));
            var waits := st.copySlot != 0 && stores;
            && st'.clips == st.clips + {clip} && st'.copySlot == 0
            && st'.slots == (if waits then st.slots[st.copySlot := clip] else st.slots)
            && if waits && serves && st.copyPrev != 0 && st.copyPrev != clip && st.copyPrev in st.clips
               then && st'.captured == st.copyPrev && st'.current == Some(st.created)
                    && st'.sources == st.sources[st.created := Source(st.copyPrev, false)]
               else st'.captured == clip && st'.current == st.current && st'.sources == st.sources
  {
  }

  /** A copy that Hyprland does not take fills no slot, and one into no buffer is no copy. */
  lemma RefusedCopy(st: State, slot: int, clip: int, stores: bool, serves: bool)
    requires clip > 0
    ensures 1 <= slot <= 3 ==> Step(Step(st, CopyStart(slot, false)), Copied(clip, stores, serves)).slots == st.slots
    ensures !(1 <= slot <= 3) ==> forall accepted :: Step(st, CopyStart(slot, accepted)) == st
  {
  }

  /** A selection of another application becomes the current clip, or none if it was not stored. */
  lemma ForeignIsCaptured(st: State, clip: int)
    requires clip >= 0
    ensures Step(st, Event.Foreign(clip)) == st.(captured := clip, clips := if clip == 0 then st.clips else st.clips + {clip})
  {
  }

  /**
   * A copy begun before a restore and completed after it puts back what was
   * current when it began: the clip p survives exactly when no other buffer's
   * paste was in flight then.
   */
  lemma CopyAcrossARestore(st: State, slot: int, clip: int, p: int)
    requires Keeps(st, p) && st.timer.Some? && 1 <= slot <= BUFFER_SLOTS && clip > 0
    requires st.pasteClip == 0 || st.pasteClip in st.clips
    ensures var st' := Step(Step(Step(st, CopyStart(slot, true)), Expired(true)), Copied(clip, true, true));
            st'.captured == p <==> st.pasteClip == 0 || st.pasteClip == p
  {
  }

  // ---- the code ------------------------------------------------------------------------

  /** What buffers.c sees of the database, of serve.c and of capture.c. */
  class Desk {
    var sources: map<nat, Source>
    var created: nat
    var current: Option<nat>
    var captured: int
    var clips: set<int>
    var slots: map<int, int>

    constructor (clips: set<int>, slots: map<int, int>)
      ensures this.clips == clips && this.slots == slots && sources == map[] && current == None && captured == 0
    {
      this.clips, this.slots := clips, slots;
      sources, created, current, captured := map[], 0, None, 0;
    }

    method ServeClip(clip: int, loads: bool) returns (ok: bool)
      modifies this`sources, this`created, this`current, this`captured
      ensures ok == loads
      ensures !loads ==> unchanged(this)
      ensures loads ==> sources == old(sources)[old(created) := Source(clip, false)]
      ensures loads ==> created == old(created) + 1 && current == Some(old(created)) && captured == clip
    {
      if !loads { return false; }
      sources := sources[created := Source(clip, false)];
      current := Some(created);
      created := created + 1;
      captured := clip;
      ok := true;
    }

    function ServeCurrent(): int
      reads this
    {
      if current.Some? && current.value in sources then sources[current.value].clip else 0
    }
  }

  class Buffers {
    const desk: Desk
    var pasteClip: int
    var pastePrev: int
    var timer: Option<int>
    var copySlot: int
    var copyPrev: int

    constructor (desk: Desk)
      ensures this.desk == desk && View() == State(desk.sources, desk.created, desk.current, desk.captured,
                                                   desk.clips, desk.slots, 0, 0, None, 0, 0)
    {
      this.desk := desk;
      pasteClip, pastePrev, timer, copySlot, copyPrev := 0, 0, None, 0, 0;
    }

    function View(): State
      reads this, desk
    {
      State(desk.sources, desk.created, desk.current, desk.captured, desk.clips, desk.slots,
            pasteClip, pastePrev, timer, copySlot, copyPrev)
    }

    method Restore(prev: int, expectCurrent: int, loads: bool)
      modifies desk
      ensures View() == if prev != 0 && old(desk.ServeCurrent()) == expectCurrent && prev in old(desk.clips) && loads
                        then old(View()).Serve(prev) else old(View())
    {
      if prev == 0 || desk.ServeCurrent() != expectCurrent || prev !in desk.clips { return; }
      var _ := desk.ServeClip(prev, loads);
    }

    method OnRestore(loads: bool)
      modifies this, desk
      ensures View() == old(View()).Expire(loads)
    {
      timer := None;
      Restore(pastePrev, pasteClip, loads);
      pasteClip, pastePrev := 0, 0;
    }

    method OnRead()
      modifies this`timer
      ensures View() == old(View()).(timer := Some(RESTORE_AFTER_READ_MS))
    {
      timer := None; // cancelled
      timer := Some(RESTORE_AFTER_READ_MS);
    }

    /** One read request for source n, as serve.c forwards it. */
    method ReadSource(n: nat)
      modifies this`timer, desk`sources
      ensures View() == Step(old(View()), Event.Read(n))
    {
      if n in desk.sources && desk.sources[n].wantsRead {
        desk.sources := desk.sources[n := desk.sources[n].(wantsRead := false)];
        OnRead();
      }
    }

    method Paste(slot: int, restores: bool, serves: bool) returns (ok: bool)
      modifies this, desk
      ensures View() == Step(old(View()), Event.Paste(slot, restores, serves))
      ensures ok == (old(View()).CanPaste(slot) && serves)
    {
      if !(1 <= slot <= BUFFER_SLOTS) { return false; }
      var clip := if slot in desk.slots then desk.slots[slot] else 0;
      if clip !in desk.clips { return false; }
      if timer.Some? { OnRestore(restores); }
      var prev := desk.captured;
      ok := desk.ServeClip(clip, serves);
      if !ok { return; }
      pasteClip := clip;
      pastePrev := if prev != clip then prev else 0;
      // serve_on_first_read
      desk.sources := desk.sources[desk.current.value := desk.sources[desk.current.value].(wantsRead := true)];
      timer := Some(RESTORE_FALLBACK_MS);
    }

    method Copy(slot: int, accepted: bool) returns (ok: bool)
      modifies this`copySlot, this`copyPrev
      ensures View() == Step(old(View()), Event.CopyStart(slot, accepted))
      ensures ok == (1 <= slot <= BUFFER_SLOTS && accepted)
    {
      if !(1 <= slot <= BUFFER_SLOTS) { return false; }
      copySlot := slot;
      copyPrev := desk.captured;
      if !accepted {
        copySlot := 0;
        return false;
      }
      ok := true;
    }

    /** The hook that capture.c calls once the awaited clip is stored and current. */
    method OnCopied(clip: int, stores: bool, serves: bool)
      modifies this`copySlot, desk
      ensures View() == old(View()).OnCopied(clip, stores, serves)
    {
      var slot, prev := copySlot, copyPrev;
      copySlot := 0;
      if slot == 0 || !stores { return; }
      desk.slots := desk.slots[slot := clip];
      if prev != 0 && prev != clip && prev in desk.clips {
        var _ := desk.ServeClip(prev, serves);
      }
    }
  }
}
