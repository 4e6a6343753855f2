/**
 * The event loop (daemon/src/loop.c): a linked list of timers kept in firing
 * order, and watches whose memory outlives the batch that may still name them.
 * Callbacks are the environment: each may do anything the API allows.
 */
module Loop {
  import opened Bytes

  class Timer {
    const due: int
    const stamp: nat // how many timers were armed before this one
    var next: Timer?

    constructor (due: int, stamp: nat)
      ensures this.due == due && this.stamp == stamp && next == null
    {
      this.due, this.stamp := due, stamp;
      next := null;
    }
  }

  class Watch {
    const fd: int
    var dead: bool
    var nextDead: Watch?
    ghost var frees: nat
    ghost var calls: nat
    ghost var sealed: nat // how often it had been called when it was deleted

    constructor (fd: int)
      ensures this.fd == fd && !dead && nextDead == null && frees == 0 && calls == 0
    {
      this.fd := fd;
      dead, nextDead, frees, calls, sealed := false, null, 0, 0, 0;
    }
  }

  // ---- the firing order ----------------------------------------------------------

  /** t fires before u: by due time, ties in arming order. */
  ghost predicate Before(t: Timer, u: Timer) {
    t.due < u.due || (t.due == u.due && t.stamp < u.stamp)
  }

  ghost predicate InFiringOrder(ts: seq<Timer>) {
    forall i, j :: 0 <= i < j < |ts| ==> Before(ts[i], ts[j])
  }

  function Insert<T>(ts: seq<T>, i: nat, t: T): seq<T>
    requires i <= |ts|
  {
    ts[..i] + [t] + ts[i..]
  }

  function Without<T>(ts: seq<T>, i: nat): seq<T>
    requires i < |ts|
  {
    ts[..i] + ts[i + 1..]
  }

  lemma InsertKeepsOrder(ts: seq<Timer>, i: nat, t: Timer)
    requires InFiringOrder(ts) && i <= |ts|
    requires forall k :: 0 <= k < |ts| ==> ts[k].stamp < t.stamp
    requires forall k :: 0 <= k < i ==> ts[k].due <= t.due
    requires i < |ts| ==> t.due < ts[i].due
    ensures InFiringOrder(Insert(ts, i, t))
    ensures forall x :: x in Insert(ts, i, t) <==> x in ts || x == t
  {
    var r := Insert(ts, i, t);
    forall a, b | 0 <= a < b < |r| ensures Before(r[a], r[b]) {
      if a == i { if b > i + 1 { assert Before(ts[i], ts[b - 1]); } }
    }
  }

  lemma OrderedIsDistinct(ts: seq<Timer>)
    requires InFiringOrder(ts)
    ensures forall i, j :: 0 <= i < j < |ts| ==> ts[i] != ts[j]
  {
  }

  lemma WithoutKeepsOrder(ts: seq<Timer>, i: nat)
    requires InFiringOrder(ts) && i < |ts|
    ensures InFiringOrder(Without(ts, i))
    ensures forall x :: x in Without(ts, i) <==> x in ts && x != ts[i]
  {
    forall x | x in ts && x != ts[i] ensures x in Without(ts, i) {
      var k :| 0 <= k < |ts| && ts[k] == x;
      assert Without(ts, i)[if k < i then k else k - 1] == x;
    }
    assert forall k :: 0 <= k < |ts| && k != i ==> ts[k] != ts[i];
  }

  // ---- what callbacks may do ---------------------------------------------------------

  /** One call into the loop's API; timers and watches are named by their number. */
  datatype Act =
    | Arm(delay: int, clock: int)
    | Cancel(timer: nat)
    | Add(fd: int)
    | Del(watch: nat)
    | Quit

  /** When the timers armed by these acts are due. */
  function Dues(h: seq<Act>): seq<int> {
    if h == [] then []
    else
      var a := h[|h| - 1];
      Dues(h[..|h| - 1]) + if a.Arm? then [a.clock + if a.delay > 0 then a.delay else 0] else []
  }

  /** The descriptors of the watches they add. */
  function Fds(h: seq<Act>): seq<int> {
    if h == [] then []
    else
      var a := h[|h| - 1];
      Fds(h[..|h| - 1]) + if a.Add? then [a.fd] else []
  }

  /** The k-th timer is cancelled after it was armed; the k-th watch is deleted after it was added. */
  predicate Cancels(h: seq<Act>, k: nat) {
    exists i :: 0 <= i < |h| && h[i] == Cancel(k) && k < |Dues(h[..i])|
  }

  predicate Deletes(h: seq<Act>, k: nat) {
    exists i :: 0 <= i < |h| && h[i] == Del(k) && k < |Fds(h[..i])|
  }

  lemma NoActs(k: nat)
    ensures Dues([]) == [] && Fds([]) == [] && !Cancels([], k) && !Deletes([], k)
  {
  }

  lemma ActStep(h: seq<Act>, a: Act, k: nat)
    ensures Dues(h + [a]) == Dues(h) + if a.Arm? then [a.clock + if a.delay > 0 then a.delay else 0] else []
    ensures Fds(h + [a]) == Fds(h) + if a.Add? then [a.fd] else []
    ensures Cancels(h + [a], k) <==> Cancels(h, k) || (a == Cancel(k) && k < |Dues(h)|)
    ensures Deletes(h + [a], k) <==> Deletes(h, k) || (a == Del(k) && k < |Fds(h)|)
    ensures Quit in h + [a] <==> Quit in h || a == Quit
  {
    hide Dues, Fds;
    UnfoldActs(h, a);
    var g := h + [a];
    assert g[..|h|] == h && forall i :: 0 <= i < |h| ==> g[..i] == h[..i];
    if i :| 0 <= i < |h| && h[i] == Cancel(k) && k < |Dues(h[..i])| { assert g[i] == h[i]; }
    if i :| 0 <= i < |h| && h[i] == Del(k) && k < |Fds(h[..i])| { assert g[i] == h[i]; }
    if a == Cancel(k) && k < |Dues(h)| { assert g[|h|] == a; }
    if a == Del(k) && k < |Fds(h)| { assert g[|h|] == a; }
  }

  lemma UnfoldActs(h: seq<Act>, a: Act)
    ensures Dues(h + [a]) == Dues(h) + if a.Arm? then [a.clock + if a.delay > 0 then a.delay else 0] else []
    ensures Fds(h + [a]) == Fds(h) + if a.Add? then [a.fd] else []
  {
    assert (h + [a])[..|h|] == h;
  }

  lemma CancelsArmed(h: seq<Act>, k: nat)
    ensures Cancels(h, k) ==> k < |Dues(h)|
  {
    if i :| 0 <= i < |h| && h[i] == Cancel(k) && k < |Dues(h[..i])| { MoreActs(h, i); }
  }

  lemma DeletesAdded(h: seq<Act>, k: nat)
    ensures Deletes(h, k) ==> k < |Fds(h)|
  {
    if i :| 0 <= i < |h| && h[i] == Del(k) && k < |Fds(h[..i])| { MoreActs(h, i); }
  }

  lemma {:induction false} MoreActs(h: seq<Act>, i: nat)
    requires i <= |h|
    ensures |Dues(h[..i])| <= |Dues(h)| && |Fds(h[..i])| <= |Fds(h)|
    decreases |h|
  {
    if i < |h| {
      MoreActs(h[..|h| - 1], i);
      assert h[..|h| - 1][..i] == h[..i];
    } else {
      assert h[..i] == h;
    }
  }

  predicate Alive(h: seq<Act>, k: nat) { k < |Fds(h)| && !Deletes(h, k) }

  /** The events of watches that are alive when the wait ends, and what their callbacks do. */
  function LiveOnes(h: seq<Act>, numbers: seq<nat>): seq<nat> {
    if numbers == [] then []
    else
      var k := numbers[|numbers| - 1];
      LiveOnes(h, numbers[..|numbers| - 1]) + if Alive(h, k) then [k] else []
  }

  function LiveCalls(h: seq<Act>, numbers: seq<nat>, callbacks: seq<seq<Act>>): (c: seq<seq<Act>>)
    requires |numbers| == |callbacks|
    ensures |c| == |LiveOnes(h, numbers)|
  {
    if numbers == [] then []
    else
      var n := |numbers| - 1;
      LiveCalls(h, numbers[..n], callbacks[..n]) + if Alive(h, numbers[n]) then [callbacks[n]] else []
  }

  lemma LiveStep(h: seq<Act>, numbers: seq<nat>, callbacks: seq<seq<Act>>, i: nat)
    requires |numbers| == |callbacks| && i < |numbers|
    ensures LiveOnes(h, numbers[..i + 1]) == LiveOnes(h, numbers[..i]) + if Alive(h, numbers[i]) then [numbers[i]] else []
    ensures LiveCalls(h, numbers[..i + 1], callbacks[..i + 1])
         == LiveCalls(h, numbers[..i], callbacks[..i]) + if Alive(h, numbers[i]) then [callbacks[i]] else []
  {
    hide Alive;
    assert numbers[..i + 1][..i] == numbers[..i] && callbacks[..i + 1][..i] == callbacks[..i];
  }

  lemma NoneLive(h: seq<Act>, numbers: seq<nat>, callbacks: seq<seq<Act>>)
    requires |numbers| == |callbacks|
    ensures LiveOnes(h, numbers[..0]) == [] && LiveCalls(h, numbers[..0], callbacks[..0]) == []
  {
  }

  /** What has been done once these events have had their turns: until one asks to stop, each calls back if it is alive. */
  function Heard(h: seq<Act>, numbers: seq<nat>, callbacks: seq<seq<Act>>): seq<Act>
    requires |numbers| == |callbacks|
  {
    if numbers == [] then h
    else
      var n := |numbers| - 1;
      var g := Heard(h, numbers[..n], callbacks[..n]);
      if Quit in g || Deletes(g, numbers[n]) then g else g + callbacks[n]
  }

  lemma HeardStep(h: seq<Act>, numbers: seq<nat>, callbacks: seq<seq<Act>>, i: nat)
    requires |numbers| == |callbacks| && i < |numbers|
    ensures var g := Heard(h, numbers[..i], callbacks[..i]);
            Heard(h, numbers[..i + 1], callbacks[..i + 1]) == if Quit in g || Deletes(g, numbers[i]) then g else g + callbacks[i]
  {
    hide Deletes;
    assert numbers[..i + 1][..i] == numbers[..i] && callbacks[..i + 1][..i] == callbacks[..i];
  }

  lemma HeardNone(h: seq<Act>, numbers: seq<nat>, callbacks: seq<seq<Act>>)
    ensures Heard(h, numbers[..0], callbacks[..0]) == h
  {
  }

  /** Once the loop is to stop nothing more is heard. */
  lemma {:induction false} HeardNoMore(h: seq<Act>, numbers: seq<nat>, callbacks: seq<seq<Act>>, i: nat)
    requires |numbers| == |callbacks| && i <= |numbers| && (i == |numbers| || Quit in Heard(h, numbers[..i], callbacks[..i]))
    ensures Heard(h, numbers, callbacks) == Heard(h, numbers[..i], callbacks[..i])
    decreases |numbers| - i
  {
    hide Heard;
    if i == |numbers| {
      assert numbers[..i] == numbers && callbacks[..i] == callbacks;
    } else {
      HeardStep(h, numbers, callbacks, i);
      HeardNoMore(h, numbers, callbacks, i + 1);
    }
  }

  function After(ts: seq<Timer>, i: nat): Timer? { if i + 1 < |ts| then ts[i + 1] else null }
  function AfterDead(ws: seq<Watch>, i: nat): Watch? { if i + 1 < |ws| then ws[i + 1] else null }

  /** What is where once ts[i] is out. */
  lemma WithoutLinks(ts: seq<Timer>, i: nat)
    requires i < |ts|
    ensures |Without(ts, i)| == |ts| - 1
    ensures forall k :: 0 <= k < i ==> Without(ts, i)[k] == ts[k]
    ensures forall k :: i <= k < |ts| - 1 ==> Without(ts, i)[k] == After(ts, k)
  {
  }

  /** head leads through exactly the timers of ts. */
  ghost predicate Linked(head: Timer?, ts: seq<Timer>)
    reads ts
  {
    && head == (if ts == [] then null else ts[0])
    && forall i :: 0 <= i < |ts| ==> ts[i].next == After(ts, i)
  }

  /** Every timer armed is pending, or fired once, or cancelled before it could fire. */
  ghost predicate Books(list: seq<Timer>, armed: seq<Timer>, fired: seq<Timer>, cancelled: set<Timer>) {
    && (forall k :: 0 <= k < |armed| ==> armed[k].stamp == k)
    && (forall t :: t in list ==> t in armed && t !in fired && t !in cancelled)
    && (forall t :: t in fired ==> t in armed && t !in cancelled)
    && (forall i, j :: 0 <= i < j < |fired| ==> fired[i] != fired[j])
    && (forall t :: t in armed ==> t in list || t in fired || t in cancelled)
    && (forall t :: t in cancelled ==> t in armed)
  }

  lemma BooksArm(list: seq<Timer>, armed: seq<Timer>, fired: seq<Timer>, cancelled: set<Timer>, i: nat, t: Timer)
    requires Books(list, armed, fired, cancelled) && i <= |list| && t.stamp == |armed| && t !in armed
    ensures Books(Insert(list, i, t), armed + [t], fired, cancelled)
  {
  }

  lemma BooksCancel(list: seq<Timer>, armed: seq<Timer>, fired: seq<Timer>, cancelled: set<Timer>, i: nat)
    requires Books(list, armed, fired, cancelled) && i < |list| && InFiringOrder(list)
    ensures Books(Without(list, i), armed, fired, cancelled + {list[i]})
  {
    WithoutKeepsOrder(list, i);
    hide Without;
  }

  /** What follows each timer once t is linked in at i. */
  lemma AfterInsert(ts: seq<Timer>, i: nat, t: Timer, k: nat)
    requires i <= |ts| && k <= |ts|
    ensures |Insert(ts, i, t)| == |ts| + 1
    ensures k < i ==> Insert(ts, i, t)[k] == ts[k]
    ensures k == i ==> Insert(ts, i, t)[k] == t
    ensures k > i ==> Insert(ts, i, t)[k] == ts[k - 1]
    ensures After(Insert(ts, i, t), k) == if k == i then (if i < |ts| then ts[i] else null)
                                          else if k + 1 == i then t
                                          else After(ts, if k < i then k else k - 1)
  {
  }

  lemma BooksFire(list: seq<Timer>, armed: seq<Timer>, fired: seq<Timer>, cancelled: set<Timer>)
    requires Books(list, armed, fired, cancelled) && list != [] && InFiringOrder(list)
    ensures Books(list[1..], armed, fired + [list[0]], cancelled)
  {
    RestInOrder(list);
    assert list == [list[0]] + list[1..];
    assert list[0] !in list[1..] && list[0] in list && list[0] !in fired;
  }

  lemma StampsAreOld(list: seq<Timer>, armed: seq<Timer>, fired: seq<Timer>, cancelled: set<Timer>)
    requires Books(list, armed, fired, cancelled)
    ensures forall k :: 0 <= k < |list| ==> list[k].stamp < |armed|
  {
    forall k | 0 <= k < |list| ensures list[k].stamp < |armed| { assert list[k] in armed; }
  }

  ghost predicate LinkedDead(head: Watch?, ws: seq<Watch>)
    reads ws
  {
    && head == (if ws == [] then null else ws[0])
    && forall i :: 0 <= i < |ws| ==> ws[i].nextDead == AfterDead(ws, i)
  }

  /** A watch is alive, or in the graveyard, or freed once; and never called once dead. */
  ghost predicate Kept(w: Watch, dead: seq<Watch>)
    reads w
  {
    && (w.dead <==> w in dead || w.frees > 0)
    && (w in dead ==> w.frees == 0)
    && w.frees <= 1
    && (w.dead ==> w.calls == w.sealed)
  }

  /** What the loop finds when an event's turn comes. */
  datatype Look = Look(watch: Watch, dead: bool, frees: nat)

  /** How often w is called for these events: once for each that finds it alive. */
  ghost function CallsOf(looks: seq<Look>, w: Watch): nat {
    if looks == [] then 0
    else
      var l := looks[|looks| - 1];
      CallsOf(looks[..|looks| - 1], w) + if l.watch == w && !l.dead then 1 else 0
  }

  lemma NoLooks(w: Watch)
    ensures CallsOf([], w) == 0
  {
  }

  lemma {:induction false} NotLooked(looks: seq<Look>, w: Watch)
    requires forall k :: 0 <= k < |looks| ==> looks[k].watch != w
    ensures CallsOf(looks, w) == 0
  {
    if looks != [] { NotLooked(looks[..|looks| - 1], w); }
  }

  lemma OneLook(looks: seq<Look>, l: Look, w: Watch)
    ensures CallsOf(looks + [l], w) == CallsOf(looks, w) + if l.watch == w && !l.dead then 1 else 0
  {
    assert (looks + [l])[..|looks|] == looks;
  }

  lemma {:induction false} MoreLooks(looks: seq<Look>, more: seq<Look>, w: Watch)
    ensures CallsOf(looks + more, w) == CallsOf(looks, w) + CallsOf(more, w)
  {
    if more == [] {
      assert looks + more == looks;
    } else {
      var init := more[..|more| - 1];
      MoreLooks(looks, init, w);
      assert (looks + more)[..|looks + more| - 1] == looks + init;
    }
  }

  lemma AllLooks(looks: seq<Look>, more: seq<Look>)
    ensures forall w: Watch :: CallsOf(looks + more, w) == CallsOf(looks, w) + CallsOf(more, w)
    ensures forall w: Watch :: CallsOf([], w) == 0
  {
    hide CallsOf;
    forall w: Watch ensures CallsOf(looks + more, w) == CallsOf(looks, w) + CallsOf(more, w) { MoreLooks(looks, more, w); }
    forall w: Watch ensures CallsOf([], w) == 0 { NoLooks(w); }
  }

  lemma OneMore(looks: seq<Look>, look: Look)
    ensures forall w: Watch ::
              CallsOf(looks + [look], w) == CallsOf(looks, w) + if w == look.watch && !look.dead then 1 else 0
  {
    forall w: Watch
      ensures CallsOf(looks + [look], w) == CallsOf(looks, w) + if w == look.watch && !look.dead then 1 else 0
    {
      OneLook(looks, look, w);
    }
  }

  /** How waiting for events ends. */
  datatype Wait = Woken | Interrupted | Failed

  /** What the world does in one turn of the loop. */
  datatype Turn = Turn(prepare: seq<Act>, now: int, wait: Wait, events: seq<nat>, callbacks: seq<seq<Act>>,
                       timersNow: int, timerCallbacks: seq<seq<Act>>)
  {
    /** Callbacks read the clock after the turn began. */
    predicate Fair() {
      && |events| == |callbacks|
      && (forall a :: a in prepare && a.Arm? ==> a.clock >= now)
      && (forall c :: c in callbacks ==> NotBefore(c, now))
      && (forall k, a :: 0 <= k < |timerCallbacks| && a in timerCallbacks[k] && a.Arm? ==> a.clock >= timersNow)
    }
  }

  /** What has been done after a turn in which n timers fired. */
  function TurnActs(h: seq<Act>, turn: Turn, n: nat): seq<Act>
    requires turn.Fair() && n <= |turn.timerCallbacks|
  {
    var g := h + turn.prepare;
    if !turn.wait.Woken? then g
    else Heard(g, LiveOnes(g, turn.events), LiveCalls(g, turn.events, turn.callbacks)) + Concat(turn.timerCallbacks[..n])
  }

  /** After these turns. */
  ghost function RunActs(h: seq<Act>, turns: seq<Turn>, reports: seq<Report>): seq<Act>
    requires |reports| <= |turns| && forall k :: 0 <= k < |turns| ==> turns[k].Fair()
  {
    if reports == [] then h
    else
      var k := |reports| - 1;
      var g := RunActs(h, turns, reports[..k]);
      if FewEnough(turns[k], reports[k]) then TurnActs(g, turns[k], reports[k].end - reports[k].start) else g
  }

  ghost predicate FewEnough(turn: Turn, r: Report) { r.start <= r.end <= r.start + |turn.timerCallbacks| }

  lemma NoRunActs(h: seq<Act>, turns: seq<Turn>)
    requires forall k :: 0 <= k < |turns| ==> turns[k].Fair()
    ensures RunActs(h, turns, []) == h
  {
  }

  lemma RunActsMore(h: seq<Act>, turns: seq<Turn>, reports: seq<Report>, r: Report)
    requires |reports| < |turns| && forall k :: 0 <= k < |turns| ==> turns[k].Fair()
    requires FewEnough(turns[|reports|], r)
    ensures RunActs(h, turns, reports + [r]) == TurnActs(RunActs(h, turns, reports), turns[|reports|], r.end - r.start)
  {
    hide TurnActs;
    assert (reports + [r])[..|reports|] == reports;
  }

  /** What a turn did: which part of `fired` it added, and how many timers had been armed by its end. */
  datatype Report = Report(start: nat, end: nat, armed: nat)

  /**
   * The turn fired timers in order and only when due; and unless the loop was
   * stopped or the callbacks given ran out, every timer then armed and due has
   * fired or was cancelled.
   */
  ghost predicate Fires(turn: Turn, r: Report, fired: seq<Timer>, armed: seq<Timer>, cancelled: set<Timer>, stopped: bool) {
    && r.start <= r.end <= |fired| && r.armed <= |armed|
    && InFiringOrder(fired[r.start..r.end]) && (forall t :: t in fired[r.start..r.end] ==> t.due <= turn.timersNow)
    && (turn.wait.Woken? || r.start == r.end)
    && (turn.wait.Woken? && !stopped && r.end - r.start < |turn.timerCallbacks| ==>
          forall t :: t in armed[..r.armed] && t.due <= turn.timersNow ==> t in fired[..r.end] || t in cancelled)
  }

  /** Where the k-th turn's firings begin: where those of the turn before ended. */
  function EndBefore(reports: seq<Report>, k: nat, first: nat): nat
    requires k <= |reports|
  {
    if k == 0 then first else reports[k - 1].end
  }

  /** The turns' firings follow each other and are all there are; only the last turn can have stopped the loop. */
  ghost predicate TurnsFire(turns: seq<Turn>, reports: seq<Report>, first: nat, fired: seq<Timer>, armed: seq<Timer>,
                            cancelled: set<Timer>, quit: bool) {
    && |reports| <= |turns| && |fired| == EndBefore(reports, |reports|, first)
    && (forall k :: 0 <= k < |reports| ==> reports[k].start == EndBefore(reports, k, first))
    && (forall k :: 0 <= k < |reports| ==>
          Fires(turns[k], reports[k], fired, armed, cancelled, k == |reports| - 1 && quit))
  }

  lemma NoTurns(turns: seq<Turn>, fired: seq<Timer>, armed: seq<Timer>, cancelled: set<Timer>, quit: bool)
    ensures TurnsFire(turns, [], |fired|, fired, armed, cancelled, quit)
  {
  }

  lemma TurnFires(turns: seq<Turn>, reports: seq<Report>, first: nat, fired: seq<Timer>, armed: seq<Timer>, cancelled: set<Timer>,
                  fired2: seq<Timer>, armed2: seq<Timer>, cancelled2: set<Timer>, quit: bool)
    requires TurnsFire(turns, reports, first, fired, armed, cancelled, false) && |reports| < |turns|
    requires fired <= fired2 && armed <= armed2 && cancelled <= cancelled2
    requires Fires(turns[|reports|], Report(|fired|, |fired2|, |armed2|), fired2, armed2, cancelled2, quit)
    ensures TurnsFire(turns, reports + [Report(|fired|, |fired2|, |armed2|)], first, fired2, armed2, cancelled2, quit)
  {
    hide Fires;
    var more := reports + [Report(|fired|, |fired2|, |armed2|)];
    forall k | 0 <= k < |more|
      ensures Fires(turns[k], more[k], fired2, armed2, cancelled2, k == |more| - 1 && quit)
      ensures more[k].start == EndBefore(more, k, first)
    {
      if k < |reports| {
        assert more[k] == reports[k] && EndBefore(more, k, first) == EndBefore(reports, k, first);
        FiresStill(turns[k], reports[k], fired, armed, cancelled, fired2, armed2, cancelled2);
      }
    }
  }

  lemma FiresStill(turn: Turn, r: Report, fired: seq<Timer>, armed: seq<Timer>, cancelled: set<Timer>,
                   fired2: seq<Timer>, armed2: seq<Timer>, cancelled2: set<Timer>)
    requires Fires(turn, r, fired, armed, cancelled, false)
    requires fired <= fired2 && armed <= armed2 && cancelled <= cancelled2
    ensures Fires(turn, r, fired2, armed2, cancelled2, false)
  {
    hide InFiringOrder;
    assert fired2[r.start..r.end] == fired[r.start..r.end] && fired2[..r.end] == fired[..r.end];
    assert armed2[..r.armed] == armed[..r.armed];
  }

  predicate NotBefore(acts: seq<Act>, now: int) { forall a :: a in acts && a.Arm? ==> a.clock >= now }

  class Loop {
    var timers: Timer?
    ghost var list: seq<Timer>  // the timers of the linked list
    var armed: seq<Timer>       // every timer ever armed, in arming order
    ghost var fired: seq<Timer>
    ghost var cancelled: set<Timer>
    var quit: bool

    var graveyard: Watch?
    ghost var dead: seq<Watch>  // the watches of the graveyard
    var added: seq<Watch>       // every watch ever added
    ghost var history: seq<Act> // what the callbacks have done

    /** Everything is as the callbacks' acts made it. */
    ghost predicate Obeyed()
      reads this`history, this`list, this`armed, this`cancelled, this`quit, this`added, added
    {
      (quit <==> Quit in history) && TimersObey(history) && WatchesObey(history)
    }

    /** Armed as asked; a cancelled one is pending no more, and none is cancelled unasked. */
    ghost predicate TimersObey(h: seq<Act>)
      reads this`list, this`armed, this`cancelled
    {
      && |armed| == |Dues(h)|
      && (forall k :: 0 <= k < |armed| ==> armed[k].due == Dues(h)[k])
      && (forall k :: 0 <= k < |armed| && Cancels(h, k) ==> armed[k] !in list)
      && (forall k :: 0 <= k < |armed| && armed[k] in cancelled ==> Cancels(h, k))
    }

    /** Added as asked, and deleted if asked and only then. */
    ghost predicate WatchesObey(h: seq<Act>)
      reads this`added, added
    {
      && |added| == |Fds(h)|
      && (forall k :: 0 <= k < |added| ==> added[k].fd == Fds(h)[k])
      && (forall k :: 0 <= k < |added| ==> (added[k].dead <==> Deletes(h, k)))
      && (forall j, k :: 0 <= j < k < |added| ==> added[j] != added[k])
    }

    ghost predicate Timed()
      reads this`timers, this`list, this`armed, this`fired, this`cancelled, list
    {
      Linked(timers, list) && InFiringOrder(list) && Books(list, armed, fired, cancelled)
    }

    /** Walk past every timer due no later. */
    method FindPlace(due: int) returns (prev: Timer?, cur: Timer?, ghost i: nat)
      requires Linked(timers, list)
      ensures i <= |list| && cur == (if i < |list| then list[i] else null)
      ensures prev == (if i > 0 then list[i - 1] else null)
      ensures forall k :: 0 <= k < i ==> list[k].due <= due
      ensures i < |list| ==> due < list[i].due
    {
      prev, cur, i := null, timers, 0;
      while cur != null && cur.due <= due
        invariant i <= |list| && cur == (if i < |list| then list[i] else null)
        invariant prev == (if i > 0 then list[i - 1] else null)
        invariant forall k :: 0 <= k < i ==> list[k].due <= due
        decreases |list| - i
      {
        assert list[i].next == After(list, i);
        prev, cur, i := cur, cur.next, i + 1;
      }
    }

    /** Link t in where it belongs. */
    method InsertTimer(t: Timer)
      requires Linked(timers, list) && InFiringOrder(list) && t !in list
      requires forall k :: 0 <= k < |list| ==> list[k].stamp < t.stamp
      modifies this`timers, this`list, t, list
      ensures Linked(timers, list) && InFiringOrder(list)
      ensures exists i :: 0 <= i <= |old(list)| && list == Insert(old(list), i, t)
    {
      hide InFiringOrder, Before, Insert, After;
      var prev, cur, i := FindPlace(t.due);
      InsertKeepsOrder(list, i, t);
      OrderedIsDistinct(list);
      ghost var was := list;
      assert forall k :: 0 <= k < |was| ==> was[k] != t;
      t.next := cur;
      if prev == null { timers := t; } else { prev.next := t; }
      list := Insert(was, i, t);
      AfterInsert(was, i, t, i);
      forall k | 0 <= k < |list| ensures list[k].next == After(list, k) {
        AfterInsert(was, i, t, k);
        if k != i {
          var j := if k < i then k else k - 1;
          assert old(was[j].next) == After(was, j);
        }
      }
      if i > 0 { AfterInsert(was, i, t, 0); }
    }

    /** Arm a one-shot timer. */
    method ArmTimer(delay: int, clock: int) returns (t: Timer)
      requires Timed()
      modifies this`timers, this`list, this`armed, list
      ensures Timed() && fresh(t) && t.due == clock + (if delay > 0 then delay else 0)
      ensures armed == old(armed) + [t]
      ensures exists i :: 0 <= i <= |old(list)| && list == Insert(old(list), i, t)
    {
      hide Linked, InFiringOrder, Books, Insert;
      t := new Timer(clock + (if delay > 0 then delay else 0), |armed|);
      StampsAreOld(list, armed, fired, cancelled);
      InsertTimer(t);
      ghost var i :| 0 <= i <= |old(list)| && list == Insert(old(list), i, t);
      BooksArm(old(list), armed, fired, cancelled, i, t);
      armed := armed + [t];
    }

    /** Cancel a pending timer; a handle that is not pending any more changes nothing. */
    method CancelTimer(t: Timer?)
      requires Timed()
      modifies this`timers, this`list, this`cancelled, list
      ensures Timed()
      ensures t == null || t !in old(list) ==> list == old(list) && cancelled == old(cancelled)
      ensures t != null && t in old(list) ==>
                && cancelled == old(cancelled) + {t}
                && exists i :: 0 <= i < |old(list)| && old(list)[i] == t && list == Without(old(list), i)
    {
      hide Books, InFiringOrder, Linked, Without;
      if t == null { return; }
      var prev, cur, i := Search(t);
      if cur == null { return; }
      BooksCancel(list, armed, fired, cancelled, i);
      WithoutKeepsOrder(list, i);
      Unlink(prev, cur, i);
      cancelled := cancelled + {t};
    }

    method Search(t: Timer) returns (prev: Timer?, cur: Timer?, ghost i: nat)
      requires Linked(timers, list)
      ensures cur == null <==> t !in list
      ensures cur != null ==> cur == t && i < |list| && list[i] == t && prev == if i > 0 then list[i - 1] else null
    {
      prev, cur, i := null, timers, 0;
      while cur != null
        invariant i <= |list| && cur == (if i < |list| then list[i] else null)
        invariant prev == (if i > 0 then list[i - 1] else null)
        invariant forall k :: 0 <= k < i ==> list[k] != t
        decreases |list| - i
      {
        if cur == t { return; }
        assert list[i].next == After(list, i);
        prev, cur, i := cur, cur.next, i + 1;
      }
    }

    method Unlink(prev: Timer?, cur: Timer, ghost i: nat)
      requires Linked(timers, list) && InFiringOrder(list)
      requires i < |list| && list[i] == cur && prev == if i > 0 then list[i - 1] else null
      modifies this`timers, this`list, list
      ensures list == Without(old(list), i) && Linked(timers, list) && unchanged(`armed, `fired, `cancelled)
    {
      hide InFiringOrder, Before, Without;
      OrderedIsDistinct(list);
      ghost var was := list;
      WithoutLinks(was, i);
      if prev == null { timers := cur.next; } else { prev.next := cur.next; }
      list := Without(was, i);
      forall k | 0 <= k < |list| ensures list[k].next == After(list, k) {
        var j := if k < i then k else k + 1;
        assert list[k] == was[j] && old(was[j].next) == After(was, j);
      }
    }

    // ---- watches ---------------------------------------------------------------

    ghost predicate Watched()
      reads this`graveyard, this`dead, this`added, added, dead
    {
      && LinkedDead(graveyard, dead)
      && (forall i, j :: 0 <= i < j < |dead| ==> dead[i] != dead[j])
      && (forall w :: w in dead ==> w in added)
      && (forall w :: w in added ==> Kept(w, dead))
    }

    /** Watch a descriptor; `ok`: epoll accepted it. */
    method AddFd(fd: int, ok: bool) returns (w: Watch?)
      requires Watched()
      modifies this`added
      ensures Watched() && (w != null <==> ok)
      ensures w == null ==> added == old(added)
      ensures w != null ==> fresh(w) && added == old(added) + [w] && !w.dead && w.frees == 0 && w.fd == fd
    {
      var x := new Watch(fd);
      if !ok { return null; }
      added := added + [x];
      w := x;
    }

    /** Delete a watch: it stays in memory, marked dead, until the batch is over. */
    method DelFd(w: Watch?)
      requires Watched() && (w != null ==> w in added)
      modifies this`graveyard, this`dead, if w == null then {} else {w}
      ensures Watched()
      ensures w == null || old(w.dead) ==> dead == old(dead)
      ensures w != null && !old(w.dead) ==> dead == [w] + old(dead)
      ensures w != null ==> w.frees == old(w.frees) && w.calls == old(w.calls) && w.dead
    {
      if w == null || w.dead { return; }
      w.dead := true;
      w.sealed := w.calls;
      w.nextDead := graveyard;
      graveyard := w;
      ghost var was := dead;
      dead := [w] + dead;
      forall k | 0 <= k < |dead| ensures dead[k].nextDead == AfterDead(dead, k) {
        if k > 0 {
          assert dead[k] == was[k - 1];
          assert old(was[k - 1].nextDead) == AfterDead(was, k - 1);
        }
      }
      forall x | x in added ensures Kept(x, dead) {
        assert old(Kept(x, dead));
        assert x in dead <==> x == w || x in was;
      }
    }

    /** Free the watch at the head of the graveyard. */
    method FreeOne()
      requires Watched() && graveyard != null
      modifies this`graveyard, this`dead, dead[..1]
      ensures old(dead) != []
      ensures forall w: Watch :: w in old(dead) ==> w.dead == old(w.dead) && w.calls == old(w.calls)
      ensures Watched() && dead == old(dead)[1..] && old(dead)[0] !in dead && (forall h :: old(WatchesObey(h)) ==> WatchesObey(h))
      ensures old(dead)[0].frees == 1
    {
      hide Fds, Deletes;
      var w := graveyard;
      ghost var was := dead;
      assert w == was[0] && was[0].nextDead == AfterDead(was, 0);
      assert w in was && w in added && Kept(w, was);
      graveyard := w.nextDead;
      w.frees := w.frees + 1;
      dead := was[1..];
      forall k | 0 <= k < |dead| ensures dead[k].nextDead == AfterDead(dead, k) {
        assert dead[k] == was[k + 1] && was[k + 1].nextDead == AfterDead(was, k + 1);
      }
      forall x | x in added ensures Kept(x, dead) {
        assert old(Kept(x, dead));
        assert x in was <==> x == w || x in dead;
        assert w !in dead;
      }
    }

    lemma EmptyGraveyard()
      requires Watched()
      ensures graveyard == null <==> dead == []
    {
    }

    /** The batch is over: free what was deleted during it. */
    method FreeGraveyard()
      requires Watched()
      modifies this`graveyard, this`dead, dead
      ensures Watched() && dead == [] && (forall h :: old(WatchesObey(h)) ==> WatchesObey(h))
      ensures forall w: Watch :: w in old(dead) ==> w.dead == old(w.dead) && w.calls == old(w.calls)
      ensures forall w :: w in old(dead) ==> w.frees == 1
    {
      hide Watched, Loop.WatchesObey;
      EmptyGraveyard();
      while graveyard != null
        invariant graveyard == null <==> dead == []
        invariant Watched() && added == old(added) && (forall h :: old(WatchesObey(h)) ==> WatchesObey(h))
        invariant |dead| <= |old(dead)| && dead == old(dead)[|old(dead)| - |dead|..]
        invariant forall w :: w in old(dead) && w !in dead ==> w.frees == 1
        invariant forall w: Watch :: w in old(dead) ==> w.dead == old(w.dead) && w.calls == old(w.calls)
        decreases |dead|
      {
        FreeOne();
        EmptyGraveyard();
      }
    }

    // ---- dispatch --------------------------------------------------------------

    ghost predicate Valid()
      reads this, list, added, dead
    {
      Timed() && Watched() && Obeyed()
    }

    lemma StampsSay()
      requires Timed()
      ensures forall k :: 0 <= k < |armed| ==> armed[k].stamp == k
      ensures forall t :: t in list || t in cancelled ==> t in armed
      ensures InFiringOrder(list) && forall k :: 0 <= k < |list| ==> list[k] in armed
    {
    }

    /** A callback arms or cancels a timer. */
    method DoTimer(a: Act, now: int)
      requires Timed() && TimersObey(history) && (a.Arm? ==> a.clock >= now)
      modifies this`timers, this`list, this`armed, this`cancelled, armed
      ensures Timed() && old(armed) <= armed && old(cancelled) <= cancelled
      ensures forall k :: |old(armed)| <= k < |armed| ==> fresh(armed[k])
      ensures forall t :: t in list ==> t in old(list) || (t.due >= now && t.stamp >= |old(armed)|)
      ensures TimersObey(history + [a])
    {
      hide Timed, InFiringOrder, Insert, Without, Loop.TimersObey;
      ghost var was := list;
      StampsSay();
      match a {
        case Arm(delay, clock) =>
          var t := ArmTimer(delay, clock);
          assert armed[|old(armed)|] == t;
          InsertMembers(was, list, t);
        case Cancel(k) =>
          if k < |armed| {
            CancelTimer(armed[k]);
            WithoutMembers(was, list, armed[k]);
          }
        case _ =>
      }
      StampsSay();
      TimersStillObey(a);
    }

    /** A callback adds or deletes a watch. */
    method DoWatch(a: Act)
      requires Watched() && WatchesObey(history)
      modifies this`graveyard, this`dead, this`added, added
      ensures Watched() && old(added) <= added && WatchesObey(history + [a])
      ensures forall k :: |old(added)| <= k < |added| ==> fresh(added[k]) && added[k].frees == 0
      ensures forall w :: w in old(added) ==> w.frees == old(w.frees) && w.calls == old(w.calls) && (old(w.dead) ==> w.dead)
    {
      hide Watched, Loop.WatchesObey;
      match a {
        case Add(fd) =>
          var w := AddFd(fd, true);
          assert added[|old(added)|] == w;
        case Del(k) => if k < |added| { DelFd(added[k]); }
        case _ =>
      }
      WatchesStillObey(a);
    }

    /** One act of a callback, and nothing else. */
    method Perform(a: Act, now: int)
      requires Valid() && (a.Arm? ==> a.clock >= now)
      modifies this`timers, this`list, this`armed, this`cancelled, armed
      modifies this`graveyard, this`dead, this`added, added
      modifies this`quit, this`history
      ensures Valid() && history == old(history) + [a]
      ensures old(armed) <= armed && forall k :: |old(armed)| <= k < |armed| ==> fresh(armed[k])
      ensures old(cancelled) <= cancelled && old(added) <= added
      ensures forall k :: |old(added)| <= k < |added| ==> fresh(added[k]) && added[k].frees == 0
      ensures forall w :: w in old(added) ==> w.frees == old(w.frees) && w.calls == old(w.calls) && (old(w.dead) ==> w.dead)
      ensures forall t :: t in list ==> t in old(list) || (t.due >= now && t.stamp >= |old(armed)|)
    {
      hide Timed, Watched, Loop.Obeyed, Loop.TimersObey, Loop.WatchesObey, Dues, Fds, Cancels, Deletes;
      ObeyedIs();
      DoTimer(a, now);
      DoWatch(a);
      if a == Quit { quit := true; }
      history := history + [a];
      ObeyedIs();
    }

    lemma ObeyedIs()
      ensures Obeyed() <==> (quit <==> Quit in history) && TimersObey(history) && WatchesObey(history)
    {
    }

    twostate lemma TimersStillObey(a: Act)
      requires old(TimersObey(history)) && old(armed) <= armed
      requires forall k :: 0 <= k < |armed| ==> armed[k].stamp == k
      requires |armed| == |old(armed)| + if a.Arm? then 1 else 0
      requires a.Arm? ==> armed[|old(armed)|].due == a.clock + if a.delay > 0 then a.delay else 0
      requires forall t :: t in list ==> t in old(list) || t.stamp >= |old(armed)|
      requires forall t :: t in cancelled ==> t in old(cancelled) || (a.Cancel? && a.timer < |old(armed)| && t == armed[a.timer])
      requires forall t :: t in old(cancelled) ==> t in old(armed)
      requires a.Cancel? && a.timer < |old(armed)| ==> armed[a.timer] !in list
      ensures TimersObey(old(history) + [a])
    {
      hide Dues, Cancels;
      UnfoldActs(old(history), a);
      forall k | 0 <= k < |armed|
        ensures Cancels(old(history) + [a], k) ==> armed[k] !in list
        ensures armed[k] in cancelled ==> Cancels(old(history) + [a], k)
      {
        ActStep(old(history), a, k);
        CancelsArmed(old(history), k);
        if k < |old(armed)| { assert armed[k] == old(armed)[k]; }
      }
    }

    twostate lemma WatchesStillObey(a: Act)
      requires old(WatchesObey(history)) && old(added) <= added
      requires |added| == |old(added)| + if a.Add? then 1 else 0
      requires forall k :: |old(added)| <= k < |added| ==> added[k] !in old(added)
      requires a.Add? ==> added[|old(added)|].fd == a.fd && !added[|old(added)|].dead
      requires forall w :: w in old(added) ==>
                 (w.dead <==> old(w.dead) || (a.Del? && a.watch < |old(added)| && w == added[a.watch]))
      ensures WatchesObey(old(history) + [a])
    {
      hide Fds, Deletes;
      UnfoldActs(old(history), a);
      var n := |old(added)|;
      assert forall k :: 0 <= k < n ==> added[k] == old(added)[k] && added[k] in old(added);
      forall j, k | 0 <= j < k < |added| ensures added[j] != added[k] { if k >= n { assert added[j] in old(added); } }
      forall k | 0 <= k < |added| ensures added[k].dead <==> Deletes(old(history) + [a], k) {
        ActStep(old(history), a, k);
        DeletesAdded(old(history), k);
        if a.Del? && a.watch < n && a.watch != k && k < n { assert added[k] != added[a.watch]; }
      }
    }

    /** Everything one callback does. Its clock readings are not before `now`. */
    method Callback(acts: seq<Act>, now: int)
      requires Valid() && forall a :: a in acts && a.Arm? ==> a.clock >= now
      modifies this`timers, this`list, this`armed, this`cancelled, armed
      modifies this`graveyard, this`dead, this`added, added
      modifies this`quit, this`history
      ensures Valid() && history == old(history) + acts
      ensures old(armed) <= armed && forall k :: |old(armed)| <= k < |armed| ==> fresh(armed[k])
      ensures old(cancelled) <= cancelled && old(added) <= added
      ensures forall k :: |old(added)| <= k < |added| ==> fresh(added[k]) && added[k].frees == 0
      ensures forall w :: w in old(added) ==> w.frees == old(w.frees) && w.calls == old(w.calls) && (old(w.dead) ==> w.dead)
      ensures forall t :: t in list ==> t in old(list) || (t.due >= now && t.stamp >= |old(armed)|)
    {
      hide Valid;
      for i := 0 to |acts|
        invariant Valid() && history == old(history) + acts[..i]
        invariant old(armed) <= armed && forall k :: |old(armed)| <= k < |armed| ==> fresh(armed[k])
        invariant old(cancelled) <= cancelled && old(added) <= added
        invariant forall k :: |old(added)| <= k < |added| ==> fresh(added[k]) && added[k].frees == 0
        invariant forall w :: w in old(added) ==> w.frees == old(w.frees) && w.calls == old(w.calls) && (old(w.dead) ==> w.dead)
        invariant forall t :: t in list ==> t in old(list) || (t.due >= now && t.stamp >= |old(armed)|)
      {
        assert acts[i] in acts && acts[..i + 1] == acts[..i] + [acts[i]];
        Perform(acts[i], now);
      }
      assert acts[..|acts|] == acts;
    }

    /** Take the next timer off the list; it has fired. */
    method Pop() returns (t: Timer)
      requires Timed() && timers != null
      modifies this`timers, this`list, this`fired
      ensures Timed() && (old(Obeyed()) ==> Obeyed())
      ensures old(list) != [] && t == old(list)[0] && list == old(list)[1..] && fired == old(fired) + [t]
      ensures t in armed && t.stamp < |armed| && forall u :: u in list ==> Before(t, u)
    {
      hide InFiringOrder, Dues, Cancels, Fds, Deletes;
      t := timers;
      BooksFire(list, armed, fired, cancelled);
      StampsAreOld(list, armed, fired, cancelled);
      RestInOrder(list);
      assert list[0].next == After(list, 0);
      timers := t.next;
      ghost var was := list;
      list, fired := was[1..], fired + [t];
      forall k | 0 <= k < |list| ensures list[k].next == After(list, k) {
        assert list[k] == was[k + 1] && was[k + 1].next == After(was, k + 1);
      }
    }

    /**
     * Fire the timers that are due, one callback each. The callbacks given are
     * the first of the run; a run whose callbacks keep re-arming may go on.
     */
    method RunTimers(now: int, callbacks: seq<seq<Act>>)
      requires Valid()
      requires forall k, a :: 0 <= k < |callbacks| && a in callbacks[k] && a.Arm? ==> a.clock >= now
      modifies this`timers, this`list, this`armed, this`fired, this`cancelled, armed
      modifies this`graveyard, this`dead, this`added, added
      modifies this`quit, this`history
      ensures Valid()
      ensures old(armed) <= armed && old(cancelled) <= cancelled && old(added) <= added
      ensures forall k :: |old(armed)| <= k < |armed| ==> fresh(armed[k])
      ensures forall k :: |old(added)| <= k < |added| ==> fresh(added[k])
      ensures forall w :: w in old(added) ==> w.frees == old(w.frees) && w.calls == old(w.calls) && (old(w.dead) ==> w.dead)
      ensures old(fired) <= fired && |fired| <= |old(fired)| + |callbacks|
      ensures InFiringOrder(fired[|old(fired)|..]) && forall t :: t in fired[|old(fired)|..] ==> t.due <= now
      ensures |fired| < |old(fired)| + |callbacks| ==> quit || forall t :: t in list ==> t.due > now
      ensures history == old(history) + Concat(callbacks[..|fired| - |old(fired)|])
      ensures forall k :: 0 <= k < |fired| - |old(fired)| ==> Quit !in old(history) + Concat(callbacks[..k])
    {
      hide Timed, Watched, Concat, Loop.TimersObey, Loop.WatchesObey;
      ghost var n := |fired|;
      ConcatNone<Act>();
      assert callbacks[..0] == [] && history + [] == history;
      ghost var run: seq<Timer> := [];
      var k := 0;
      while timers != null && timers.due <= now && !quit && k < |callbacks|
        invariant k <= |callbacks| && |run| == k && fired == old(fired) + run
        invariant Valid()
        invariant old(armed) <= armed && forall k :: |old(armed)| <= k < |armed| ==> fresh(armed[k])
        invariant old(added) <= added && forall k :: |old(added)| <= k < |added| ==> fresh(added[k])
        invariant old(cancelled) <= cancelled
        invariant forall w :: w in old(added) ==> w.frees == old(w.frees) && w.calls == old(w.calls) && (old(w.dead) ==> w.dead)
        invariant InFiringOrder(run)
        invariant forall t :: t in run ==> t.due <= now && t.stamp < |armed|
        invariant forall t, u :: t in run && u in list ==> Before(t, u)
        invariant history == old(history) + Concat(callbacks[..k])
        invariant forall j :: 0 <= j < k ==> Quit !in old(history) + Concat(callbacks[..j])
        decreases |callbacks| - k
      {
        Head();
        var t := Pop();
        ExtendRun(run, t);
        run := run + [t];
        ConcatAppend(callbacks[..k], callbacks[k]);
        assert callbacks[..k + 1] == callbacks[..k] + [callbacks[k]];
        assert old(history) + Concat(callbacks[..k]) + callbacks[k] == old(history) + (Concat(callbacks[..k]) + callbacks[k]);
        Callback(callbacks[k], now);
        k := k + 1;
      }
      Head();
      assert fired[n..] == run;
    }

    /** The head of the list is the timer due first. */
    lemma Head()
      requires Timed()
      ensures timers == null <==> list == []
      ensures timers != null ==> timers == list[0] && forall t :: t in list ==> timers.due <= t.due
    {
    }

    /** Call a live watch. */
    method Call(w: Watch)
      requires Watched() && w in added && !w.dead
      modifies w`calls
      ensures (old(Obeyed()) ==> Obeyed()) && Watched() && w.calls == old(w.calls) + 1
    {
      hide Dues, Cancels, Fds, Deletes;
      w.calls := w.calls + 1;
      forall x | x in added ensures Kept(x, dead) { assert old(Kept(x, dead)); }
    }

    /** One event: its watch is called if it is still alive. */
    method Dispatch(w: Watch, acts: seq<Act>, now: int) returns (ghost look: Look)
      requires Valid() && w in added && forall a :: a in acts && a.Arm? ==> a.clock >= now
      modifies this`timers, this`list, this`armed, this`cancelled, armed
      modifies this`graveyard, this`dead, this`added, added
      modifies this`quit, this`history
      ensures Valid()
      ensures old(armed) <= armed && forall k :: |old(armed)| <= k < |armed| ==> fresh(armed[k])
      ensures old(cancelled) <= cancelled && old(added) <= added
      ensures forall k :: |old(added)| <= k < |added| ==> fresh(added[k])
      ensures look == Look(w, old(w.dead), old(w.frees)) && history == old(history) + if look.dead then [] else acts
      ensures forall x :: x in old(added) ==>
                && x.frees == old(x.frees) && (old(x.dead) ==> x.dead)
                && x.calls == old(x.calls) + if x == w && !look.dead then 1 else 0
    {
      hide Timed, Watched, Loop.TimersObey, Loop.WatchesObey;
      assert history + [] == history;
      look := Look(w, w.dead, w.frees);
      if !w.dead {
        Call(w);
        Callback(acts, now);
      }
    }

    /**
     * One epoll batch. Every watch it names was alive when the kernel reported
     * it; one that a callback deletes is skipped, and its memory is still there
     * to be looked at. Then the graveyard is emptied. looks is what the loop saw
     * of each event's watch when its turn came.
     */
    method Batch(evs: seq<Watch>, ghost numbers: seq<nat>, callbacks: seq<seq<Act>>, now: int) returns (ghost looks: seq<Look>)
      requires Valid() && |callbacks| == |evs| && Numbered(evs, numbers)
      requires forall w :: w in evs ==> w in added && !w.dead
      requires forall k, a :: 0 <= k < |callbacks| && a in callbacks[k] && a.Arm? ==> a.clock >= now
      modifies this`timers, this`list, this`armed, this`cancelled, armed
      modifies this`graveyard, this`dead, this`added, added
      modifies this`quit, this`history
      ensures Valid() && dead == [] && fired == old(fired)
      ensures old(armed) <= armed && old(cancelled) <= cancelled && old(added) <= added
      ensures forall k :: |old(armed)| <= k < |armed| ==> fresh(armed[k])
      ensures forall k :: |old(added)| <= k < |added| ==> fresh(added[k])
      // no event's watch has been freed when its turn comes, and it is called exactly if it is alive
      ensures |looks| <= |evs| && (!quit ==> |looks| == |evs|) && history == Heard(old(history), numbers, callbacks)
      ensures forall k :: 0 <= k < |looks| ==> looks[k].watch == evs[k] && looks[k].frees == 0
      ensures forall w :: w in old(added) ==> w.calls == old(w.calls) + CallsOf(looks, w)
      ensures forall w :: w in old(added) && old(w.dead) ==> w.dead && w.calls == old(w.calls)
      ensures forall w :: w in added && w.dead ==> w.frees == 1
    {
      hide Timed, Watched, Loop.TimersObey, Loop.WatchesObey, CallsOf, Heard, Loop.Numbered;
      looks := Visit(evs, numbers, callbacks, now);
      DeadIsAdded();
      FreeGraveyard();
      DeadAreFreed();
    }

    ghost predicate Numbered(evs: seq<Watch>, numbers: seq<nat>)
      reads this`added
    {
      |evs| == |numbers| && forall i :: 0 <= i < |evs| ==> numbers[i] < |added| && evs[i] == added[numbers[i]]
    }

    /** The turns of a batch's events, in order, until a callback asks to stop. */
    method Visit(evs: seq<Watch>, ghost numbers: seq<nat>, callbacks: seq<seq<Act>>, now: int) returns (ghost looks: seq<Look>)
      requires Valid() && |callbacks| == |evs| && Numbered(evs, numbers)
      requires forall w :: w in evs ==> w in added && !w.dead
      requires forall k, a :: 0 <= k < |callbacks| && a in callbacks[k] && a.Arm? ==> a.clock >= now
      modifies this`timers, this`list, this`armed, this`cancelled, armed
      modifies this`graveyard, this`dead, this`added, added
      modifies this`quit, this`history
      ensures Valid()
      ensures old(armed) <= armed && old(cancelled) <= cancelled && old(added) <= added
      ensures forall k :: |old(armed)| <= k < |armed| ==> fresh(armed[k])
      ensures forall k :: |old(added)| <= k < |added| ==> fresh(added[k])
      ensures |looks| <= |evs| && (!quit ==> |looks| == |evs|) && history == Heard(old(history), numbers, callbacks)
      ensures forall k :: 0 <= k < |looks| ==> looks[k].watch == evs[k] && looks[k].frees == 0
      ensures forall w :: w in old(added) ==> w.calls == old(w.calls) + CallsOf(looks, w)
      ensures forall w :: w in old(added) && old(w.dead) ==> w.dead && w.calls == old(w.calls)
    {
      hide Loop.Valid, Alive, CallsOf, Heard, Deletes;
      AliveIsNotFreed(evs);
      HeardNone(history, numbers, callbacks);
      looks := [];
      forall w: Watch | w in added ensures CallsOf(looks, w) == 0 { NoLooks(w); }
      var i := 0;
      while i < |evs| && !quit
        invariant i <= |evs| && Valid()
        invariant old(armed) <= armed && forall k :: |old(armed)| <= k < |armed| ==> fresh(armed[k])
        invariant old(added) <= added && forall k :: |old(added)| <= k < |added| ==> fresh(added[k])
        invariant old(cancelled) <= cancelled
        invariant forall w :: w in evs ==> w in added && w.frees == 0
        invariant |looks| == i && forall k :: 0 <= k < i ==> looks[k].watch == evs[k] && looks[k].frees == 0
        invariant forall w :: w in old(added) ==> w.calls == old(w.calls) + CallsOf(looks, w)
        invariant forall w :: w in old(added) && old(w.dead) ==> w.dead
        invariant history == Heard(old(history), numbers[..i], callbacks[..i])
      {
        HeardStep(old(history), numbers, callbacks, i);
        DeadIfDeleted(numbers[i]);
        var w := evs[i];
        assert w in evs && w in old(added);
        ghost var was := looks;
        ghost var look := Dispatch(w, callbacks[i], now);
        looks := looks + [look];
        OneMore(was, look);
        i := i + 1;
      }
      forall w | w in old(added) && old(w.dead) ensures CallsOf(looks, w) == 0 { NotLooked(looks, w); }
      DeadIfDeleted(0);
      HeardNoMore(old(history), numbers, callbacks, i);
    }

    lemma DeadIfDeleted(k: nat)
      requires Valid()
      ensures k < |added| ==> (added[k].dead <==> Deletes(history, k))
      ensures k < |added| && !added[k].dead <==> Alive(history, k)
      ensures quit <==> Quit in history
    {
      hide Deletes, Fds;
    }

    /** With the graveyard empty every deleted watch has been freed, and once. */
    lemma DeadAreFreed()
      requires Watched() && dead == []
      ensures forall w :: w in added && w.dead ==> w.frees == 1
    {
    }

    // ---- whole runs --------------------------------------------------------------

    /** The watches the kernel reports, by number; it knows only those that are not deleted. */
    method Reported(numbers: seq<nat>, callbacks: seq<seq<Act>>) returns (evs: seq<Watch>, ghost live: seq<nat>, cbs: seq<seq<Act>>)
      requires |numbers| == |callbacks| && Valid()
      ensures live == LiveOnes(history, numbers) && cbs == LiveCalls(history, numbers, callbacks)
      ensures Numbered(evs, live) && |evs| == |cbs| && forall w :: w in evs ==> w in added && !w.dead
      ensures forall c :: c in cbs ==> c in callbacks
    {
      hide LiveOnes, LiveCalls, Alive, Loop.Valid;
      evs, live, cbs := [], [], [];
      NoneLive(history, numbers, callbacks);
      for i := 0 to |numbers|
        invariant Numbered(evs, live) && |evs| == |cbs| && forall w :: w in evs ==> w in added && !w.dead
        invariant forall c :: c in cbs ==> c in callbacks
        invariant live == LiveOnes(history, numbers[..i]) && cbs == LiveCalls(history, numbers[..i], callbacks[..i])
      {
        var k := numbers[i];
        LiveStep(history, numbers, callbacks, i);
        DeadIfDeleted(k);
        if k < |added| && !added[k].dead {
          evs, live, cbs := evs + [added[k]], live + [k], cbs + [callbacks[i]];
        }
      }
      assert numbers[..|numbers|] == numbers && callbacks[..|callbacks|] == callbacks;
    }

    /**
     * One turn of the loop: the prepare hook, then, unless the wait was cut short,
     * a batch and the timers that are due.
     */
    method RunTurn(turn: Turn) returns (ghost looks: seq<Look>)
      requires Valid() && turn.Fair()
      modifies this`timers, this`list, this`armed, this`fired, this`cancelled, armed
      modifies this`graveyard, this`dead, this`added, added
      modifies this`quit, this`history
      ensures Valid()
      ensures old(armed) <= armed && old(fired) <= fired && old(cancelled) <= cancelled && old(added) <= added
      ensures forall k :: |old(armed)| <= k < |armed| ==> fresh(armed[k])
      ensures forall k :: |old(added)| <= k < |added| ==> fresh(added[k])
      ensures InFiringOrder(fired[|old(fired)|..]) && forall t :: t in fired[|old(fired)|..] ==> t.due <= turn.timersNow
      ensures forall k :: 0 <= k < |looks| ==> looks[k].frees == 0
      ensures forall w :: w in old(added) ==> w.calls == old(w.calls) + CallsOf(looks, w)
      ensures forall w :: w in old(added) && old(w.dead) ==>
                w.dead && w.calls == old(w.calls) && w.frees == if turn.wait.Woken? then 1 else old(w.frees)
      ensures !turn.wait.Woken? ==> looks == [] && fired == old(fired)
      ensures Fires(turn, Report(|old(fired)|, |fired|, |armed|), fired, armed, cancelled, quit)
      ensures |fired| - |old(fired)| <= |turn.timerCallbacks|
      ensures history == TurnActs(old(history), turn, |fired| - |old(fired)|)
    {
      hide Timed, Watched, Loop.TimersObey, Loop.WatchesObey, InFiringOrder, CallsOf, Heard, LiveOnes, LiveCalls, Concat, Loop.Numbered;
      Callback(turn.prepare, turn.now);
      if !turn.wait.Woken? {
        looks := [];
        NothingFired(fired);
        forall w: Watch ensures CallsOf(looks, w) == 0 { NoLooks(w); }
        assert fired[|old(fired)|..|fired|] == fired[|fired|..];
        return;
      }
      label prepared:
      var evs, live, cbs := Reported(turn.events, turn.callbacks);
      forall k, a: Act | 0 <= k < |cbs| && a in cbs[k] && a.Arm? ensures a.clock >= turn.now {
        assert cbs[k] in turn.callbacks;
      }
      looks := Batch(evs, live, cbs, turn.now);
      label dispatched:
      assert forall w :: w in old(added) ==> w in old@prepared(added) && w in old@dispatched(added);
      RunTimers(turn.timersNow, turn.timerCallbacks);
      BooksSay();
      assert fired[|old(fired)|..|fired|] == fired[|old(fired)|..] && fired[..|fired|] == fired && armed[..|armed|] == armed;
    }

    /**
     * The run as a whole: what was cancelled or deleted, whenever that was, stays
     * so; and turn by turn the timers that are due fire, in order.
     */
    method Drive(turns: seq<Turn>) returns (done: nat, ghost looks: seq<Look>, ghost reports: seq<Report>)
      requires Valid() && forall k :: 0 <= k < |turns| ==> turns[k].Fair()
      modifies this`timers, this`list, this`armed, this`fired, this`cancelled, armed
      modifies this`graveyard, this`dead, this`added, added
      modifies this`quit, this`history
      ensures Valid() && done <= |turns|
      ensures done < |turns| ==> quit || (done > 0 && turns[done - 1].wait.Failed?)
      ensures !old(quit) && turns != [] ==> done > 0
      ensures old(armed) <= armed && old(fired) <= fired && old(cancelled) <= cancelled && old(added) <= added
      // the turns' firings follow each other and are all there are
      ensures |reports| == done && TurnsFire(turns, reports, |old(fired)|, fired, armed, cancelled, quit)
      // and what was done is what the callbacks of the prepare hook, of live watches and of fired timers do
      ensures history == RunActs(old(history), turns, reports) && (quit <==> Quit in history)
      // a timer fires at most once, never after it was cancelled, and is otherwise still pending
      ensures forall i, j :: 0 <= i < j < |fired| ==> fired[i] != fired[j]
      ensures forall t :: t in cancelled ==> t !in fired
      ensures forall t :: t in armed <==> t in list || t in fired || t in cancelled
      ensures forall t :: t in list ==> t !in fired && t !in cancelled
      // a watch is called once for every event that finds it alive, and none has been freed by then
      ensures forall k :: 0 <= k < |looks| ==> looks[k].frees == 0
      ensures forall w :: w in old(added) ==> w.calls == old(w.calls) + CallsOf(looks, w)
      // a watch deleted before the run is not called in it and is freed exactly once, at the first batch
      ensures forall w :: w in old(added) && old(w.dead) ==> w.dead && w.calls == old(w.calls)
      ensures (exists k :: 0 <= k < done && turns[k].wait.Woken?) ==>
                forall w :: w in old(added) && old(w.dead) ==> w.frees == 1
      // one deleted during it has not been called since, and is freed once or still waits
      ensures forall w :: w in added && w.dead ==> w.calls == w.sealed && w.frees == if w in dead then 0 else 1
    {
      hide *;
      done, looks, reports := Turns(turns);
      BooksSay();
      DeadIfDeleted(0);
    }

    /** The loop itself: until a callback asks to stop, or the wait fails. */
    method Turns(turns: seq<Turn>) returns (done: nat, ghost looks: seq<Look>, ghost reports: seq<Report>)
      requires Valid() && forall k :: 0 <= k < |turns| ==> turns[k].Fair()
      modifies this`timers, this`list, this`armed, this`fired, this`cancelled, armed
      modifies this`graveyard, this`dead, this`added, added
      modifies this`quit, this`history
      ensures Valid() && done <= |turns|
      ensures done < |turns| ==> quit || (done > 0 && turns[done - 1].wait.Failed?)
      ensures !old(quit) && turns != [] ==> done > 0
      ensures old(armed) <= armed && old(fired) <= fired && old(cancelled) <= cancelled && old(added) <= added
      ensures |reports| == done && TurnsFire(turns, reports, |old(fired)|, fired, armed, cancelled, quit)
      ensures history == RunActs(old(history), turns, reports)
      ensures forall k :: 0 <= k < |looks| ==> looks[k].frees == 0
      ensures forall w :: w in old(added) ==> w.calls == old(w.calls) + CallsOf(looks, w)
      ensures forall w :: w in old(added) && old(w.dead) ==> w.dead && w.calls == old(w.calls)
      ensures (exists k :: 0 <= k < done && turns[k].wait.Woken?) ==>
                forall w :: w in old(added) && old(w.dead) ==> w.frees == 1
    {
      hide Loop.Valid, InFiringOrder, CallsOf, Fires, TurnsFire, RunActs, TurnActs;
      looks, reports := [], [];
      NoRunActs(history, turns);
      NoTurns(turns, fired, armed, cancelled, quit);
      AllLooks([], []);
      done := 0;
      ghost var woken := false;
      while done < |turns| && !quit
        invariant done <= |turns| && Valid()
        invariant old(armed) <= armed && old(fired) <= fired && old(cancelled) <= cancelled && old(added) <= added
        invariant forall k :: |old(armed)| <= k < |armed| ==> fresh(armed[k])
        invariant forall k :: |old(added)| <= k < |added| ==> fresh(added[k])
        invariant forall w :: w in old(added) && old(w.dead) ==> w.dead && w.calls == old(w.calls)
        invariant forall k :: 0 <= k < done && turns[k].wait.Woken? ==> woken
        invariant woken ==> forall w :: w in old(added) && old(w.dead) ==> w.frees == 1
        invariant done == 0 ==> quit == old(quit)
        invariant |reports| == done && TurnsFire(turns, reports, |old(fired)|, fired, armed, cancelled, quit)
        invariant history == RunActs(old(history), turns, reports)
        invariant forall k :: 0 <= k < |looks| ==> looks[k].frees == 0
        invariant forall w :: w in old(added) ==> w.calls == old(w.calls) + CallsOf(looks, w)
      {
        ghost var (fired1, armed1, cancelled1) := (fired, armed, cancelled);
        ghost var more := RunTurn(turns[done]);
        TurnFires(turns, reports, |old(fired)|, fired1, armed1, cancelled1, fired, armed, cancelled, quit);
        RunActsMore(old(history), turns, reports, Report(|fired1|, |fired|, |armed|));
        reports := reports + [Report(|fired1|, |fired|, |armed|)];
        AllLooks(looks, more);
        looks := looks + more;
        woken := woken || turns[done].wait.Woken?;
        done := done + 1;
        if turns[done - 1].wait.Failed? { break; }
      }
    }

    lemma BooksSay()
      requires Valid()
      ensures forall i, j :: 0 <= i < j < |fired| ==> fired[i] != fired[j]
      ensures forall t :: t in cancelled ==> t !in fired
      ensures forall t :: t in armed <==> t in list || t in fired || t in cancelled
      ensures forall t :: t in list ==> t !in fired && t !in cancelled
      ensures forall w :: w in added && w.dead ==> w.calls == w.sealed && w.frees == if w in dead then 0 else 1
    {
    }

    lemma AliveIsNotFreed(evs: seq<Watch>)
      requires Valid() && forall w :: w in evs ==> w in added && !w.dead
      ensures forall w :: w in evs ==> w.frees == 0
    {
    }

    lemma DeadIsAdded()
      requires Watched()
      ensures forall k :: 0 <= k < |dead| ==> dead[k] in added
    {
    }

    /** How long epoll may wait: for ever with no timer, else never past the next due time. */
    method Timeout(now: int) returns (ms: int)
      requires Timed()
      ensures ms == -1 <==> list == []
      ensures list != [] ==> 0 <= ms <= 0x4000_0000
      ensures forall t :: t in list ==> ms == 0 || now + ms <= t.due
    {
      Head();
      ms := -1;
      if timers != null {
        var d := timers.due - now;
        ms := if d < 0 then 0 else if d > 0x4000_0000 then 0x4000_0000 else d;
      }
    }

    constructor ()
      ensures Valid() && list == [] && fired == [] && added == [] && armed == [] && !quit && history == []
    {
      timers, list, armed, fired, cancelled, quit := null, [], [], [], {}, false;
      graveyard, dead, added, history := null, [], [], [];
      new;
      NoActs(0);
    }
  }

  lemma NothingFired(fired: seq<Timer>)
    ensures InFiringOrder(fired[|fired|..]) && fired[|fired|..] == []
  {
  }

  lemma RestInOrder(ts: seq<Timer>)
    requires InFiringOrder(ts) && ts != []
    ensures InFiringOrder(ts[1..]) && forall t :: t in ts[1..] ==> Before(ts[0], t)
  {
  }

  lemma ExtendRun(run: seq<Timer>, t: Timer)
    requires InFiringOrder(run) && forall r :: r in run ==> Before(r, t)
    ensures InFiringOrder(run + [t])
  {
  }

  lemma InsertMembers(s: seq<Timer>, r: seq<Timer>, t: Timer)
    requires exists i :: 0 <= i <= |s| && r == Insert(s, i, t)
    ensures forall x :: x in r ==> x in s || x == t
  {
  }

  lemma WithoutMembers(s: seq<Timer>, r: seq<Timer>, t: Timer)
    requires InFiringOrder(s)
    requires (r == s && t !in s) || exists i :: 0 <= i < |s| && s[i] == t && r == Without(s, i)
    ensures t !in r && forall x :: x in r ==> x in s
  {
    if i :| 0 <= i < |s| && s[i] == t && r == Without(s, i) { WithoutKeepsOrder(s, i); }
  }
}
