/**
 * Retention (daemon/src/db.c): clips that are too old, too old for their size,
 * or too many go, unless the user has invested in them.
 */
module Retention {
  import opened Bytes
  import opened Schema
  import opened Order
  import Disk
  import Store

  const DAY: int := 86400000

  /** 0 or less switches a limit off. */
  datatype Settings = Settings(maxAge: int, large: int, largeAge: int, maxClips: int)

  predicate InBuffer(t: Tables, id: nat) { exists s :: s in t.buffers && t.buffers[s] == id }

  predicate Expendable(t: Tables, id: nat) {
    && id in t.clips && !InBuffer(t, id) && Plain(t.clips[id]) && t.clips[id].uuid !in t.bound
  }

  predicate Plain(c: Clip) { c.sticky.None? && !c.locked && c.group.None? && c.quick.None? }

  function Expendables(t: Tables): (e: set<nat>)
    ensures e <= t.clips.Keys
  {
    set id | id in t.clips && Expendable(t, id)
  }

  function Protected(t: Tables): set<nat> { t.clips.Keys - Expendables(t) }

  predicate TooOld(c: Clip, now: int, s: Settings) { s.maxAge > 0 && c.used < now - s.maxAge * DAY }

  predicate TooHeavy(c: Clip, now: int, s: Settings) {
    s.largeAge > 0 && c.size >= s.large && c.used < now - s.largeAge * DAY
  }

  function OldOnes(t: Tables, now: int, s: Settings): set<nat> {
    set id | id in Expendables(t) && TooOld(t.clips[id], now, s)
  }

  function HeavyOnes(t: Tables, now: int, s: Settings): set<nat> {
    set id | id in Expendables(t) && TooHeavy(t.clips[id], now, s)
  }

  predicate Newer(clips: map<nat, Clip>, x: nat, y: nat) {
    x in clips && y in clips && (clips[x].used > clips[y].used || (clips[x].used == clips[y].used && x > y))
  }

  function ByAge(clips: map<nat, Clip>): (nat, nat) -> bool { (x: nat, y: nat) => Newer(clips, x, y) }

  /** The expendable clips ahead of this one. */
  function Ahead(t: Tables, id: nat): set<nat> { set j | j in Expendables(t) && Newer(t.clips, j, id) }

  /** How many expendable clips there is room for. */
  function Room(t: Tables, s: Settings): nat {
    if s.maxClips > |Protected(t)| then s.maxClips - |Protected(t)| else 0
  }

  function Excess(t: Tables, s: Settings): set<nat> {
    set id | id in Expendables(t) && s.maxClips > 0 && |Ahead(t, id)| >= Room(t, s)
  }

  /** After the two age steps. */
  function Aged(t: Tables, now: int, s: Settings): Tables {
    var t1 := WithoutClips(t, OldOnes(t, now, s));
    WithoutClips(t1, HeavyOnes(t1, now, s))
  }

  function After(t: Tables, now: int, s: Settings): Tables {
    var t2 := Aged(t, now, s);
    WithoutClips(t2, Excess(t2, s))
  }

  // ---- what deleting expendable clips does to the others -----------------------------

  lemma ExpendableStays(t: Tables, ids: set<nat>, id: nat)
    requires id in t.clips && id !in ids
    ensures Expendable(WithoutClips(t, ids), id) <==> Expendable(t, id)
  {
    hide Plain;
    var t2 := WithoutClips(t, ids);
    if InBuffer(t, id) {
      var s :| s in t.buffers && t.buffers[s] == id;
      assert s in t2.buffers && t2.buffers[s] == id;
    }
  }

  lemma ExpendablesOfRest(t: Tables, ids: set<nat>)
    ensures Expendables(WithoutClips(t, ids)) == Expendables(t) - ids
    ensures ids <= Expendables(t) ==> Protected(WithoutClips(t, ids)) == Protected(t)
  {
    hide Expendable;
    var t2 := WithoutClips(t, ids);
    forall id ensures id in Expendables(t2) <==> id in Expendables(t) - ids {
      if id in t.clips && id !in ids {
        ExpendableStays(t, ids, id);
      }
    }
  }

  lemma AgedRest(t: Tables, now: int, s: Settings)
    ensures Expendables(Aged(t, now, s)) <= Expendables(t)
    ensures Protected(Aged(t, now, s)) == Protected(t)
    ensures forall id :: id in Aged(t, now, s).clips ==> id in t.clips && Aged(t, now, s).clips[id] == t.clips[id]
    ensures forall id :: id in Expendables(Aged(t, now, s)) ==> !TooOld(t.clips[id], now, s) && !TooHeavy(t.clips[id], now, s)
  {
    hide Expendables, Protected, TooOld, TooHeavy;
    var t1 := WithoutClips(t, OldOnes(t, now, s));
    ExpendablesOfRest(t, OldOnes(t, now, s));
    ExpendablesOfRest(t1, HeavyOnes(t1, now, s));
  }

  // ---- the count step ------------------------------------------------------------------

  lemma NewerIsStrict(t: Tables)
    ensures Strict(Expendables(t), ByAge(t.clips))
  {
    hide Expendable;
  }

  lemma LaterIsNotNewer(t: Tables, order: seq<nat>)
    requires Listing(order, Expendables(t), ByAge(t.clips))
    ensures forall i, k :: 0 <= i <= k < |order| ==> !Newer(t.clips, order[k], order[i])
  {
    hide Expendables;
    var before := ByAge(t.clips);
    forall i, k | 0 <= i <= k < |order| ensures !Newer(t.clips, order[k], order[i]) {
      assert i < k ==> before(order[i], order[k]);
    }
  }

  /** In a listing, the place of a clip is the number of clips ahead of it. */
  lemma PlaceIsRank(t: Tables, order: seq<nat>, i: nat)
    requires Listing(order, Expendables(t), ByAge(t.clips)) && i < |order|
    ensures |Ahead(t, order[i])| == i
  {
    hide Expendables;
    var before := ByAge(t.clips);
    assert forall a, b :: 0 <= a < b < |order| ==> before(order[a], order[b]);
    LaterIsNotNewer(t, order);
    assert Ahead(t, order[i]) == Order.Members(order[..i]) by {
      forall x ensures x in Ahead(t, order[i]) <==> x in order[..i] {
        if x in Ahead(t, order[i]) {
          var k :| 0 <= k < |order| && order[k] == x;
          assert order[..i][k] == x;
        }
        if x in order[..i] {
          var k :| 0 <= k < i && order[..i][k] == x;
          assert before(order[k], order[i]) && order[k] in order;
        }
      }
    }
    forall a, b | 0 <= a < b < i ensures order[..i][a] != order[..i][b] {
      assert before(order[a], order[b]);
    }
    Order.MembersCount(order[..i]);
  }

  /** LIMIT -1 OFFSET room: what stands past the room there is. */
  lemma OffsetIsExcess(t: Tables, order: seq<nat>, s: Settings)
    requires Listing(order, Expendables(t), ByAge(t.clips)) && s.maxClips > 0
    ensures Order.Members(order[if Room(t, s) < |order| then Room(t, s) else |order|..]) == Excess(t, s)
  {
    hide Expendables, Ahead, Room, Newer;
    var k := if Room(t, s) < |order| then Room(t, s) else |order|;
    forall x ensures x in order[k..] <==> x in Excess(t, s) {
      if x in Expendables(t) {
        var i :| 0 <= i < |order| && order[i] == x;
        PlaceIsRank(t, order, i);
        if i >= k { assert order[k..][i - k] == x; }
      }
      if x in order[k..] {
        var j :| 0 <= j < |order| - k && order[k..][j] == x;
        assert order[k + j] == x && x in order;
        PlaceIsRank(t, order, k + j);
      }
    }
  }

  lemma ExcessCount(t: Tables, s: Settings)
    requires s.maxClips > 0
    ensures var n := |Expendables(t)|; |Expendables(t) - Excess(t, s)| == if Room(t, s) < n then Room(t, s) else n
  {
    hide Expendables, Room, Excess, ByAge, Strict, Listing;
    NewerIsStrict(t);
    var order := ListingExists(Expendables(t), ByAge(t.clips));
    var k := if Room(t, s) < |order| then Room(t, s) else |order|;
    OffsetIsExcess(t, order, s);
    FirstPart(order, Expendables(t), ByAge(t.clips), k);
  }

  // ---- what retention promises --------------------------------------------------------------

  /** A clip the user has invested in is never removed and never changed. */
  lemma ProtectedStay(t: Tables, now: int, s: Settings, id: nat)
    requires id in Protected(t)
    ensures id in After(t, now, s).clips && After(t, now, s).clips[id] == t.clips[id]
    ensures Protected(After(t, now, s)) == Protected(t)
  {
    hide Expendable, Ahead, Room, OldOnes, HeavyOnes;
    AgedRest(t, now, s);
    var t2 := Aged(t, now, s);
    ExpendablesOfRest(t2, Excess(t2, s));
  }

  /** The user has invested in it: locked, sticky, grouped, given a word, in a copy buffer or bound to a hotkey. */
  ghost predicate Invested(t: Tables, id: nat)
    requires id in t.clips
  {
    var c := t.clips[id];
    || c.locked || c.sticky.Some? || c.group.Some? || c.quick.Some?
    || (exists slot :: slot in t.buffers && t.buffers[slot] == id)
    || c.uuid in t.bound
  }

  /** Unused for too many days of 86400000 milliseconds, or for too many for its size. */
  ghost predicate Stale(c: Clip, now: int, s: Settings) {
    || (s.maxAge > 0 && now - c.used > 86400000 * s.maxAge)
    || (s.largeAge > 0 && now - c.used > 86400000 * s.largeAge && !(c.size < s.large))
  }

  ghost function InvestedIn(t: Tables): set<nat> { set id | id in t.clips && Invested(t, id) }

  /** The clips that compete with this one and were used after it; of those used at once, the later ones. */
  ghost function Fresher(t: Tables, now: int, s: Settings, id: nat): set<nat>
    requires id in t.clips
  {
    set j | && j in t.clips && !Invested(t, j) && !Stale(t.clips[j], now, s)
            && (t.clips[id].used < t.clips[j].used || (t.clips[id].used == t.clips[j].used && id < j))
  }

  lemma InvestedIs(t: Tables, id: nat)
    requires id in t.clips
    ensures Invested(t, id) <==> id in Protected(t)
    ensures Invested(t, id) <==> id !in Expendables(t)
  {
  }

  lemma StaleIs(c: Clip, now: int, s: Settings)
    ensures Stale(c, now, s) <==> TooOld(c, now, s) || TooHeavy(c, now, s)
  {
  }

  lemma AgedAre(t: Tables, now: int, s: Settings, id: nat)
    requires id in t.clips
    ensures id in Aged(t, now, s).clips <==> Invested(t, id) || !Stale(t.clips[id], now, s)
    ensures id in Expendables(Aged(t, now, s)) <==> !Invested(t, id) && !Stale(t.clips[id], now, s)
  {
    hide Expendables, Protected, TooOld, TooHeavy, Invested, Stale;
    InvestedIs(t, id);
    StaleIs(t.clips[id], now, s);
    var t1 := WithoutClips(t, OldOnes(t, now, s));
    ExpendablesOfRest(t, OldOnes(t, now, s));
    ExpendablesOfRest(t1, HeavyOnes(t1, now, s));
  }

  lemma FresherIs(t: Tables, now: int, s: Settings, id: nat)
    requires id in t.clips && id in Aged(t, now, s).clips
    ensures Ahead(Aged(t, now, s), id) == Fresher(t, now, s, id)
    ensures |Protected(Aged(t, now, s))| == |InvestedIn(t)|
  {
    hide Expendables, Aged, Invested, Stale, Protected;
    var t2 := Aged(t, now, s);
    AgedRest(t, now, s);
    forall j | j in t.clips ensures j in Expendables(t2) <==> !Invested(t, j) && !Stale(t.clips[j], now, s) { AgedAre(t, now, s, j); }
    forall j | j in t.clips ensures Invested(t, j) <==> j in Protected(t) { InvestedIs(t, j); }
    ProtectedAreThere(t);
    assert Protected(t) == InvestedIn(t);
  }

  lemma ProtectedAreThere(t: Tables)
    ensures Protected(t) <= t.clips.Keys
  {
  }

  lemma ExcessIs(t: Tables, s: Settings, id: nat)
    requires id in Expendables(t)
    ensures id in Excess(t, s) <==> s.maxClips > 0 && |Protected(t)| + |Ahead(t, id)| >= s.maxClips
  {
    hide Expendables, Protected, Ahead;
  }

  /**
   * A pass removes a clip exactly when the user has not invested in it and it is
   * stale, or there are enough clips without it: those the user has invested in
   * and the fresher ones. What is left is unchanged.
   */
  lemma RemovedIff(t: Tables, now: int, s: Settings, id: nat)
    requires id in t.clips
    ensures id !in After(t, now, s).clips <==>
              && !Invested(t, id)
              && (Stale(t.clips[id], now, s) || (s.maxClips > 0 && |InvestedIn(t)| + |Fresher(t, now, s, id)| >= s.maxClips))
    ensures id in After(t, now, s).clips ==> After(t, now, s).clips[id] == t.clips[id]
  {
    hide Expendables, Aged, Invested, Stale, Protected, Excess, Ahead, Fresher, InvestedIn;
    var t2 := Aged(t, now, s);
    AgedRest(t, now, s);
    AgedAre(t, now, s, id);
    ExcessIsExpendable(t2, s);
    if id in t2.clips {
      FresherIs(t, now, s, id);
      if id in Expendables(t2) { ExcessIs(t2, s, id); }
    }
  }

  /** Those the user has invested in are there, as they were. */
  ghost predicate Spared(was: Tables, t: Tables) {
    forall id :: id in was.clips && Invested(was, id) ==> id in t.clips && t.clips[id] == was.clips[id]
  }

  lemma InvestedAreSpared(t: Tables, now: int, s: Settings)
    ensures Spared(t, After(t, now, s)) && Spared(t, t)
  {
    hide After, Invested, Stale, InvestedIn, Fresher;
    forall id | id in t.clips && Invested(t, id) ensures id in After(t, now, s).clips && After(t, now, s).clips[id] == t.clips[id] {
      RemovedIff(t, now, s, id);
    }
  }

  lemma Split(t: Tables)
    ensures |t.clips.Keys| == |Protected(t)| + |Expendables(t)|
  {
    assert t.clips.Keys == Protected(t) + Expendables(t);
  }

  /** At most max(m, protected) clips are left, exactly that many if the count step removed any. */
  lemma CountBound(t: Tables, now: int, s: Settings)
    requires s.maxClips > 0
    ensures var (n, p) := (|After(t, now, s).clips.Keys|, |Protected(t)|);
            && n <= (if s.maxClips > p then s.maxClips else p)
            && (Excess(Aged(t, now, s), s) != {} ==> n == if s.maxClips > p then s.maxClips else p)
  {
    hide Expendable, Ahead, OldOnes, HeavyOnes, Aged, Expendables, Excess, Protected;
    var t2 := Aged(t, now, s);
    AgedRest(t, now, s);
    ExcessIsExpendable(t2, s);
    ExpendablesOfRest(t2, Excess(t2, s));
    ExcessCount(t2, s);
    Split(t2);
    Split(After(t, now, s));
    if Excess(t2, s) != {} {
      Order.Fits(Expendables(t2) - Excess(t2, s), Expendables(t2));
      Fewer(Expendables(t2), Excess(t2, s));
    }
  }

  lemma Fewer(a: set<nat>, b: set<nat>)
    requires b <= a && b != {}
    ensures |a - b| < |a|
  {
    var x :| x in b;
    assert a - b <= a - {x};
    Order.Fits(a - b, a - {x});
  }

  lemma ExcessIsExpendable(t: Tables, s: Settings)
    ensures Excess(t, s) <= Expendables(t)
  {
  }

  /** Every expendable clip that is kept is newer than every one the count step removed. */
  lemma KeptAreNewer(t: Tables, now: int, s: Settings, x: nat, y: nat)
    requires x in Expendables(After(t, now, s)) && y in Excess(Aged(t, now, s), s)
    ensures Newer(t.clips, x, y)
  {
    hide Expendable, Newer, OldOnes, HeavyOnes, Aged, Room, Expendables;
    var t2 := Aged(t, now, s);
    AgedRest(t, now, s);
    ExpendablesOfRest(t2, Excess(t2, s));
    if !Newer(t2.clips, x, y) {
      AheadTransitive(t2, x, y);
      Order.Fits(Ahead(t2, y), Ahead(t2, x));
    }
    NewerSame(t.clips, t2.clips, x, y);
  }

  lemma AheadTransitive(t: Tables, x: nat, y: nat)
    requires x in t.clips && y in t.clips && !Newer(t.clips, x, y)
    ensures Ahead(t, y) <= Ahead(t, x)
  {
    hide Expendable;
  }

  lemma NewerSame(clips: map<nat, Clip>, some: map<nat, Clip>, x: nat, y: nat)
    requires forall id :: id in some ==> id in clips && some[id] == clips[id]
    ensures Newer(some, x, y) ==> Newer(clips, x, y)
  {
  }

  /** A second pass at the same time finds nothing to remove. */
  lemma SecondPass(t: Tables, now: int, s: Settings)
    ensures After(After(t, now, s), now, s) == After(t, now, s)
  {
    hide Expendable, Ahead, OldOnes, HeavyOnes, Aged, Expendables, Excess, Room, TooOld, TooHeavy, WithoutClips, Protected;
    var t2 := Aged(t, now, s);
    var t3 := After(t, now, s);
    AgedRest(t, now, s);
    ExpendablesOfRest(t2, Excess(t2, s));
    ExcessIsExpendable(t2, s);
    RestSame(t2, Excess(t2, s));
    forall id | id in Expendables(t3) ensures !TooOld(t3.clips[id], now, s) && !TooHeavy(t3.clips[id], now, s) {
    }
    AgedNothing(t3, now, s);
    NoExcess(t2, t3, s);
    WithoutNone(t3);
  }

  lemma RestSame(t: Tables, ids: set<nat>)
    ensures forall id :: id in WithoutClips(t, ids).clips ==> id in t.clips && WithoutClips(t, ids).clips[id] == t.clips[id]
  {
  }

  lemma WithoutNone(t: Tables)
    ensures WithoutClips(t, {}) == t
  {
    var t2 := WithoutClips(t, {});
    assert t2.clips == t.clips && t2.formats == t.formats && t2.buffers == t.buffers;
  }

  lemma AgedNothing(t: Tables, now: int, s: Settings)
    requires forall id :: id in Expendables(t) ==> !TooOld(t.clips[id], now, s) && !TooHeavy(t.clips[id], now, s)
    ensures Aged(t, now, s) == t
  {
    hide Expendables, TooOld, TooHeavy, WithoutClips;
    WithoutNone(t);
    assert OldOnes(t, now, s) == {} && HeavyOnes(t, now, s) == {};
  }

  lemma NoExcess(t: Tables, t2: Tables, s: Settings)
    requires Expendables(t2) == Expendables(t) - Excess(t, s) && Protected(t2) == Protected(t)
    ensures Excess(t2, s) == {}
  {
    hide Expendables, Protected;
    if s.maxClips > 0 {
      hide Ahead;
      ExcessCount(t, s);
      forall id | id in Expendables(t2) ensures |Ahead(t2, id)| < Room(t2, s) {
        AheadIsLess(t2, id);
      }
    }
  }

  lemma AheadIsLess(t: Tables, id: nat)
    requires id in Expendables(t)
    ensures |Ahead(t, id)| < |Expendables(t)|
  {
    hide Expendables;
    assert id !in Ahead(t, id);
    assert Ahead(t, id) <= Expendables(t) - {id};
    Order.Fits(Ahead(t, id), Expendables(t) - {id});
  }

  // ---- the pass ---------------------------------------------------------------------------------

  /** One DELETE; how many rows it changed. */
  method DeleteWhere(db: Db, ids: set<nat>) returns (n: nat)
    requires ids <= db.t.clips.Keys
    modifies db`t
    ensures db.t == WithoutClips(old(db.t), ids) && n == |ids|
  {
    db.t := WithoutClips(db.t, ids);
    n := |ids|;
  }

  /** Every statement the settings call for works. */
  predicate StepsWork(s: Settings, faults: set<Store.Fault>) {
    && (s.maxAge > 0 ==> Store.Statement(1) !in faults)
    && (s.largeAge > 0 ==> Store.Statement(2) !in faults)
    && (s.maxClips > 0 ==> Store.Statement(3) !in faults)
  }

  method RetentionTx(db: Db, now: int, s: Settings, faults: set<Store.Fault>) returns (removed: int)
    modifies db`t
    ensures removed >= 0 ==> db.t == After(old(db.t), now, s) && removed == |old(db.t).clips.Keys| - |db.t.clips.Keys|
    ensures removed >= 0 <==> StepsWork(s, faults)
    ensures removed >= 0 ==> Spared(old(db.t), db.t)
  {
    hide *;
    InvestedAreSpared(db.t, now, s);
    ghost var t0 := db.t;
    ListedAreThere(db.t, now, s);
    StepsAre(s, faults);
    AgedIs(t0, now, s);
    removed := 0;
    WithoutNone(db.t);
    if s.maxAge > 0 {
      if Store.Statement(1) in faults { return -1; }
      CountGone(db.t, OldOnes(db.t, now, s));
      var n := DeleteWhere(db, OldOnes(db.t, now, s));
      removed := removed + n;
    }
    ghost var t1 := db.t;
    ListedAreThere(db.t, now, s);
    WithoutNone(db.t);
    if s.largeAge > 0 {
      if Store.Statement(2) in faults { return -1; }
      CountGone(db.t, HeavyOnes(db.t, now, s));
      var n := DeleteWhere(db, HeavyOnes(db.t, now, s));
      removed := removed + n;
    }
    ghost var t2 := db.t;
    ListedAreThere(db.t, now, s);
    WithoutNone(db.t);
    if s.maxClips > 0 {
      if Store.Statement(3) in faults { return -1; }
      var clips := db.t.clips;
      NewerIsStrict(db.t);
      var order := Order.Sort(Expendables(db.t), ByAge(clips));
      OffsetIsExcess(db.t, order, s);
      var room := Room(db.t, s);
      var gone := Order.Members(order[if room < |order| then room else |order|..]);
      CountGone(db.t, gone);
      var n := DeleteWhere(db, gone);
      removed := removed + n;
    }
  }

  lemma StepsAre(s: Settings, faults: set<Store.Fault>)
    ensures StepsWork(s, faults) <==>
              && (s.maxAge > 0 ==> Store.Statement(1) !in faults)
              && (s.largeAge > 0 ==> Store.Statement(2) !in faults)
              && (s.maxClips > 0 ==> Store.Statement(3) !in faults)
  {
  }

  lemma AgedIs(t: Tables, now: int, s: Settings)
    ensures s.maxAge <= 0 ==> OldOnes(t, now, s) == {}
    ensures s.largeAge <= 0 ==> forall t1: Tables :: HeavyOnes(t1, now, s) == {}
    ensures s.maxClips <= 0 ==> forall t2: Tables :: Excess(t2, s) == {}
    ensures var t1 := WithoutClips(t, OldOnes(t, now, s));
            var t2 := WithoutClips(t1, HeavyOnes(t1, now, s));
            After(t, now, s) == WithoutClips(t2, Excess(t2, s))
  {
    hide WithoutClips, Expendables, Ahead, Room;
  }

  lemma CountGone(t: Tables, ids: set<nat>)
    requires ids <= t.clips.Keys
    ensures |WithoutClips(t, ids).clips.Keys| == |t.clips.Keys| - |ids|
  {
    assert WithoutClips(t, ids).clips.Keys == t.clips.Keys - ids;
  }

  lemma ListedAreThere(t: Tables, now: int, s: Settings)
    ensures OldOnes(t, now, s) <= t.clips.Keys && HeavyOnes(t, now, s) <= t.clips.Keys && Excess(t, s) <= t.clips.Keys
  {
    hide Ahead, Room, TooOld, TooHeavy, Expendable;
  }

  /** Retention only deletes, so what it leaves is sound and unchanged. */
  lemma AfterKeeps(t: Tables, files: map<bytes, bytes>, now: int, s: Settings, u: iset<bytes>)
    requires Store.PayloadsOk(t, files, u) && KeysOk(t.clips) && RefsOk(t)
    ensures var t2 := After(t, now, s);
            && Store.PayloadsOk(t2, files, u) && KeysOk(t2.clips) && RefsOk(t2)
            && forall id :: id in Store.Contents(t2, files) ==>
                 id in Store.Contents(t, files) && Store.Contents(t2, files)[id] == Store.Contents(t, files)[id]
  {
    hide *;
    AgedIs(t, now, s);
    var t1 := WithoutClips(t, OldOnes(t, now, s));
    var t2 := WithoutClips(t1, HeavyOnes(t1, now, s));
    Store.DeleteIs(t, files, OldOnes(t, now, s), u);
    Store.DeleteIs(t1, files, HeavyOnes(t1, now, s), u);
    Store.DeleteIs(t2, files, Excess(t2, s), u);
  }

  predicate RetainWorks(s: Settings, faults: set<Store.Fault>) {
    Store.Begin !in faults && StepsWork(s, faults) && Store.Commit !in faults
  }

  /** Whether the collection after this pass would take a file that is still used. */
  predicate RetainHarms(t: Tables, files: map<bytes, bytes>, now: int, s: Settings, faults: set<Store.Fault>) {
    && RetainWorks(s, faults) && |After(t, now, s).clips.Keys| < |t.clips.Keys|
    && Disk.CollectHarms(After(t, now, s), files, faults)
  }

  lemma RetainIs(t: Tables, files: map<bytes, bytes>, now: int, s: Settings, faults: set<Store.Fault>)
    ensures RetainWorks(s, faults) <==> Store.Begin !in faults && StepsWork(s, faults) && Store.Commit !in faults
    ensures RetainHarms(t, files, now, s, faults) <==>
              && RetainWorks(s, faults) && |After(t, now, s).clips.Keys| < |t.clips.Keys|
              && Disk.CollectHarms(After(t, now, s), files, faults)
    ensures Store.NoFault(faults) ==> RetainWorks(s, faults)
  {
    hide After, Disk.CollectHarms;
    Store.FaultsNone(faults);
  }

  /** Applies the settings; the files of what went go too, and with them what lies beside the blob directory. */
  method Retain(db: Db, now: int, s: Settings, faults: set<Store.Fault>, ghost u: iset<bytes>) returns (removed: int)
    requires Store.Valid(db, u)
    modifies db
    ensures Store.Valid(db, u) <==> !RetainHarms(old(db.t), old(db.files), now, s, faults)
    ensures Store.Valid(db, u) <==> Store.AllThere(db.t, db.files)
    ensures removed >= 0 <==> RetainWorks(s, faults)
    ensures removed < 0 ==> db.t == old(db.t)
    ensures removed >= 0 ==> db.t == After(old(db.t), now, s) && removed == |old(db.t).clips.Keys| - |db.t.clips.Keys|
    ensures removed <= 0 ==> db.files == old(db.files)
    ensures db.beside == if removed > 0 then old(db.beside) - Disk.Swept(old(db.beside), faults) else old(db.beside)
    ensures DB_FILE in db.beside <==> DB_FILE in old(db.beside) && !(removed > 0 && Disk.SweepsDatabase(faults))
    ensures Store.Valid(db, u) ==>
              forall id :: id in Store.Contents(db.t, db.files) ==>
                && id in old(Store.Contents(db.t, db.files))
                && Store.Contents(db.t, db.files)[id] == old(Store.Contents(db.t, db.files))[id]
    ensures removed > 0 && faults == {} ==> forall n :: n in db.files <==> Store.Referenced(db.t, n)
    ensures Store.NoFault(faults) ==> removed >= 0
    ensures Spared(old(db.t), db.t)
  {
    hide *;
    InvestedAreSpared(db.t, now, s);
    Store.ValidParts(db, u);
    RetainIs(db.t, db.files, now, s, faults);
    Store.SoundIsThere(db.t, db.files, u);
    if Store.Begin in faults {
      return -1;
    }
    var saved := db.t;
    AfterKeeps(db.t, db.files, now, s, u);
    removed := RetentionTx(db, now, s, faults);
    if removed < 0 || Store.Commit in faults {
      db.t := saved;
      Store.PartsValid(db, u);
      return -1;
    }
    Store.PartsValid(db, u);
    Store.SoundIsThere(db.t, db.files, u);
    if removed > 0 {
      Disk.Collect(db, faults, u);
    }
  }
}
