/**
 * The group tree (daemon/src/db_edit.c): a forest whose siblings have different
 * names, kept so by the unique index and by refusing moves below oneself.
 */
module Groups {
  import opened Bytes
  import opened Schema
  import Disk
  import Store
  import Order
  import Utf8

  type GroupMap = map<nat, Group>

  const NAME_MAX_CHARS: nat := 200

  // ---- the tree -----------------------------------------------------------------

  /** g is found within n steps up from x. */
  predicate Climb(groups: GroupMap, x: nat, g: nat, n: nat)
    decreases n
  {
    x == g || (n > 0 && x in groups && groups[x].parent.Some? && Climb(groups, groups[x].parent.value, g, n - 1))
  }

  /** x is g or lies somewhere below it. */
  ghost predicate Below(groups: GroupMap, x: nat, g: nat) { exists n: nat :: Climb(groups, x, g, n) }

  ghost predicate Closed(groups: GroupMap) {
    0 !in groups && forall x :: x in groups && groups[x].parent.Some? ==> groups[x].parent.value in groups
  }

  /** No group lies below itself. */
  ghost predicate Acyclic(groups: GroupMap) {
    forall x :: x in groups && groups[x].parent.Some? ==> !Below(groups, groups[x].parent.value, x)
  }

  predicate At(groups: GroupMap, parent: Option<nat>, name: bytes, x: nat) {
    x in groups && groups[x].parent == parent && groups[x].name == name
  }

  /** The unique index on (ifnull(parent_id, 0), name). */
  ghost predicate SiblingsDiffer(groups: GroupMap) {
    forall x, y :: x in groups && y in groups && x != y ==> groups[x].parent != groups[y].parent || groups[x].name != groups[y].name
  }

  ghost predicate NameOk(name: bytes) { name != [] && Utf8.IsUtf8(name) && Utf8.Characters(name) <= NAME_MAX_CHARS }

  ghost predicate NamesOk(groups: GroupMap) { forall x :: x in groups ==> NameOk(groups[x].name) }

  ghost predicate GroupsOk(groups: GroupMap) {
    Closed(groups) && Acyclic(groups) && SiblingsDiffer(groups) && NamesOk(groups)
  }

  lemma BelowItself(groups: GroupMap, x: nat)
    ensures Below(groups, x, x)
  {
    assert Climb(groups, x, x, 0);
  }

  lemma BelowStep(groups: GroupMap, x: nat, g: nat)
    ensures x in groups && groups[x].parent.Some? && Below(groups, groups[x].parent.value, g) ==> Below(groups, x, g)
    ensures Below(groups, x, g) && x != g ==> x in groups && groups[x].parent.Some? && Below(groups, groups[x].parent.value, g)
  {
    if x in groups && groups[x].parent.Some? && Below(groups, groups[x].parent.value, g) {
      var n: nat :| Climb(groups, groups[x].parent.value, g, n);
      assert Climb(groups, x, g, n + 1);
    }
    if Below(groups, x, g) && x != g {
      var n: nat :| Climb(groups, x, g, n);
      assert Climb(groups, groups[x].parent.value, g, n - 1);
    }
  }

  // ---- a forest is a tree with ranks -----------------------------------------------------

  /** Every group stands above the rank of its parent. */
  ghost predicate Ranked(groups: GroupMap, rank: nat -> nat) {
    forall x :: x in groups && groups[x].parent.Some? ==> rank(groups[x].parent.value) < rank(x)
  }

  ghost function Ancestors(groups: GroupMap, x: nat): set<nat> { set y | y in groups && Below(groups, x, y) }

  lemma AcyclicIsRanked(groups: GroupMap) returns (rank: nat -> nat)
    requires Closed(groups) && Acyclic(groups)
    ensures Ranked(groups, rank)
  {
    rank := (x: nat) => |Ancestors(groups, x)|;
    forall x | x in groups && groups[x].parent.Some? ensures rank(groups[x].parent.value) < rank(x) {
      hide Below;
      var p := groups[x].parent.value;
      forall y | y in Ancestors(groups, p) ensures y in Ancestors(groups, x) - {x} {
        BelowStep(groups, x, y);
      }
      BelowItself(groups, x);
      assert Ancestors(groups, p) <= Ancestors(groups, x) - {x};
      Order.Fits(Ancestors(groups, p), Ancestors(groups, x) - {x});
    }
  }

  lemma {:induction false} ClimbLowers(groups: GroupMap, rank: nat -> nat, x: nat, g: nat, n: nat)
    requires Ranked(groups, rank) && Climb(groups, x, g, n)
    ensures rank(g) <= rank(x)
    decreases n
  {
    if x != g {
      ClimbLowers(groups, rank, groups[x].parent.value, g, n - 1);
    }
  }

  lemma RankedIsAcyclic(groups: GroupMap, rank: nat -> nat)
    requires Ranked(groups, rank)
    ensures Acyclic(groups)
  {
    forall x | x in groups && groups[x].parent.Some? ensures !Below(groups, groups[x].parent.value, x) {
      if Below(groups, groups[x].parent.value, x) {
        var n: nat :| Climb(groups, groups[x].parent.value, x, n);
        ClimbLowers(groups, rank, groups[x].parent.value, x, n);
      }
    }
  }

  // ---- moving -------------------------------------------------------------------------------

  function Moved(groups: GroupMap, id: nat, parent: Option<nat>): GroupMap
    requires id in groups
  {
    groups[id := groups[id].(parent := parent)]
  }

  lemma {:induction false} ClimbIsKept(groups: GroupMap, id: nat, parent: Option<nat>, x: nat, n: nat)
    requires id in groups
    ensures Climb(groups, x, id, n) <==> Climb(Moved(groups, id, parent), x, id, n)
    decreases n
  {
    if x != id && n > 0 && x in groups && groups[x].parent.Some? {
      ClimbIsKept(groups, id, parent, groups[x].parent.value, n - 1);
    }
  }

  /** Exactly the moves below oneself close a cycle. */
  lemma CycleIff(groups: GroupMap, id: nat, parent: Option<nat>)
    requires Closed(groups) && Acyclic(groups) && id in groups
    ensures Acyclic(Moved(groups, id, parent)) <==> !(parent.Some? && Below(groups, parent.value, id))
  {
    var moved := Moved(groups, id, parent);
    if parent.Some? && Below(groups, parent.value, id) {
      var n: nat :| Climb(groups, parent.value, id, n);
      ClimbIsKept(groups, id, parent, parent.value, n);
      assert Below(moved, moved[id].parent.value, id);
    } else {
      var rank := AcyclicIsRanked(groups);
      var lift: nat := if parent.Some? then rank(parent.value) + 1 else 0;
      var up := (x: nat) => if Below(groups, x, id) then rank(x) + lift else rank(x);
      forall x | x in moved && moved[x].parent.Some? ensures up(moved[x].parent.value) < up(x) {
        BelowItself(groups, id);
        BelowStep(groups, x, id);
        hide Below;
      }
      RankedIsAcyclic(moved, up);
    }
  }

  // ---- subtrees --------------------------------------------------------------------------------

  ghost function Subtree(groups: GroupMap, g: nat): set<nat> { set x | x in groups && Below(groups, x, g) }

  predicate ChildOf(groups: GroupMap, x: nat, some: set<nat>) {
    x in groups && groups[x].parent.Some? && groups[x].parent.value in some
  }

  /** What a set that holds g and takes in every child must hold. */
  lemma {:induction false} ClosedDownwards(groups: GroupMap, g: nat, some: set<nat>, x: nat, n: nat)
    requires g in some && forall y :: ChildOf(groups, y, some) ==> y in some
    requires Climb(groups, x, g, n)
    ensures x in some
    decreases n
  {
    if x != g {
      ClosedDownwards(groups, g, some, groups[x].parent.value, n - 1);
      assert ChildOf(groups, x, some);
    }
  }

  lemma GrowsWithin(groups: GroupMap, g: nat, some: set<nat>, x: nat)
    requires some <= Subtree(groups, g) && ChildOf(groups, x, some)
    ensures x in Subtree(groups, g)
  {
    hide Below;
    BelowStep(groups, x, g);
  }

  lemma IsSubtree(groups: GroupMap, g: nat, some: set<nat>)
    requires some <= Subtree(groups, g) && g in some && forall y :: ChildOf(groups, y, some) ==> y in some
    ensures some == Subtree(groups, g)
  {
    forall x | x in Subtree(groups, g) ensures x in some {
      var n: nat :| Climb(groups, x, g, n);
      ClosedDownwards(groups, g, some, x, n);
    }
  }

  /** WITH RECURSIVE: rows are taken from a queue and their children join it. */
  method Sub(groups: GroupMap, g: nat) returns (found: set<nat>)
    requires g in groups
    ensures found == Subtree(groups, g)
  {
    hide Below, ChildOf;
    BelowItself(groups, g);
    found := {g};
    var queue := {g};
    ChildOfNone(groups);
    assert found - queue == {};
    while queue != {}
      invariant queue <= found && g in found && found <= Subtree(groups, g)
      invariant forall x :: ChildOf(groups, x, found - queue) ==> x in found
      decreases groups.Keys - found, queue
    {
      var x :| x in queue;
      var children := set y | y in groups && ChildOf(groups, y, {x}) && y !in found;
      forall y | y in children ensures y in Subtree(groups, g) {
        OneChild(groups, y, x, found);
        GrowsWithin(groups, g, found, y);
      }
      ChildrenSplit(groups, found - queue, x);
      assert found + children - (queue - {x} + children) <= found - queue + {x};
      forall y | ChildOf(groups, y, found + children - (queue - {x} + children)) ensures y in found + children {
        ChildMono(groups, y, found + children - (queue - {x} + children), found - queue + {x});
      }
      queue := queue - {x} + children;
      found := found + children;
    }
    assert found - queue == found;
    IsSubtree(groups, g, found);
  }

  lemma ChildOfNone(groups: GroupMap)
    ensures forall x :: !ChildOf(groups, x, {})
  {
  }

  lemma OneChild(groups: GroupMap, y: nat, x: nat, some: set<nat>)
    requires ChildOf(groups, y, {x}) && x in some
    ensures ChildOf(groups, y, some)
  {
  }

  lemma ChildMono(groups: GroupMap, y: nat, some: set<nat>, more: set<nat>)
    requires ChildOf(groups, y, some) && some <= more
    ensures ChildOf(groups, y, more)
  {
  }

  lemma ChildrenSplit(groups: GroupMap, some: set<nat>, x: nat)
    ensures forall y :: ChildOf(groups, y, some + {x}) ==> ChildOf(groups, y, some) || ChildOf(groups, y, {x})
    ensures forall y, z: set<nat> :: ChildOf(groups, y, z) ==> y in groups
  {
  }

  /**
   * What goes wrong with a statement on the tree: the look-up of the group or of
   * the parent fails, the subtree query is not prepared or not answered, a path
   * part is not found though it is there, or the change itself fails.
   */
  datatype TreeFault = NoGroup | NoParent | Unprepared | Unanswered | Missed | Unwritten

  /**
   * within: is maybeDescendant the group itself or somewhere below it? When the
   * query cannot be prepared the answer is yes, when it fails on the way it is no.
   */
  method Within(db: Db, group: nat, maybeDescendant: nat, faults: set<TreeFault>) returns (r: bool)
    requires group in db.t.groups && maybeDescendant in db.t.groups
    ensures r <==> Unprepared in faults || (Unanswered !in faults && Below(db.t.groups, maybeDescendant, group))
  {
    if Unprepared in faults {
      return true;
    }
    if Unanswered in faults {
      return false;
    }
    var sub := Sub(db.t.groups, group);
    r := maybeDescendant in sub;
  }

  datatype GroupResult = Done | NoSuchGroup | NoSuchParent | NeedsName | NotUtf8 | InsideItself | NameTaken | DatabaseError

  predicate Taken(groups: GroupMap, parent: Option<nat>, name: bytes, id: nat) {
    exists x :: x in groups && x != id && At(groups, parent, name, x)
  }

  /** A group's own name is not taken by itself; a new group's is by any sibling of that name. */
  lemma OwnNameIsFree(groups: GroupMap, id: nat)
    requires id in groups && SiblingsDiffer(groups)
    ensures !Taken(groups, groups[id].parent, groups[id].name, id)
    ensures id != 0 ==> Taken(groups, groups[id].parent, groups[id].name, 0)
  {
    if id != 0 { assert At(groups, groups[id].parent, groups[id].name, id); }
  }

  function ParentOf(parentId: nat): Option<nat> { if parentId == 0 then None else Some(parentId) }

  predicate Movable(groups: GroupMap, id: nat, parentId: nat, faults: set<TreeFault>) {
    id in groups && NoGroup !in faults && (parentId == 0 || (parentId in groups && NoParent !in faults))
  }

  /**
   * Whether this move closes a cycle: the new parent lies in the subtree, the
   * subtree query fails and the update works.
   */
  ghost predicate MoveHarms(groups: GroupMap, id: nat, parentId: nat, faults: set<TreeFault>) {
    && Movable(groups, id, parentId, faults) && parentId != 0 && Below(groups, parentId, id)
    && Unprepared !in faults && Unanswered in faults && Unwritten !in faults
    && !Taken(groups, ParentOf(parentId), groups[id].name, id)
  }

  /**
   * A move is refused for cyclicity exactly when it would create a cycle and the
   * subtree query answers, or when that query cannot be prepared; and for its
   * name exactly when that is taken there.
   */
  method Move(db: Db, id: nat, parentId: nat, faults: set<TreeFault>) returns (r: GroupResult)
    requires GroupsOk(db.t.groups)
    modifies db`t
    ensures GroupsOk(db.t.groups) <==> !MoveHarms(old(db.t).groups, id, parentId, faults)
    ensures GroupsOk(db.t.groups) <==> Acyclic(db.t.groups)
    ensures r.Done? ==> id in old(db.t).groups && db.t == old(db.t).(groups := Moved(old(db.t).groups, id, ParentOf(parentId)))
    ensures !r.Done? ==> db.t == old(db.t)
    ensures r.NoSuchGroup? <==> id !in old(db.t).groups || NoGroup in faults
    ensures r.NoSuchParent? <==> !r.NoSuchGroup? && !Movable(old(db.t).groups, id, parentId, faults)
    ensures r.InsideItself? <==>
              && Movable(old(db.t).groups, id, parentId, faults) && parentId != 0
              && (Unprepared in faults
                  || (Unanswered !in faults && !Acyclic(Moved(old(db.t).groups, id, ParentOf(parentId)))))
    ensures Movable(old(db.t).groups, id, parentId, faults) && !r.InsideItself? && Unwritten !in faults ==>
              if Taken(old(db.t).groups, ParentOf(parentId), old(db.t).groups[id].name, id) then r.NameTaken? else r.Done?
    ensures r.DatabaseError? ==> Unwritten in faults
    ensures r.Done? ==> Unwritten !in faults
    ensures !r.NeedsName? && !r.NotUtf8?
    ensures Moves(old(db.t).groups, db.t.groups, id, parentId, faults)
  {
    hide *;
    var groups := db.t.groups;
    MovesIs(groups, id, parentId, faults);
    Parts(groups);
    MovableIs(groups, id, parentId, faults);
    if id !in groups || NoGroup in faults {
      return NoSuchGroup;
    }
    if parentId != 0 && (parentId !in groups || NoParent in faults) {
      return NoSuchParent;
    }
    ParentIs(parentId);
    CycleIff(groups, id, ParentOf(parentId));
    MoveHarmIs(groups, id, parentId, faults);
    if parentId != 0 {
      var inside := Within(db, id, parentId, faults);
      if inside {
        return InsideItself;
      }
    }
    if Unwritten in faults {
      return DatabaseError;
    }
    if Taken(groups, ParentOf(parentId), groups[id].name, id) {
      return NameTaken;
    }
    if Acyclic(Moved(groups, id, ParentOf(parentId))) {
      MoveKeeps(groups, id, ParentOf(parentId));
    } else {
      Parts(Moved(groups, id, ParentOf(parentId)));
    }
    db.t := db.t.(groups := Moved(groups, id, ParentOf(parentId)));
    return Done;
  }

  lemma MovableIs(groups: GroupMap, id: nat, parentId: nat, faults: set<TreeFault>)
    ensures Movable(groups, id, parentId, faults) <==>
              id in groups && NoGroup !in faults && (parentId == 0 || (parentId in groups && NoParent !in faults))
    ensures MoveHarms(groups, id, parentId, faults) ==> Movable(groups, id, parentId, faults)
  {
  }

  lemma MoveHarmIs(groups: GroupMap, id: nat, parentId: nat, faults: set<TreeFault>)
    requires id in groups
    requires GroupsOk(groups)
    ensures MoveHarms(groups, id, parentId, faults) <==>
              && Movable(groups, id, parentId, faults) && !Acyclic(Moved(groups, id, ParentOf(parentId)))
              && Unprepared !in faults && Unanswered in faults && Unwritten !in faults
              && !Taken(groups, ParentOf(parentId), groups[id].name, id)
  {
    hide Acyclic, Moved, Taken, GroupsOk, Below;
    Parts(groups);
    if Movable(groups, id, parentId, faults) {
      CycleIff(groups, id, ParentOf(parentId));
    }
  }

  /** An integrity check of the tree: is any group below itself? */
  method Check(groups: GroupMap) returns (ok: bool)
    ensures ok <==> Acyclic(groups)
  {
    hide *;
    var left := groups.Keys;
    while left != {}
      invariant left <= groups.Keys && forall x :: x in groups && x !in left ==> !BelowSelf(groups, x)
    {
      var x :| x in left;
      var sub := Sub(groups, x);
      SelfIsInSub(groups, x);
      if groups[x].parent.Some? && groups[x].parent.value in sub {
        AcyclicIs(groups);
        return false;
      }
      left := left - {x};
    }
    AcyclicIs(groups);
    return true;
  }

  ghost predicate BelowSelf(groups: GroupMap, x: nat)
    requires x in groups
  {
    groups[x].parent.Some? && Below(groups, groups[x].parent.value, x)
  }

  lemma AcyclicIs(groups: GroupMap)
    ensures Acyclic(groups) <==> forall x :: x in groups ==> !BelowSelf(groups, x)
  {
    hide Below;
  }

  lemma SelfIsInSub(groups: GroupMap, x: nat)
    requires x in groups
    ensures BelowSelf(groups, x) <==> groups[x].parent.Some? && groups[x].parent.value in Subtree(groups, x)
  {
    hide Below;
    if BelowSelf(groups, x) {
      BelowStep(groups, groups[x].parent.value, x);
    }
  }

  /** A group and its only child. */
  function ParentAndChild(): GroupMap { map[1 := Group(None, [97]), 2 := Group(Some(1), [98])] }

  /** Moving the parent below its child while the subtree query fails closes a cycle. */
  lemma CycleHappens()
    ensures GroupsOk(ParentAndChild()) && MoveHarms(ParentAndChild(), 1, 2, {Unanswered})
    ensures !GroupsOk(Moved(ParentAndChild(), 1, Some(2)))
  {
    hide *;
    var groups := ParentAndChild();
    ChildIsOk();
    Parts(groups);
    CycleIff(groups, 1, Some(2));
    Parts(Moved(groups, 1, Some(2)));
    ParentIs(2);
    MoveHarmIs(groups, 1, 2, {Unanswered});
    MovableIs(groups, 1, 2, {Unanswered});
  }

  lemma ChildIsOk()
    ensures 1 in ParentAndChild() && 2 in ParentAndChild()
    ensures GroupsOk(ParentAndChild()) && Below(ParentAndChild(), 2, 1)
    ensures !Taken(ParentAndChild(), Some(2), ParentAndChild()[1].name, 1)
  {
    hide Below, NameOk, Acyclic, SiblingsDiffer, NamesOk, Taken;
    var groups := ParentAndChild();
    ChildNames();
    RankedIsAcyclic(groups, (x: nat) => x);
    BelowItself(groups, 1);
    BelowStep(groups, 2, 1);
  }

  lemma ChildNames()
    ensures SiblingsDiffer(ParentAndChild()) && NamesOk(ParentAndChild())
    ensures !Taken(ParentAndChild(), Some(2), ParentAndChild()[1].name, 1)
  {
    hide NameOk;
    LetterIsName(97);
    LetterIsName(98);
  }

  lemma LetterIsName(c: byte)
    requires 97 <= c <= 98
    ensures NameOk([c])
  {
    hide Utf8.Well, Utf8.IsUtf8;
    Utf8.AsciiIsWell(c);
    Utf8.WellIsUtf8([c]);
    OneCharacter(c);
  }

  lemma OneCharacter(c: byte)
    requires c < 128
    ensures Utf8.Characters([c]) == 1
  {
    assert Utf8.Claimed(c) == 1;
    assert [c][1..] == [];
    assert Utf8.Characters([]) == 0;
  }

  lemma Parts(groups: GroupMap)
    ensures GroupsOk(groups) <==> Closed(groups) && Acyclic(groups) && SiblingsDiffer(groups) && NamesOk(groups)
  {
  }

  lemma ParentIs(parentId: nat)
    ensures parentId == 0 ==> ParentOf(parentId) == None
    ensures parentId != 0 ==> ParentOf(parentId) == Some(parentId)
  {
  }

  lemma MoveKeeps(groups: GroupMap, id: nat, parent: Option<nat>)
    requires GroupsOk(groups) && id in groups && (parent.Some? ==> parent.value in groups)
    requires Acyclic(Moved(groups, id, parent)) && !Taken(groups, parent, groups[id].name, id)
    ensures GroupsOk(Moved(groups, id, parent))
  {
    hide Acyclic, NameOk;
    var moved := Moved(groups, id, parent);
    forall y | y in groups && y != id ensures groups[y].parent != parent || groups[y].name != groups[id].name {
      assert !At(groups, parent, groups[id].name, y);
    }
  }

  // ---- names ---------------------------------------------------------------------------------

  predicate Blank(c: byte) { c == 32 || c == 9 || c == 10 || c == 13 }

  function TrimLeft(s: bytes): bytes { if s != [] && Blank(s[0]) then TrimLeft(s[1..]) else s }

  function TrimRight(s: bytes): bytes { if s != [] && Blank(s[|s| - 1]) then TrimRight(s[..|s| - 1]) else s }

  function Trim(s: bytes): bytes { TrimRight(TrimLeft(s)) }

  predicate AllBlank(s: bytes) {
    forall c :: c in s ==> c == ' ' as int || c == '\t' as int || c == '\n' as int || c == '\r' as int
  }

  /** Text that begins and ends with something to see. */
  predicate Bare(s: bytes) { s == [] || (!AllBlank(s[..1]) && !AllBlank(s[|s| - 1..])) }

  /** Blanks on either side of a bare text are trimmed away, and nothing else. */
  lemma TrimIs(a: bytes, s: bytes, b: bytes)
    requires AllBlank(a) && Bare(s) && AllBlank(b)
    ensures Trim(a + s + b) == s
  {
    hide TrimLeft, TrimRight, AllBlank;
    assert a + s + b == a + (s + b);
    if s == [] {
      assert a + s + b == a + b && s + b == b;
      BlankIsTrimmed(a + b);
      AllBlankBoth(a, b);
    } else {
      assert (s + b)[..1] == s[..1];
      LeftIsTrimmed(a, s + b);
      assert (s)[|s| - 1..] == [s[|s| - 1]];
      RightIsTrimmed(s, b);
    }
  }

  lemma AllBlankBoth(a: bytes, b: bytes)
    requires AllBlank(a) && AllBlank(b)
    ensures AllBlank(a + b)
  {
  }

  lemma {:induction false} BlankIsTrimmed(s: bytes)
    ensures AllBlank(s) ==> TrimLeft(s) == [] && TrimRight([]) == []
  {
    if s != [] && AllBlank(s) {
      assert s[0] in s && forall c :: c in s[1..] ==> c in s;
      BlankIsTrimmed(s[1..]);
    }
  }

  lemma {:induction false} LeftIsTrimmed(a: bytes, s: bytes)
    requires AllBlank(a) && s != [] && !AllBlank(s[..1])
    ensures TrimLeft(a + s) == s
  {
    if a == [] {
      assert a + s == s && s[..1] == [s[0]];
    } else {
      assert a[0] in a && (forall c :: c in a[1..] ==> c in a) && (a + s)[1..] == a[1..] + s;
      LeftIsTrimmed(a[1..], s);
    }
  }

  lemma {:induction false} RightIsTrimmed(s: bytes, b: bytes)
    requires AllBlank(b) && s != [] && !AllBlank(s[|s| - 1..])
    ensures TrimRight(s + b) == s
  {
    if b == [] {
      assert s + b == s && s[|s| - 1..] == [s[|s| - 1]];
    } else {
      var n := |b| - 1;
      assert b[n] in b && (forall c :: c in b[..n] ==> c in b) && (s + b)[..|s| + n] == s + b[..n];
      RightIsTrimmed(s, b[..n]);
    }
  }

  method Trimmed(s: bytes) returns (t: bytes)
    ensures t == Trim(s)
  {
    hide Blank;
    var a := 0;
    assert s[0..] == s;
    while a < |s| && Blank(s[a])
      invariant a <= |s| && TrimLeft(s) == TrimLeft(s[a..])
    {
      assert s[a..][1..] == s[a + 1..];
      a := a + 1;
    }
    t := s[a..];
    var n := |t|;
    assert t[..n] == t;
    while n > 0 && Blank(t[n - 1])
      invariant n <= |t| && TrimRight(t) == TrimRight(t[..n])
    {
      assert t[..n][..n - 1] == t[..n - 1];
      n := n - 1;
    }
    t := t[..n];
  }

  /** The name as it is stored: at most two hundred characters of it. */
  function Cut(name: bytes): bytes { name[..Utf8.PrefixLength(name, NAME_MAX_CHARS)] }

  lemma CutIs(name: bytes)
    requires name != [] && Utf8.IsUtf8(name)
    ensures NameOk(Cut(name))
    ensures Cut(name) == name <==> Utf8.Characters(name) <= 200
    ensures Cut(name) <= name && Utf8.Characters(Cut(name)) == Min(Utf8.Characters(name), 200)
  {
    Utf8.WellIsUtf8(name);
    Utf8.PrefixIsWell(name, NAME_MAX_CHARS);
    Utf8.WellIsUtf8(Cut(name));
    assert Utf8.Characters(name) > 0;
    assert |Cut(name)| == Utf8.PrefixLength(name, NAME_MAX_CHARS);
    hide Utf8.Well;
  }

  /** A usable name, or what is wrong with it. */
  method ValidName(name: bytes) returns (n: bytes, r: GroupResult)
    ensures r.NeedsName? <==> Trim(name) == []
    ensures r.NotUtf8? <==> Trim(name) != [] && !Utf8.IsUtf8(Trim(name))
    ensures r.Done? <==> Trim(name) != [] && Utf8.IsUtf8(Trim(name))
    ensures r.Done? ==> n == Cut(Trim(name)) && NameOk(n)
    ensures r.Done? || r.NeedsName? || r.NotUtf8?
  {
    hide *;
    n := Trimmed(name);
    if n == [] {
      return n, NeedsName;
    }
    var ok := Utf8.Valid(n);
    if !ok {
      return n, NotUtf8;
    }
    CutIs(n);
    CutPlain(n);
    var cut := Utf8.Prefix(n, NAME_MAX_CHARS);
    return n[..cut], Done;
  }

  lemma CutPlain(n: bytes)
    ensures Cut(n) == n[..Utf8.PrefixLength(n, NAME_MAX_CHARS)]
  {
  }

  /** A new group goes under its parent, under its trimmed and cut name, unless something is in the way. */
  ghost predicate Creates(groups: GroupMap, next: GroupMap, name: bytes, parentId: nat, faults: set<TreeFault>) {
    if && (parentId == 0 || (parentId in groups && NoParent !in faults))
       && Trim(name) != [] && Utf8.IsUtf8(Trim(name)) && Unwritten !in faults
       && !Taken(groups, ParentOf(parentId), Cut(Trim(name)), 0)
    then exists id :: IsNext(groups.Keys, id) && next == groups[id := Group(ParentOf(parentId), Cut(Trim(name)))]
    else next == groups
  }

  ghost predicate Renames(groups: GroupMap, next: GroupMap, id: nat, name: bytes, faults: set<TreeFault>) {
    next ==
    if && id in groups && NoGroup !in faults
       && Trim(name) != [] && Utf8.IsUtf8(Trim(name)) && Unwritten !in faults
       && !Taken(groups, groups[id].parent, Cut(Trim(name)), id)
    then groups[id := groups[id].(name := Cut(Trim(name)))] else groups
  }

  /** A move happens unless something is in the way, a cycle above all; but a query that fails sees none. */
  ghost predicate Moves(groups: GroupMap, next: GroupMap, id: nat, parentId: nat, faults: set<TreeFault>) {
    next ==
    if && id in groups && NoGroup !in faults && (parentId == 0 || (parentId in groups && NoParent !in faults))
       && (parentId == 0 || (Unprepared !in faults && (Unanswered in faults || Acyclic(Moved(groups, id, ParentOf(parentId))))))
       && Unwritten !in faults && !Taken(groups, ParentOf(parentId), groups[id].name, id)
    then Moved(groups, id, ParentOf(parentId)) else groups
  }

  method Create(db: Db, name: bytes, parentId: nat, faults: set<TreeFault>) returns (r: GroupResult, id: nat)
    requires GroupsOk(db.t.groups)
    modifies db`t
    ensures GroupsOk(db.t.groups)
    ensures r.Done? ==>
              && IsNext(old(db.t).groups.Keys, id) && id !in old(db.t).groups && id != 0 && (parentId == 0 || parentId in old(db.t).groups)
              && db.t == old(db.t).(groups := old(db.t).groups[id := Group(ParentOf(parentId), Cut(Trim(name)))])
    ensures !r.Done? ==> db.t == old(db.t)
    ensures r.NoSuchParent? <==> parentId != 0 && (parentId !in old(db.t).groups || NoParent in faults)
    ensures r.NeedsName? <==> !r.NoSuchParent? && Trim(name) == []
    ensures r.NotUtf8? <==> !r.NoSuchParent? && Trim(name) != [] && !Utf8.IsUtf8(Trim(name))
    ensures Unwritten !in faults && !r.NoSuchParent? && !r.NeedsName? && !r.NotUtf8? ==>
              (if Taken(old(db.t).groups, ParentOf(parentId), Cut(Trim(name)), 0) then r.NameTaken? else r.Done?)
    ensures r.DatabaseError? ==> Unwritten in faults
    ensures r.Done? ==> Unwritten !in faults
    ensures !r.NoSuchGroup? && !r.InsideItself?
    ensures Creates(old(db.t).groups, db.t.groups, name, parentId, faults)
  {
    hide *;
    id := 0;
    var groups := db.t.groups;
    CreatesIs(groups, name, parentId, faults);
    if parentId != 0 && (parentId !in groups || NoParent in faults) {
      return NoSuchParent, 0;
    }
    var n, v := ValidName(name);
    if !v.Done? {
      return v, 0;
    }
    if Unwritten in faults {
      return DatabaseError, 0;
    }
    if Taken(groups, ParentOf(parentId), n, 0) {
      return NameTaken, 0;
    }
    Parts(groups);
    ClosedHasNoZero(groups);
    id := NextRowid(groups.Keys);
    NextIsPositive(groups.Keys, id);
    ParentIs(parentId);
    CreateKeeps(groups, id, ParentOf(parentId), n);
    db.t := db.t.(groups := groups[id := Group(ParentOf(parentId), n)]);
    return Done, id;
  }

  lemma CreatesIs(groups: GroupMap, name: bytes, parentId: nat, faults: set<TreeFault>)
    ensures forall next :: Creates(groups, next, name, parentId, faults) <==>
              if && (parentId == 0 || (parentId in groups && NoParent !in faults))
                 && Trim(name) != [] && Utf8.IsUtf8(Trim(name)) && Unwritten !in faults
                 && !Taken(groups, ParentOf(parentId), Cut(Trim(name)), 0)
              then exists id :: IsNext(groups.Keys, id) && next == groups[id := Group(ParentOf(parentId), Cut(Trim(name)))]
              else next == groups
  {
    hide Trim, Utf8.IsUtf8, Taken, Cut, ParentOf, IsNext;
  }

  lemma RenamesIs(groups: GroupMap, id: nat, name: bytes, faults: set<TreeFault>)
    ensures forall next :: Renames(groups, next, id, name, faults) <==>
              next ==
              if && id in groups && NoGroup !in faults
                 && Trim(name) != [] && Utf8.IsUtf8(Trim(name)) && Unwritten !in faults
                 && !Taken(groups, groups[id].parent, Cut(Trim(name)), id)
              then groups[id := groups[id].(name := Cut(Trim(name)))] else groups
  {
    hide Trim, Utf8.IsUtf8, Taken, Cut;
  }

  lemma MovesIs(groups: GroupMap, id: nat, parentId: nat, faults: set<TreeFault>)
    ensures forall next :: Moves(groups, next, id, parentId, faults) <==>
              next ==
              if && id in groups && NoGroup !in faults && (parentId == 0 || (parentId in groups && NoParent !in faults))
                 && (parentId == 0 || (Unprepared !in faults && (Unanswered in faults || Acyclic(Moved(groups, id, ParentOf(parentId))))))
                 && Unwritten !in faults && !Taken(groups, ParentOf(parentId), groups[id].name, id)
              then Moved(groups, id, ParentOf(parentId)) else groups
  {
    hide Taken, ParentOf, Acyclic, Moved;
  }

  lemma NextIsPositive(used: set<nat>, id: nat)
    requires IsNext(used, id)
    ensures id != 0
  {
  }

  lemma ClosedHasNoZero(groups: GroupMap)
    requires Closed(groups)
    ensures 0 !in groups
  {
  }

  lemma CreateKeeps(groups: GroupMap, id: nat, parent: Option<nat>, name: bytes)
    requires GroupsOk(groups) && id !in groups && id != 0 && (parent.Some? ==> parent.value in groups)
    requires NameOk(name) && !Taken(groups, parent, name, 0)
    ensures GroupsOk(groups[id := Group(parent, name)])
  {
    hide Acyclic, NameOk, Below;
    var more := groups[id := Group(parent, name)];
    forall y | y in groups ensures groups[y].parent != parent || groups[y].name != name {
      assert !At(groups, parent, name, y);
    }
    LeafKeepsAcyclic(groups, id, parent, name);
  }

  lemma LeafKeepsAcyclic(groups: GroupMap, id: nat, parent: Option<nat>, name: bytes)
    requires Closed(groups) && Acyclic(groups) && id !in groups && (parent.Some? ==> parent.value in groups)
    ensures Acyclic(groups[id := Group(parent, name)])
  {
    hide Acyclic;
    var rank := AcyclicIsRanked(groups);
    var top: nat := if parent.Some? then rank(parent.value) + 1 else 0;
    RankedIsAcyclic(groups[id := Group(parent, name)], (x: nat) => if x == id then top else rank(x));
  }

  method Rename(db: Db, id: nat, name: bytes, faults: set<TreeFault>) returns (r: GroupResult)
    requires GroupsOk(db.t.groups)
    modifies db`t
    ensures GroupsOk(db.t.groups)
    ensures r.Done? ==>
              && id in old(db.t).groups
              && db.t == old(db.t).(groups := old(db.t).groups[id := old(db.t).groups[id].(name := Cut(Trim(name)))])
    ensures !r.Done? ==> db.t == old(db.t)
    ensures r.NoSuchGroup? <==> id !in old(db.t).groups || NoGroup in faults
    ensures r.NeedsName? <==> !r.NoSuchGroup? && Trim(name) == []
    ensures r.NotUtf8? <==> !r.NoSuchGroup? && Trim(name) != [] && !Utf8.IsUtf8(Trim(name))
    ensures Unwritten !in faults && !r.NoSuchGroup? && !r.NeedsName? && !r.NotUtf8? ==>
              (if Taken(old(db.t).groups, old(db.t).groups[id].parent, Cut(Trim(name)), id) then r.NameTaken? else r.Done?)
    ensures Renames(old(db.t).groups, db.t.groups, id, name, faults)
  {
    hide *;
    var groups := db.t.groups;
    RenamesIs(groups, id, name, faults);
    if id !in groups || NoGroup in faults {
      return NoSuchGroup;
    }
    var n, v := ValidName(name);
    if !v.Done? {
      return v;
    }
    if Unwritten in faults {
      return DatabaseError;
    }
    if Taken(groups, groups[id].parent, n, id) {
      return NameTaken;
    }
    RenameKeeps(groups, id, n);
    db.t := db.t.(groups := groups[id := groups[id].(name := n)]);
    return Done;
  }

  lemma RenameKeeps(groups: GroupMap, id: nat, name: bytes)
    requires GroupsOk(groups) && id in groups && NameOk(name) && !Taken(groups, groups[id].parent, name, id)
    ensures GroupsOk(groups[id := groups[id].(name := name)])
  {
    hide Acyclic, NameOk;
    var more := groups[id := groups[id].(name := name)];
    forall y | y in groups && y != id ensures groups[y].parent != groups[id].parent || groups[y].name != name {
      assert !At(groups, groups[id].parent, name, y);
    }
    SameParentsAcyclic(groups, more);
  }

  lemma SameParentsAcyclic(groups: GroupMap, more: GroupMap)
    requires Closed(groups) && Acyclic(groups) && more.Keys <= groups.Keys
    requires forall x :: x in more ==> more[x].parent == groups[x].parent
    ensures Acyclic(more)
  {
    hide Acyclic;
    var rank := AcyclicIsRanked(groups);
    RankedIsAcyclic(more, rank);
  }

  // ---- deleting ----------------------------------------------------------------------------------

  predicate InGroups(c: Clip, some: set<nat>) { c.group.Some? && c.group.value in some }

  function ClipsIn(clips: map<nat, Clip>, some: set<nat>): set<nat> { set id | id in clips && InGroups(clips[id], some) }

  function Released(clips: map<nat, Clip>, some: set<nat>): map<nat, Clip> {
    map id | id in clips :: if InGroups(clips[id], some) then clips[id].(group := None) else clips[id]
  }

  function GroupsWithout(t: Tables, some: set<nat>): Tables {
    t.(groups := t.groups - some, clips := Released(t.clips, some))
  }

  /** ON DELETE CASCADE on the parent column. */
  method Cascade(groups: GroupMap, id: nat) returns (gone: set<nat>)
    requires id in groups
    ensures gone == Subtree(groups, id)
  {
    hide Below;
    BelowItself(groups, id);
    gone := {id};
    while exists y :: y in groups && ChildOf(groups, y, gone) && y !in gone
      invariant id in gone && gone <= Subtree(groups, id)
      decreases groups.Keys - gone
    {
      var y :| y in groups && ChildOf(groups, y, gone) && y !in gone;
      GrowsWithin(groups, id, gone, y);
      gone := gone + {y};
    }
    IsSubtree(groups, id, gone);
  }

  /** What DeleteTx reports: the clips of the subtree its query gave before it failed, if it did. */
  function Reported(clips: set<nat>, faults: set<Store.Fault>): set<nat> {
    set c | c in clips && Store.Unlisted(c) !in faults
  }

  /** A clip whose row the query did not give is not reported; every other clip of the subtree is. */
  lemma AllReported(clips: set<nat>, faults: set<Store.Fault>, c: nat)
    requires c in clips
    ensures c in Reported(clips, faults) <==> Store.Unlisted(c) !in faults
    ensures Reported(clips, faults) <= clips
  {
  }

  predicate TxWorks(cascade: bool, faults: set<Store.Fault>) {
    && Store.Prepare(0) !in faults && (cascade ==> Store.Prepare(1) !in faults && Store.Statement(1) !in faults)
    && Store.Prepare(2) !in faults && Store.Statement(2) !in faults
  }

  method DeleteTx(db: Db, id: nat, cascade: bool, faults: set<Store.Fault>) returns (ok: bool, affected: set<nat>)
    requires id in db.t.groups
    modifies db`t
    ensures ok <==> TxWorks(cascade, faults)
    ensures ok ==> var sub := Subtree(old(db.t).groups, id);
              && affected == Reported(ClipsIn(old(db.t).clips, sub), faults)
              && db.t == GroupsWithout(if cascade then WithoutClips(old(db.t), ClipsIn(old(db.t).clips, sub)) else old(db.t), sub)
  {
    hide *;
    TxWorksIs(cascade, faults);
    affected := {};
    if Store.Prepare(0) in faults {
      return false, affected;
    }
    var sub := Sub(db.t.groups, id);
    var clips := ClipsIn(db.t.clips, sub);
    affected := Reported(clips, faults);
    GroupsStay(db.t, clips);
    if cascade {
      if Store.Prepare(1) in faults || Store.Statement(1) in faults {
        return false, affected;
      }
      db.t := WithoutClips(db.t, clips);
    }
    if Store.Prepare(2) in faults || Store.Statement(2) in faults {
      return false, affected;
    }
    var gone := Cascade(db.t.groups, id);
    db.t := GroupsWithout(db.t, gone);
    return true, affected;
  }

  lemma TxWorksIs(cascade: bool, faults: set<Store.Fault>)
    ensures TxWorks(cascade, faults) <==>
              && Store.Prepare(0) !in faults && (cascade ==> Store.Prepare(1) !in faults && Store.Statement(1) !in faults)
              && Store.Prepare(2) !in faults && Store.Statement(2) !in faults
  {
  }

  lemma GroupsStay(t: Tables, ids: set<nat>)
    ensures WithoutClips(t, ids).groups == t.groups
  {
  }

  predicate DeleteWorks(groups: GroupMap, id: nat, cascade: bool, faults: set<Store.Fault>) {
    && id in groups && Store.Exists !in faults && Store.Begin !in faults
    && TxWorks(cascade, faults) && Store.Commit !in faults
  }

  /** The tables after the group is gone. */
  ghost function Pruned(t: Tables, id: nat, cascade: bool): Tables {
    var sub := Subtree(t.groups, id);
    GroupsWithout(if cascade then WithoutClips(t, ClipsIn(t.clips, sub)) else t, sub)
  }

  /**
   * Of the groups exactly the subtree goes. A clip of the subtree goes with it,
   * or else is in no group any more; no other clip and no other column changes.
   */
  lemma PrunedIs(t: Tables, id: nat, cascade: bool)
    ensures var t2 := Pruned(t, id, cascade);
            && (forall x :: x in t2.groups <==> x in t.groups && !Below(t.groups, x, id))
            && (forall x :: x in t2.groups ==> t2.groups[x] == t.groups[x])
            && (forall k :: k in t2.clips <==> k in t.clips && !(cascade && InSubtree(t, k, id)))
            && (forall k :: k in t2.clips ==>
                  t2.clips[k] == if InSubtree(t, k, id) then t.clips[k].(group := None) else t.clips[k])
  {
    hide Below;
  }

  ghost predicate InSubtree(t: Tables, k: nat, id: nat)
    requires k in t.clips
  {
    var g := t.clips[k].group;
    g != None && g.value in t.groups && Below(t.groups, g.value, id)
  }

  /** Whether the collection after this deletion would take a file that is still used. */
  ghost predicate DeleteHarms(t: Tables, files: map<bytes, bytes>, id: nat, cascade: bool, faults: set<Store.Fault>) {
    cascade && DeleteWorks(t.groups, id, cascade, faults) && Disk.CollectHarms(Pruned(t, id, cascade), files, faults)
  }

  lemma DeleteWorksIs(t: Tables, files: map<bytes, bytes>, id: nat, cascade: bool, faults: set<Store.Fault>)
    ensures DeleteWorks(t.groups, id, cascade, faults) <==>
              && id in t.groups && Store.Exists !in faults && Store.Begin !in faults
              && TxWorks(cascade, faults) && Store.Commit !in faults
    ensures DeleteHarms(t, files, id, cascade, faults) <==>
              cascade && DeleteWorks(t.groups, id, cascade, faults) && Disk.CollectHarms(Pruned(t, id, cascade), files, faults)
    ensures Pruned(t, id, cascade) == (var sub := Subtree(t.groups, id);
              GroupsWithout(if cascade then WithoutClips(t, ClipsIn(t.clips, sub)) else t, sub))
    ensures Store.NoFault(faults) && id in t.groups ==> DeleteWorks(t.groups, id, cascade, faults)
  {
    hide Subtree, ClipsIn, GroupsWithout, WithoutClips, Disk.CollectHarms;
    Store.FaultsNone(faults);
  }

  /**
   * The group goes with exactly its subtree; exactly the clips in that subtree
   * go too, or fall back to plain history. Nothing else changes.
   */
  method Delete(db: Db, id: nat, cascade: bool, faults: set<Store.Fault>, ghost u: iset<bytes>)
    returns (r: GroupResult, affected: set<nat>)
    requires Store.Valid(db, u) && GroupsOk(db.t.groups)
    modifies db
    ensures GroupsOk(db.t.groups) && (Store.Valid(db, u) <==> !DeleteHarms(old(db.t), old(db.files), id, cascade, faults))
    ensures Store.Valid(db, u) <==> Store.AllThere(db.t, db.files)
    ensures r.Done? <==> DeleteWorks(old(db.t).groups, id, cascade, faults)
    ensures r.Done? ==> var sub := Subtree(old(db.t).groups, id);
              && affected == Reported(ClipsIn(old(db.t).clips, sub), faults)
              && db.t == Pruned(old(db.t), id, cascade)
              && (Store.Valid(db, u) ==>
                    var gone := if cascade then ClipsIn(old(db.t).clips, sub) else {};
                    Store.Contents(db.t, db.files) == old(Store.Contents(db.t, db.files)) - gone)
              && (cascade && faults == {} ==> forall n :: n in db.files <==> Store.Referenced(db.t, n))
              && (!cascade ==> db.files == old(db.files))
    ensures !r.Done? ==> db.t == old(db.t) && db.files == old(db.files)
    ensures db.beside == if r.Done? && cascade then old(db.beside) - Disk.Swept(old(db.beside), faults) else old(db.beside)
    ensures DB_FILE in db.beside <==>
              DB_FILE in old(db.beside) && !(r.Done? && cascade && Disk.SweepsDatabase(faults))
    ensures r.NoSuchGroup? <==> id !in old(db.t).groups || Store.Exists in faults
    ensures Store.NoFault(faults) && id in old(db.t).groups ==> r.Done?
  {
    hide *;
    affected := {};
    Store.ValidParts(db, u);
    DeleteWorksIs(db.t, db.files, id, cascade, faults);
    Store.SoundIsThere(db.t, db.files, u);
    if id !in db.t.groups || Store.Exists in faults {
      return NoSuchGroup, {};
    }
    if Store.Begin in faults {
      return DatabaseError, {};
    }
    var saved := db.t;
    GroupDeleteKeeps(db.t, db.files, id, cascade, u);
    var ok: bool;
    ok, affected := DeleteTx(db, id, cascade, faults);
    if !ok || Store.Commit in faults {
      db.t := saved;
      Store.PartsValid(db, u);
      return DatabaseError, {};
    }
    Store.PartsValid(db, u);
    Store.SoundIsThere(db.t, db.files, u);
    if cascade {
      Disk.Collect(db, faults, u);
    }
    return Done, affected;
  }

  lemma GroupDeleteKeeps(t: Tables, files: map<bytes, bytes>, id: nat, cascade: bool, u: iset<bytes>)
    requires Store.PayloadsOk(t, files, u) && KeysOk(t.clips) && RefsOk(t) && GroupsOk(t.groups) && id in t.groups
    ensures var sub := Subtree(t.groups, id);
            var gone := if cascade then ClipsIn(t.clips, sub) else {};
            var t2 := GroupsWithout(if cascade then WithoutClips(t, gone) else t, sub);
            && Store.PayloadsOk(t2, files, u) && KeysOk(t2.clips) && RefsOk(t2) && GroupsOk(t2.groups)
            && Store.Contents(t2, files) == Store.Contents(t, files) - gone
  {
    hide *;
    var sub := Subtree(t.groups, id);
    var gone := ClipsIn(t.clips, sub);
    SubtreeGoes(t.groups, id);
    ReleaseKeeps(t, files, sub, u);
    Store.DeleteIs(t, files, gone, u);
    GroupsStay(t, gone);
    ReleaseKeeps(WithoutClips(t, gone), files, sub, u);
    assert Store.Contents(t, files) - {} == Store.Contents(t, files);
  }

  lemma SubtreeGoes(groups: GroupMap, id: nat)
    requires GroupsOk(groups)
    ensures GroupsOk(groups - Subtree(groups, id))
  {
    hide Acyclic, NameOk, Below;
    var rest := groups - Subtree(groups, id);
    forall x | x in rest && rest[x].parent.Some? ensures rest[x].parent.value in rest {
      BelowStep(groups, x, id);
    }
    SameParentsAcyclic(groups, rest);
  }

  lemma ReleaseKeeps(t: Tables, files: map<bytes, bytes>, some: set<nat>, u: iset<bytes>)
    requires Store.PayloadsOk(t, files, u) && KeysOk(t.clips) && RefsOk(t)
    ensures var t2 := GroupsWithout(t, some);
            && Store.PayloadsOk(t2, files, u) && KeysOk(t2.clips) && RefsOk(t2)
            && Store.Contents(t2, files) == Store.Contents(t, files) && t2.groups == t.groups - some
  {
    hide Store.ClipOk, Store.Loads, Store.PayloadsOk, KeysOk, RefsOk, Released;
    ReleaseKeepsKeys(t, some);
    ReleaseKeepsRows(t, files, some, u);
  }

  lemma ReleaseKeepsKeys(t: Tables, some: set<nat>)
    requires KeysOk(t.clips) && RefsOk(t)
    ensures KeysOk(GroupsWithout(t, some).clips) && RefsOk(GroupsWithout(t, some))
  {
    var clips := GroupsWithout(t, some).clips;
    forall i, j | i in clips && j in clips && i != j ensures Apart(clips[i], clips[j]) {
      assert Apart(t.clips[i], t.clips[j]);
    }
  }

  lemma ReleaseKeepsRows(t: Tables, files: map<bytes, bytes>, some: set<nat>, u: iset<bytes>)
    requires Store.PayloadsOk(t, files, u)
    ensures Store.PayloadsOk(GroupsWithout(t, some), files, u)
    ensures Store.Contents(GroupsWithout(t, some), files) == Store.Contents(t, files)
  {
    hide Store.ClipOk, Store.Loads;
    var t2 := GroupsWithout(t, some);
    Store.PayloadsOfRest(t, t2, files, u);
  }

  /** Creating, renaming and moving groups changes nothing about the clips. */
  lemma TreeEditsKeepClips(t: Tables, groups: GroupMap, files: map<bytes, bytes>, u: iset<bytes>)
    requires Store.PayloadsOk(t, files, u) && KeysOk(t.clips) && RefsOk(t) && t.groups.Keys <= groups.Keys
    ensures var t2 := t.(groups := groups);
            && Store.PayloadsOk(t2, files, u) && KeysOk(t2.clips) && RefsOk(t2)
            && Store.Contents(t2, files) == Store.Contents(t, files)
  {
    hide Store.ClipOk, Store.Loads;
  }

  // ---- paths -----------------------------------------------------------------------------------

  /** The part before the first slash. */
  function Head(path: bytes): (h: bytes)
    ensures |h| <= |path|
  {
    if path == [] || path[0] == 47 then [] else [path[0]] + Head(path[1..])
  }

  /** The trimmed names between the slashes, blank ones left out. */
  function Components(path: bytes): (c: seq<bytes>) {
    var h := Head(path);
    (if Trim(h) == [] then [] else [Trim(h)]) + if |h| == |path| then [] else Components(path[|h| + 1..])
  }

  /** Parts with slashes between them. */
  function Slashed(parts: seq<bytes>): bytes
    requires parts != []
  {
    if |parts| == 1 then parts[0] else parts[0] + ['/' as int] + Slashed(parts[1..])
  }

  function PartNames(parts: seq<bytes>): seq<bytes> {
    if parts == [] then [] else (if Trim(parts[0]) == [] then [] else [Trim(parts[0])]) + PartNames(parts[1..])
  }

  /** The names of a path are its parts, trimmed, but for the blank ones. */
  lemma {:induction false} ComponentsOfParts(parts: seq<bytes>)
    requires parts != [] && forall p :: p in parts ==> '/' as int !in p
    ensures Components(Slashed(parts)) == PartNames(parts)
  {
    hide Trim, Head;
    var path := Slashed(parts);
    assert parts[0] in parts;
    if |parts| == 1 {
      assert path + [] == path && parts[1..] == [];
      HeadIs(parts[0], []);
      assert PartNames(parts[1..]) == [];
    } else {
      var rest := Slashed(parts[1..]);
      assert path == parts[0] + ([47] + rest) && path[|parts[0]| + 1..] == rest;
      HeadIs(parts[0], [47] + rest);
      assert forall p :: p in parts[1..] ==> p in parts;
      ComponentsOfParts(parts[1..]);
    }
  }

  /** Every path is so made of parts. */
  lemma {:induction false} EveryPathHasParts(path: bytes) returns (parts: seq<bytes>)
    ensures parts != [] && Slashed(parts) == path && forall p :: p in parts ==> '/' as int !in p
    decreases |path|
  {
    var h := Head(path);
    HeadEnds(path);
    if |h| == |path| {
      assert h == path;
      parts := [h];
    } else {
      var more := EveryPathHasParts(path[|h| + 1..]);
      parts := [h] + more;
      assert parts[1..] == more && path == h + [47] + path[|h| + 1..];
    }
  }

  lemma {:induction false} HeadEnds(path: bytes)
    ensures var h := Head(path); h <= path && 47 !in h && (|h| < |path| ==> path[|h|] == 47)
  {
    if path != [] && path[0] != 47 { HeadEnds(path[1..]); }
  }

  lemma {:induction false} HeadIs(part: bytes, rest: bytes)
    requires 47 !in part && (rest == [] || rest[0] == 47)
    ensures Head(part + rest) == part
  {
    if part == [] {
      assert part + rest == rest;
    } else {
      assert part[0] in part && (part + rest)[1..] == part[1..] + rest && 47 !in part[1..];
      HeadIs(part[1..], rest);
    }
  }

  /** The parent of the k-th group of a trail. */
  function Up(ids: seq<nat>, k: nat): Option<nat>
    requires k <= |ids|
  {
    if k == 0 then None else Some(ids[k - 1])
  }

  /** Following the names from the top leads through these groups. */
  ghost predicate Trail(groups: GroupMap, names: seq<bytes>, ids: seq<nat>) {
    |ids| == |names| && forall k :: 0 <= k < |ids| ==> At(groups, Up(ids, k), names[k], ids[k])
  }

  function CutAll(names: seq<bytes>): (c: seq<bytes>)
    ensures |c| == |names|
  {
    seq(|names|, k requires 0 <= k < |names| => Cut(names[k]))
  }

  lemma {:induction false} TrailUnique(groups: GroupMap, names: seq<bytes>, a: seq<nat>, b: seq<nat>)
    requires SiblingsDiffer(groups) && Trail(groups, names, a) && Trail(groups, names, b)
    ensures a == b
  {
    hide Trail, At, SiblingsDiffer;
    TrailLength(groups, names, a);
    TrailLength(groups, names, b);
    if names != [] {
      var n := |names| - 1;
      TrailPrefix(groups, names, a, n);
      TrailPrefix(groups, names, b, n);
      TrailUnique(groups, names[..n], a[..n], b[..n]);
      TrailAt(groups, names, a, n);
      TrailAt(groups, names, b, n);
      assert n > 0 ==> a[..n][n - 1] == b[..n][n - 1];
      AtUnique(groups, Up(a, n), names[n], a[n], b[n]);
      assert a == a[..n] + [a[n]] && b == b[..n] + [b[n]];
    }
  }

  lemma TrailLength(groups: GroupMap, names: seq<bytes>, ids: seq<nat>)
    requires Trail(groups, names, ids)
    ensures |ids| == |names|
  {
  }

  lemma TrailAt(groups: GroupMap, names: seq<bytes>, ids: seq<nat>, k: nat)
    requires Trail(groups, names, ids) && k < |names|
    ensures |ids| == |names| && At(groups, Up(ids, k), names[k], ids[k]) && Has(groups, Up(ids, k), names[k])
  {
  }

  lemma AtUnique(groups: GroupMap, parent: Option<nat>, name: bytes, x: nat, y: nat)
    requires SiblingsDiffer(groups) && At(groups, parent, name, x) && At(groups, parent, name, y)
    ensures x == y
  {
  }

  lemma TrailPrefix(groups: GroupMap, names: seq<bytes>, ids: seq<nat>, n: nat)
    requires Trail(groups, names, ids) && n <= |names|
    ensures Trail(groups, names[..n], ids[..n])
  {
    hide At;
    forall k | 0 <= k < n ensures At(groups, Up(ids[..n], k), names[..n][k], ids[..n][k]) {
      assert At(groups, Up(ids, k), names[k], ids[k]);
    }
  }

  lemma TrailStays(groups: GroupMap, more: GroupMap, names: seq<bytes>, ids: seq<nat>)
    requires Trail(groups, names, ids) && forall x :: x in groups ==> x in more && more[x] == groups[x]
    ensures Trail(more, names, ids)
  {
    forall k | 0 <= k < |ids| ensures At(more, Up(ids, k), names[k], ids[k]) {
      assert At(groups, Up(ids, k), names[k], ids[k]);
    }
  }

  lemma TrailOn(groups: GroupMap, names: seq<bytes>, ids: seq<nat>, name: bytes, x: nat)
    requires Trail(groups, names, ids) && At(groups, Up(ids, |ids|), name, x)
    ensures Trail(groups, names + [name], ids + [x])
  {
    hide At;
    var (n2, i2) := (names + [name], ids + [x]);
    forall k | 0 <= k < |i2| ensures At(groups, Up(i2, k), n2[k], i2[k]) {
      if k < |ids| {
        assert At(groups, Up(ids, k), names[k], ids[k]);
      }
    }
  }

  predicate Short(name: bytes) { Utf8.Characters(name) <= NAME_MAX_CHARS }

  ghost predicate AllShort(names: seq<bytes>) { forall k :: 0 <= k < |names| ==> Short(names[k]) }

  predicate Has(groups: GroupMap, parent: Option<nat>, name: bytes) { exists x :: x in groups && At(groups, parent, name, x) }

  /** The lookup of a name that was cut when stored misses, and storing it again collides. */
  ghost predicate StuckAt(groups: GroupMap, names: seq<bytes>, ids: seq<nat>, k: nat) {
    k < |names| && Trail(groups, names[..k], ids) && !Short(names[k]) && Has(groups, Up(ids, |ids|), Cut(names[k]))
  }

  /** Only groups on the trail are new. */
  ghost predicate OnlyAdds(groups: GroupMap, more: GroupMap, ids: seq<nat>) {
    && (forall x :: x in groups ==> x in more && more[x] == groups[x])
    && (forall x :: x in more ==> x in groups || x in ids)
  }

  // ---- the path in one call -----------------------------------------------------------------------

  datatype PathResult = Found(id: nat) | EmptyPath | Refused(why: GroupResult)

  method Lookup(db: Db, parent: nat, name: bytes) returns (id: nat)
    requires 0 !in db.t.groups
    ensures id != 0 ==> At(db.t.groups, ParentOf(parent), name, id)
    ensures id == 0 ==> !Has(db.t.groups, ParentOf(parent), name)
  {
    hide At;
    if x :| x in db.t.groups && At(db.t.groups, ParentOf(parent), name, x) {
      return x;
    }
    return 0;
  }

  /** strtok_r: the next part between slashes. */
  method NextPart(path: bytes, at: nat) returns (part: bytes, next: nat)
    requires at <= |path|
    ensures part == Head(path[at..]) && next == at + |part|
  {
    hide Head;
    next := at;
    part := [];
    assert [] + Head(path[at..]) == Head(path[at..]);
    while next < |path| && path[next] != 47
      invariant at <= next <= |path| && next == at + |part| && Head(path[at..]) == part + Head(path[next..])
    {
      HeadStep(path, next);
      assert part + ([path[next]] + Head(path[next + 1..])) == part + [path[next]] + Head(path[next + 1..]);
      part := part + [path[next]];
      next := next + 1;
    }
    HeadEnd(path, next);
    assert part + [] == part;
  }

  lemma HeadStep(path: bytes, n: nat)
    requires n < |path| && path[n] != 47
    ensures Head(path[n..]) == [path[n]] + Head(path[n + 1..])
  {
    assert path[n..][1..] == path[n + 1..];
  }

  lemma HeadEnd(path: bytes, n: nat)
    requires n == |path| || (n < |path| && path[n] == 47)
    ensures Head(path[n..]) == []
  {
  }

  lemma ComponentsStep(path: bytes, at: nat)
    requires at <= |path|
    ensures var h := Head(path[at..]);
            Components(path[at..]) == (if Trim(h) == [] then [] else [Trim(h)])
                                    + if at + |h| == |path| then [] else Components(path[at + |h| + 1..])
  {
    hide Trim, Head, Components;
    var h := Head(path[at..]);
    ComponentsOf(path[at..]);
    if at + |h| < |path| {
      assert path[at..][|h| + 1..] == path[at + |h| + 1..];
    }
  }

  lemma ComponentsOf(path: bytes)
    ensures var h := Head(path);
            Components(path) == (if Trim(h) == [] then [] else [Trim(h)])
                              + if |h| == |path| then [] else Components(path[|h| + 1..])
  {
    hide Trim, Head;
  }

  /** A lookup that missed, followed by a creation that worked. */
  ghost predicate Made(groups: GroupMap, names: seq<bytes>, ids: seq<nat>) {
    && |ids| < |names| && Trail(groups, names[..|ids|], ids)
    && !Has(groups, Up(ids, |ids|), names[|ids|]) && !Has(groups, Up(ids, |ids|), Cut(names[|ids|]))
  }

  /** Where one trail goes on, an equally named one cannot miss. */
  lemma TrailsAgree(groups: GroupMap, names: seq<bytes>, a: seq<nat>, b: seq<nat>)
    requires SiblingsDiffer(groups) && |a| < |b| <= |names|
    requires Trail(groups, names[..|a|], a) && Trail(groups, names[..|b|], b)
    ensures Has(groups, Up(a, |a|), names[|a|])
  {
    hide Trail, At, SiblingsDiffer, Has;
    var n := |a|;
    TrailAt(groups, names[..|b|], b, n);
    TrailPrefix(groups, names[..|b|], b, n);
    assert names[..|b|][..n] == names[..n];
    TrailUnique(groups, names[..n], a, b[..n]);
    assert n > 0 ==> a[n - 1] == b[..n][n - 1];
  }

  lemma StoredIsShort(groups: GroupMap, parent: Option<nat>, name: bytes)
    requires NamesOk(groups) && Has(groups, parent, name)
    ensures Short(name) && Cut(name) == name
  {
    hide Utf8.IsUtf8, Cut;
    CutIs(name);
  }

  /** Nothing is made on a path that is there, nor on one that is stuck. */
  lemma MadeIsNew(groups: GroupMap, names: seq<bytes>, ids: seq<nat>, whole: seq<nat>, k: nat)
    requires SiblingsDiffer(groups) && NamesOk(groups) && Made(groups, names, ids)
    ensures !Trail(groups, names, whole) && !StuckAt(groups, names, whole, k)
  {
    hide Trail, At, SiblingsDiffer, NamesOk, Short, Cut, Has;
    var c := |ids|;
    if Trail(groups, names, whole) {
      TrailLength(groups, names, whole);
      assert names[..|names|] == names;
      TrailsAgree(groups, names, ids, whole);
    }
    if StuckAt(groups, names, whole, k) {
      TrailLength(groups, names[..k], whole);
      if c < k {
        TrailsAgree(groups, names, ids, whole);
      } else if c > k {
        TrailsAgree(groups, names, whole, ids);
        StoredIsShort(groups, Up(whole, |whole|), names[k]);
      } else {
        TrailUnique(groups, names[..c], ids, whole);
      }
    }
  }

  /** A trail that is there is never stuck. */
  lemma TrailNotStuck(groups: GroupMap, names: seq<bytes>, ids: seq<nat>, other: seq<nat>, k: nat)
    requires SiblingsDiffer(groups) && NamesOk(groups) && Trail(groups, names, ids)
    ensures !StuckAt(groups, names, other, k)
  {
    hide Trail, At, SiblingsDiffer, NamesOk, Short, Cut, Has;
    if StuckAt(groups, names, other, k) {
      TrailLength(groups, names, ids);
      TrailLength(groups, names[..k], other);
      assert names[..|names|] == names;
      TrailsAgree(groups, names, other, ids);
      StoredIsShort(groups, Up(other, |other|), names[k]);
    }
  }

  lemma MadeNever(groups: GroupMap, names: seq<bytes>, ids: seq<nat>)
    requires SiblingsDiffer(groups) && NamesOk(groups) && Made(groups, names, ids)
    ensures forall whole :: !Trail(groups, names, whole)
    ensures forall whole, k :: !StuckAt(groups, names, whole, k)
  {
    hide *;
    forall whole ensures !Trail(groups, names, whole) {
      MadeIsNew(groups, names, ids, whole, 0);
    }
    forall whole, k ensures !StuckAt(groups, names, whole, k) {
      MadeIsNew(groups, names, ids, whole, k);
    }
  }

  lemma MissedNever(groups: GroupMap, names: seq<bytes>, ids: seq<nat>)
    requires SiblingsDiffer(groups) && |ids| < |names| && Trail(groups, names[..|ids|], ids)
    requires !Has(groups, Up(ids, |ids|), names[|ids|])
    ensures forall whole :: !Trail(groups, names, whole)
  {
    hide *;
    forall whole ensures !Trail(groups, names, whole) {
      if Trail(groups, names, whole) {
        TrailLength(groups, names, whole);
        assert names[..|names|] == names;
        TrailsAgree(groups, names, ids, whole);
      }
    }
  }

  lemma ThereOnly(groups: GroupMap, names: seq<bytes>, ids: seq<nat>)
    requires SiblingsDiffer(groups) && NamesOk(groups) && Trail(groups, names, ids)
    ensures forall whole :: Trail(groups, names, whole) ==> whole == ids
    ensures forall whole, k :: !StuckAt(groups, names, whole, k)
  {
    hide *;
    forall whole | Trail(groups, names, whole) ensures whole == ids {
      TrailUnique(groups, names, whole, ids);
    }
    forall whole, k ensures !StuckAt(groups, names, whole, k) {
      TrailNotStuck(groups, names, ids, whole, k);
    }
  }

  lemma PathStart(groups: GroupMap)
    ensures AllUtf8([]) && Trail(groups, [], []) && Trail(groups, CutAll([]), []) && ParentOf(0) == Up([], 0) && OnlyAdds(groups, groups, [])
  {
  }

  lemma UpLast(ids: seq<nat>, id: nat)
    requires id != 0
    ensures Up(ids + [id], |ids| + 1) == ParentOf(id)
  {
  }

  lemma {:induction false} TrimRightAgain(s: bytes)
    ensures TrimRight(TrimRight(s)) == TrimRight(s)
    ensures s == [] || !Blank(s[0]) ==> TrimRight(s) == [] || TrimRight(s)[0] == s[0]
  {
    if s != [] && Blank(s[|s| - 1]) {
      TrimRightAgain(s[..|s| - 1]);
    }
  }

  lemma {:induction false} TrimLeftStarts(s: bytes)
    ensures TrimLeft(s) == [] || !Blank(TrimLeft(s)[0])
  {
    if s != [] && Blank(s[0]) {
      TrimLeftStarts(s[1..]);
    }
  }

  lemma TrimAgain(s: bytes)
    ensures Trim(Trim(s)) == Trim(s)
  {
    hide Blank;
    TrimLeftStarts(s);
    TrimRightAgain(TrimLeft(s));
    var t := Trim(s);
    assert t == [] || !Blank(t[0]);
    assert TrimLeft(t) == t;
  }

  lemma CutAllMore(names: seq<bytes>, name: bytes)
    ensures CutAll(names + [name]) == CutAll(names) + [Cut(name)]
  {
    hide Cut;
  }

  /** The trail after a creation. */
  lemma Added(groups: GroupMap, first: GroupMap, done: seq<bytes>, ids: seq<nat>, parent: nat, name: bytes, id: nat)
    requires Trail(groups, CutAll(done), ids) && ParentOf(parent) == Up(ids, |ids|) && OnlyAdds(first, groups, ids) && id !in groups
    ensures var more := groups[id := Group(ParentOf(parent), Cut(name))];
            Trail(more, CutAll(done + [name]), ids + [id]) && OnlyAdds(first, more, ids + [id])
  {
    hide Cut, CutAll, Trail, ParentOf;
    var more := groups[id := Group(ParentOf(parent), Cut(name))];
    TrailStays(groups, more, CutAll(done), ids);
    TrailOn(more, CutAll(done), ids, Cut(name), id);
    CutAllMore(done, name);
  }

  /** The trail after a lookup. */
  lemma Stepped(first: GroupMap, groups: GroupMap, done: seq<bytes>, ids: seq<nat>, parent: nat, name: bytes, id: nat, clean: bool)
    requires Trail(groups, CutAll(done), ids) && ParentOf(parent) == Up(ids, |ids|) && OnlyAdds(first, groups, ids)
    requires NamesOk(groups) && At(groups, ParentOf(parent), name, id)
    requires clean ==> first == groups && Trail(first, done, ids)
    ensures Trail(groups, CutAll(done + [name]), ids + [id]) && OnlyAdds(first, groups, ids + [id])
    ensures clean ==> Trail(first, done + [name], ids + [id])
  {
    hide Cut, CutAll, Trail, ParentOf, NamesOk;
    assert Has(groups, ParentOf(parent), name);
    StoredIsShort(groups, ParentOf(parent), name);
    TrailOn(groups, CutAll(done), ids, Cut(name), id);
    CutAllMore(done, name);
    if clean {
      TrailOn(first, done, ids, name, id);
    }
  }

  lemma MadeHere(groups: GroupMap, names: seq<bytes>, ids: seq<nat>, parent: nat, name: bytes)
    requires |ids| < |names| && Trail(groups, names[..|ids|], ids) && names[|ids|] == name
    requires ParentOf(parent) == Up(ids, |ids|) && !Has(groups, ParentOf(parent), name)
    requires !Has(groups, ParentOf(parent), Cut(name))
    ensures Made(groups, names, ids)
  {
    hide Trail, ParentOf, Cut, Has;
  }

  lemma StoredIsNameOk(groups: GroupMap, parent: Option<nat>, name: bytes, id: nat)
    requires NamesOk(groups) && At(groups, parent, name, id)
    ensures Utf8.IsUtf8(name) && name != []
  {
    hide Utf8.IsUtf8;
  }

  ghost predicate AllUtf8(names: seq<bytes>) { forall k :: 0 <= k < |names| ==> names[k] != [] && Utf8.IsUtf8(names[k]) }

  lemma AllUtf8More(names: seq<bytes>, name: bytes)
    requires AllUtf8(names) && name != [] && Utf8.IsUtf8(name)
    ensures AllUtf8(names + [name])
  {
    hide Utf8.IsUtf8;
  }

  lemma TakenIfHas(groups: GroupMap, parent: Option<nat>, name: bytes)
    requires 0 !in groups
    ensures Taken(groups, parent, name, 0) <==> Has(groups, parent, name)
  {
    hide At;
  }

  /** One part of a path. */
  method FindOrCreate(db: Db, parent: nat, name: bytes, faults: set<TreeFault>) returns (why: GroupResult, id: nat, created: bool)
    requires GroupsOk(db.t.groups) && Trim(name) == name
    modifies db`t
    ensures GroupsOk(db.t.groups)
    ensures why.Done? ==> id != 0 && Utf8.IsUtf8(name) && name != []
    ensures why.Done? && !created ==> db.t == old(db.t) && At(db.t.groups, ParentOf(parent), name, id)
    ensures why.Done? && created ==>
              && id !in old(db.t).groups && db.t == old(db.t).(groups := old(db.t).groups[id := Group(ParentOf(parent), Cut(name))])
              && !Has(old(db.t).groups, ParentOf(parent), name) && !Has(old(db.t).groups, ParentOf(parent), Cut(name))
    ensures !why.Done? ==> db.t == old(db.t) && (faults == {} ==> !Has(db.t.groups, ParentOf(parent), name))
    ensures !why.Done? && faults == {} && (parent == 0 || parent in db.t.groups) && name != [] && Utf8.IsUtf8(name) ==>
              Has(db.t.groups, ParentOf(parent), Cut(name))
  {
    hide *;
    Parts(db.t.groups);
    ClosedHasNoZero(db.t.groups);
    id := 0;
    if Missed !in faults {
      id := Lookup(db, parent, name);
    }
    if id != 0 {
      StoredIsNameOk(db.t.groups, ParentOf(parent), name, id);
      return Done, id, false;
    }
    TakenIfHas(db.t.groups, ParentOf(parent), Cut(name));
    if Has(db.t.groups, ParentOf(parent), name) {
      StoredIsShort(db.t.groups, ParentOf(parent), name);
    }
    why, id := Create(db, name, parent, faults);
    created := true;
  }

  lemma Names(path: bytes, names: seq<bytes>, done: seq<bytes>, at: nat, next: nat, name: bytes)
    requires at <= next <= |path| && next == at + |Head(path[at..])| && name == Trim(Head(path[at..]))
    requires names == done + Components(path[at..])
    ensures var more := if name == [] then done else done + [name];
            names == more + if next < |path| then Components(path[next + 1..]) else []
    ensures name != [] ==> |done| < |names| && names[..|done|] == done && names[|done|] == name
  {
    hide Trim, Components, Head;
    ComponentsStep(path, at);
    var rest := if next == |path| then [] else Components(path[next + 1..]);
    if name == [] {
      assert done + ([] + rest) == done + rest;
    } else {
      assert done + ([name] + rest) == done + [name] + rest;
    }
  }

  /**
   * Where a walk stands after the names in done: ids are the groups it went
   * through, and first is what it started from. While it is clean it made nothing.
   */
  ghost predicate Walked(first: GroupMap, groups: GroupMap, names: seq<bytes>, done: seq<bytes>, ids: seq<nat>, parent: nat,
                         before: seq<nat>, clean: bool) {
    && OnlyAdds(first, groups, ids) && Trail(groups, CutAll(done), ids) && AllUtf8(done)
    && |ids| == |done| && ParentOf(parent) == Up(ids, |ids|)
    && (clean ==> first == groups && Trail(first, done, ids))
    && (!clean ==> Made(first, names, before))
  }

  lemma WalkStarts(groups: GroupMap, names: seq<bytes>)
    ensures Walked(groups, groups, names, [], [], 0, [], true)
  {
    PathStart(groups);
  }

  lemma WalkFinds(first: GroupMap, groups: GroupMap, names: seq<bytes>, done: seq<bytes>, ids: seq<nat>, parent: nat,
                  before: seq<nat>, clean: bool, name: bytes, id: nat)
    requires Walked(first, groups, names, done, ids, parent, before, clean) && NamesOk(groups) && id != 0
    requires At(groups, ParentOf(parent), name, id) && name != [] && Utf8.IsUtf8(name)
    ensures Walked(first, groups, names, done + [name], ids + [id], id, before, clean)
  {
    hide OnlyAdds, Trail, AllUtf8, Made, ParentOf, Up, At, NamesOk, CutAll;
    Stepped(first, groups, done, ids, parent, name, id, clean);
    UpLast(ids, id);
    AllUtf8More(done, name);
  }

  lemma WalkMakes(first: GroupMap, groups: GroupMap, names: seq<bytes>, done: seq<bytes>, ids: seq<nat>, parent: nat,
                  before: seq<nat>, clean: bool, name: bytes, id: nat)
    requires Walked(first, groups, names, done, ids, parent, before, clean) && id !in groups && id != 0
    requires |done| < |names| && names[..|done|] == done && names[|done|] == name && name != [] && Utf8.IsUtf8(name)
    requires !Has(groups, ParentOf(parent), name) && !Has(groups, ParentOf(parent), Cut(name))
    ensures Walked(first, groups[id := Group(ParentOf(parent), Cut(name))], names, done + [name], ids + [id], id,
                   if clean then ids else before, false)
  {
    hide OnlyAdds, Trail, AllUtf8, Made, ParentOf, Up, Has, CutAll, Cut;
    Added(groups, first, done, ids, parent, name, id);
    if clean {
      MadeHere(groups, names, ids, parent, name);
    }
    UpLast(ids, id);
    AllUtf8More(done, name);
  }

  lemma WalkRefused(first: GroupMap, groups: GroupMap, names: seq<bytes>, done: seq<bytes>, ids: seq<nat>, parent: nat,
                    before: seq<nat>, clean: bool)
    requires Walked(first, groups, names, done, ids, parent, before, clean) && GroupsOk(first)
    requires |done| < |names| && names[..|done|] == done && !Has(groups, ParentOf(parent), names[|done|])
    ensures OnlyAdds(first, groups, ids) && forall whole :: !Trail(first, names, whole)
    ensures first != groups ==> forall whole, k :: !StuckAt(first, names, whole, k)
  {
    hide *;
    WalkedParts(first, groups, names, done, ids, parent, before, clean);
    Parts(first);
    if clean {
      MissedNever(groups, names, ids);
    } else {
      MadeNever(first, names, before);
    }
  }

  /** No group lies right below this one. */
  ghost predicate Childless(groups: GroupMap, parent: nat) {
    forall x :: x in groups ==> groups[x].parent != Some(parent)
  }

  lemma NewIsChildless(groups: GroupMap, id: nat, parent: nat, name: bytes)
    requires Closed(groups) && id !in groups && id != 0 && (parent == 0 || parent in groups)
    ensures Childless(groups[id := Group(ParentOf(parent), name)], id)
  {
  }

  lemma ChildlessHasNone(groups: GroupMap, parent: nat, name: bytes)
    requires Childless(groups, parent) && parent != 0
    ensures !Has(groups, ParentOf(parent), name)
  {
  }

  /** With nothing going wrong, the walk is refused at a name that is no text or that was cut when it was stored. */
  lemma WalkStuck(first: GroupMap, groups: GroupMap, names: seq<bytes>, done: seq<bytes>, ids: seq<nat>, parent: nat,
                  before: seq<nat>, clean: bool)
    requires Walked(first, groups, names, done, ids, parent, before, clean)
    requires |done| < |names| && names[..|done|] == done && !Has(groups, ParentOf(parent), names[|done|])
    requires AllUtf8(names) ==> Has(groups, ParentOf(parent), Cut(names[|done|]))
    requires clean || (parent != 0 && Childless(groups, parent))
    ensures AllUtf8(names) ==> StuckAt(first, names, ids, |done|)
  {
    hide Trail, OnlyAdds, Made, CutAll, Has, Cut, Short, Childless, Up, Utf8.IsUtf8;
    if AllUtf8(names) {
      if !clean {
        ChildlessHasNone(groups, parent, Cut(names[|done|]));
      }
      LongIfCut(groups, parent, names[|done|]);
    }
  }

  lemma LongIfCut(groups: GroupMap, parent: nat, name: bytes)
    requires name != [] && Utf8.IsUtf8(name)
    ensures Short(name) && Has(groups, ParentOf(parent), Cut(name)) ==> Has(groups, ParentOf(parent), name)
  {
    hide Utf8.IsUtf8, Has, Cut;
    CutIs(name);
  }

  lemma WalkAdds(first: GroupMap, groups: GroupMap, names: seq<bytes>, done: seq<bytes>, ids: seq<nat>, parent: nat,
                 before: seq<nat>, clean: bool)
    requires Walked(first, groups, names, done, ids, parent, before, clean)
    ensures OnlyAdds(first, groups, ids)
  {
    hide OnlyAdds, Trail, CutAll, AllUtf8, Made, ParentOf, Up;
  }

  lemma WalkEnds(first: GroupMap, groups: GroupMap, names: seq<bytes>, ids: seq<nat>, parent: nat, before: seq<nat>, clean: bool)
    requires Walked(first, groups, names, names, ids, parent, before, clean) && GroupsOk(first)
    ensures OnlyAdds(first, groups, ids) && Trail(groups, CutAll(names), ids) && AllUtf8(names) && |ids| == |names|
    ensures if ids == [] then parent == 0 else parent == ids[|ids| - 1] != 0
    ensures forall whole :: Trail(first, names, whole) ==> whole == ids && groups == first
    ensures forall whole, k :: !StuckAt(first, names, whole, k)
  {
    hide *;
    WalkedParts(first, groups, names, names, ids, parent, before, clean);
    Parts(first);
    ParentUp(parent, ids);
    if clean {
      ThereOnly(first, names, ids);
    } else {
      MadeNever(first, names, before);
    }
  }

  lemma WalkedParts(first: GroupMap, groups: GroupMap, names: seq<bytes>, done: seq<bytes>, ids: seq<nat>, parent: nat,
                    before: seq<nat>, clean: bool)
    requires Walked(first, groups, names, done, ids, parent, before, clean)
    ensures OnlyAdds(first, groups, ids) && Trail(groups, CutAll(done), ids) && AllUtf8(done)
    ensures |ids| == |done| && ParentOf(parent) == Up(ids, |ids|)
    ensures clean ==> first == groups && Trail(first, done, ids)
    ensures !clean ==> Made(first, names, before)
  {
  }

  lemma ParentUp(parent: nat, ids: seq<nat>)
    requires ParentOf(parent) == Up(ids, |ids|)
    ensures if ids == [] then parent == 0 else parent == ids[|ids| - 1] != 0
  {
  }

  /**
   * Groups may have been added along the path, and with nothing going wrong all
   * of it is there unless one of its names is no text or was cut when stored.
   */
  ghost predicate Paths(groups: GroupMap, next: GroupMap, path: bytes, faults: set<(nat, TreeFault)>) {
    exists ids ::
      && OnlyAdds(groups, next, ids)
      && (faults == {} && AllUtf8(Components(path)) && (forall whole, k :: !StuckAt(groups, Components(path), whole, k)) ==>
            Trail(next, CutAll(Components(path)), ids))
  }

  /**
   * The group at a path, creating what is missing. A path that is there is only
   * looked up; one with a name that was cut when it was stored is refused.
   * Statement k's faults are those of the k-th name.
   */
  method EnsurePath(db: Db, path: bytes, faults: set<(nat, TreeFault)>) returns (r: PathResult, ghost ids: seq<nat>)
    requires GroupsOk(db.t.groups)
    modifies db`t
    ensures GroupsOk(db.t.groups)
    ensures db.t == old(db.t).(groups := db.t.groups) && OnlyAdds(old(db.t).groups, db.t.groups, ids)
    ensures r.EmptyPath? <==> Components(path) == []
    ensures r.Found? ==>
              && AllUtf8(Components(path)) && Trail(db.t.groups, CutAll(Components(path)), ids)
              && ids != [] && r.id == ids[|ids| - 1]
    ensures forall whole :: faults == {} && Trail(old(db.t).groups, Components(path), whole) && whole != [] ==>
              r == Found(whole[|whole| - 1]) && db.t.groups == old(db.t).groups
    ensures forall whole, k :: faults == {} && StuckAt(old(db.t).groups, Components(path), whole, k) ==>
              r.Refused? && db.t.groups == old(db.t).groups
    ensures faults == {} ==>
              (r.Found? <==>
                 && Components(path) != [] && AllUtf8(Components(path))
                 && forall whole, k :: !StuckAt(old(db.t).groups, Components(path), whole, k))
    ensures Paths(old(db.t).groups, db.t.groups, path, faults)
  {
    hide *;
    ghost var first := db.t.groups;
    ghost var names := Components(path);
    ghost var before: seq<nat> := [];
    ghost var done: seq<bytes> := [];
    ghost var clean := true;
    ids := [];
    var parent, at, count := 0, 0, 0;
    var more := true;
    assert path[0..] == path && [] + names == names;
    WalkStarts(first, names);
    while more
      invariant GroupsOk(db.t.groups) && db.t == old(db.t).(groups := db.t.groups)
      invariant more ==> at <= |path| && names == done + Components(path[at..])
      invariant !more ==> names == done
      invariant count >= 0
      invariant Walked(first, db.t.groups, names, done, ids, parent, before, clean)
      invariant parent == 0 || parent in db.t.groups
      invariant clean || (parent != 0 && Childless(db.t.groups, parent))
      decreases if more then |path| - at + 1 else 0
    {
      var part, next := NextPart(path, at);
      var name := Trimmed(part);
      Names(path, names, done, at, next, name);
      more := next < |path|;
      at := next + 1;
      if name == [] {
        EndOf(done);
        continue;
      }
      TrimAgain(part);
      EndOf(done + [name]);
      ghost var groups := db.t.groups;
      var here := set f | f in faults && f.0 == count :: f.1;
      count := count + 1;
      var why, id, created := FindOrCreate(db, parent, name, here);
      if !why.Done? {
        WalkAdds(first, groups, names, done, ids, parent, before, clean);
        if faults == {} {
          WalkRefused(first, groups, names, done, ids, parent, before, clean);
          Utf8At(names, |done|);
          WalkStuck(first, groups, names, done, ids, parent, before, clean);
        }
        PathsIf(first, db.t.groups, path, faults, ids);
        return Refused(why), ids;
      }
      Parts(groups);
      if created {
        NewIsChildless(groups, id, parent, Cut(name));
        WalkMakes(first, groups, names, done, ids, parent, before, clean, name, id);
        before, clean := if clean then ids else before, false;
      } else {
        FoundIsThere(groups, parent, name, id);
        WalkFinds(first, groups, names, done, ids, parent, before, clean, name, id);
      }
      ids, done, parent := ids + [id], done + [name], id;
    }
    WalkEnds(first, db.t.groups, names, ids, parent, before, clean);
    PathsIf(first, db.t.groups, path, faults, ids);
    if parent == 0 {
      return EmptyPath, ids;
    }
    return Found(parent), ids;
  }

  lemma PathsIf(groups: GroupMap, next: GroupMap, path: bytes, faults: set<(nat, TreeFault)>, ids: seq<nat>)
    requires OnlyAdds(groups, next, ids)
    requires faults == {} && AllUtf8(Components(path)) && (forall whole, k :: !StuckAt(groups, Components(path), whole, k)) ==>
               Trail(next, CutAll(Components(path)), ids)
    ensures Paths(groups, next, path, faults)
  {
    hide OnlyAdds, AllUtf8, StuckAt, Trail, CutAll, Components;
  }

  lemma Utf8At(names: seq<bytes>, k: nat)
    requires k < |names|
    ensures AllUtf8(names) ==> names[k] != [] && Utf8.IsUtf8(names[k])
  {
    hide Utf8.IsUtf8;
  }

  lemma FoundIsThere(groups: GroupMap, parent: nat, name: bytes, id: nat)
    requires At(groups, ParentOf(parent), name, id)
    ensures id in groups && (parent != 0 ==> !Childless(groups, parent))
  {
  }

  lemma EndOf(names: seq<bytes>)
    ensures names + [] == names
  {
  }

  lemma ShortStays(names: seq<bytes>)
    requires AllShort(names) && AllUtf8(names)
    ensures CutAll(names) == names
  {
    hide Utf8.IsUtf8, Cut, NameOk;
    forall k | 0 <= k < |names| ensures Cut(names[k]) == names[k] {
      CutIs(names[k]);
    }
  }

  lemma FirstLong(names: seq<bytes>) returns (k: nat)
    requires !AllShort(names)
    ensures k < |names| && !Short(names[k]) && AllShort(names[..k])
  {
    hide Short;
    k := 0;
    while Short(names[k])
      invariant k < |names| && AllShort(names[..k])
      invariant exists j :: k <= j < |names| && !Short(names[j])
      decreases |names| - k
    {
      k := k + 1;
    }
  }

  /**
   * After a call that succeeded, a second one finds the same group and makes
   * nothing exactly when no name is too long; otherwise it is stuck.
   */
  lemma SecondCall(groups: GroupMap, names: seq<bytes>, ids: seq<nat>)
    requires SiblingsDiffer(groups) && NamesOk(groups) && AllUtf8(names) && Trail(groups, CutAll(names), ids)
    ensures AllShort(names) <==> Trail(groups, names, ids)
    ensures !AllShort(names) <==> exists whole, k: nat :: StuckAt(groups, names, whole, k)
  {
    hide Trail, At, SiblingsDiffer, NamesOk, Short, Cut, Has, AllUtf8, CutAll, AllShort;
    if AllShort(names) {
      ShortStays(names);
      ThereOnly(groups, names, ids);
    } else {
      var k := FirstLong(names);
      AllUtf8Prefix(names, k);
      ShortStays(names[..k]);
      CutAllPrefix(names, k);
      TrailPrefix(groups, CutAll(names), ids, k);
      TrailAt(groups, CutAll(names), ids, k);
      assert k > 0 ==> ids[..k][k - 1] == ids[k - 1];
      assert StuckAt(groups, names, ids[..k], k);
      if Trail(groups, names, ids) {
        TrailNotStuck(groups, names, ids, ids[..k], k);
      }
    }
  }

  lemma AllUtf8Prefix(names: seq<bytes>, k: nat)
    requires AllUtf8(names) && k <= |names|
    ensures AllUtf8(names[..k])
  {
    hide Utf8.IsUtf8;
  }

  lemma CutAllPrefix(names: seq<bytes>, k: nat)
    requires k < |names|
    ensures CutAll(names)[..k] == CutAll(names[..k]) && CutAll(names)[k] == Cut(names[k])
  {
    hide Cut;
  }
}
