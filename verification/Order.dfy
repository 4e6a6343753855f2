/** Listings of a set of rows in a strict order: what ORDER BY makes of them. */
module Order {
  ghost predicate Strict(ids: set<nat>, before: (nat, nat) -> bool) {
    && (forall x :: x in ids ==> !before(x, x))
    && (forall x, y :: x in ids && y in ids && x != y ==> before(x, y) || before(y, x))
    && (forall x, y, z :: x in ids && y in ids && z in ids && before(x, y) && before(y, z) ==> before(x, z))
  }

  /** s is all of ids, earlier ones first. */
  ghost predicate Listing(s: seq<nat>, ids: set<nat>, before: (nat, nat) -> bool) {
    && (forall x :: x in s <==> x in ids)
    && (forall i, j :: 0 <= i < j < |s| ==> before(s[i], s[j]))
  }

  function Members(s: seq<nat>): (m: set<nat>)
    ensures forall x :: x in m <==> x in s
  {
    set x | x in s
  }

  lemma {:induction false} MembersCount(s: seq<nat>)
    requires forall i, j :: 0 <= i < j < |s| ==> s[i] != s[j]
    ensures |Members(s)| == |s|
  {
    if s != [] {
      var (init, last) := (s[..|s| - 1], s[|s| - 1]);
      MembersCount(init);
      assert Members(s) == Members(init) + {last} && last !in Members(init);
    }
  }

  /** A smaller set has fewer members. */
  lemma {:induction false} Fits(x: set<nat>, y: set<nat>)
    requires x <= y
    ensures |x| <= |y|
    decreases x
  {
    if x != {} {
      var k :| k in x;
      Fits(x - {k}, y - {k});
    }
  }

  lemma ListingDistinct(s: seq<nat>, ids: set<nat>, before: (nat, nat) -> bool)
    requires Strict(ids, before) && Listing(s, ids, before)
    ensures forall i, j :: 0 <= i < j < |s| ==> s[i] != s[j]
    ensures |s| == |ids|
  {
    forall i, j | 0 <= i < j < |s| ensures s[i] != s[j] {
      assert s[i] in ids && before(s[i], s[j]);
    }
    MembersCount(s);
    assert Members(s) == ids;
  }

  /** An order lists its rows in one way only. */
  lemma {:induction false} ListingUnique(s: seq<nat>, u: seq<nat>, ids: set<nat>, before: (nat, nat) -> bool)
    requires Strict(ids, before) && Listing(s, ids, before) && Listing(u, ids, before)
    ensures s == u
    decreases |s|
  {
    ListingEmpty(s, ids, before);
    ListingEmpty(u, ids, before);
    if ids != {} {
      FirstIsFirst(s, u, ids, before);
      FirstIsFirst(u, s, ids, before);
      assert s[0] in ids && u[0] in ids;
      assert s[0] == u[0];
      TailLists(s, ids, before);
      TailLists(u, ids, before);
      ListingUnique(s[1..], u[1..], ids - {s[0]}, before);
      assert s == [s[0]] + s[1..] && u == [u[0]] + u[1..];
    }
  }

  lemma ListingEmpty(s: seq<nat>, ids: set<nat>, before: (nat, nat) -> bool)
    requires Listing(s, ids, before)
    ensures s == [] <==> ids == {}
  {
    if s != [] {
      assert s[0] in s;
    }
  }

  lemma FirstIsFirst(s: seq<nat>, u: seq<nat>, ids: set<nat>, before: (nat, nat) -> bool)
    requires Listing(s, ids, before) && Listing(u, ids, before) && s != [] && u != []
    ensures s[0] == u[0] || before(s[0], u[0])
  {
    assert u[0] in ids;
    var k :| 0 <= k < |s| && s[k] == u[0];
  }

  lemma TailLists(s: seq<nat>, ids: set<nat>, before: (nat, nat) -> bool)
    requires Strict(ids, before) && Listing(s, ids, before) && s != []
    ensures Strict(ids - {s[0]}, before) && Listing(s[1..], ids - {s[0]}, before)
  {
    ListingDistinct(s, ids, before);
    forall x ensures x in s[1..] <==> x in ids - {s[0]} {
      if x in s[1..] {
        var k :| 0 <= k < |s| - 1 && s[1..][k] == x;
        assert s[k + 1] == x && x in s;
      }
    }
  }

  /** Keeping only some rows keeps the order of the rest. */
  function Kept(s: seq<nat>, keep: set<nat>): (k: seq<nat>)
    ensures forall x :: x in k ==> x in s && x in keep
  {
    if s == [] then [] else Kept(s[..|s| - 1], keep) + if s[|s| - 1] in keep then [s[|s| - 1]] else []
  }

  lemma {:induction false} KeptLists(s: seq<nat>, keep: set<nat>, before: (nat, nat) -> bool)
    requires forall i, j :: 0 <= i < j < |s| ==> before(s[i], s[j])
    ensures forall i, j :: 0 <= i < j < |Kept(s, keep)| ==> before(Kept(s, keep)[i], Kept(s, keep)[j])
    ensures forall x :: x in s && x in keep ==> x in Kept(s, keep)
  {
    if s != [] {
      var (init, last) := (s[..|s| - 1], s[|s| - 1]);
      KeptLists(init, keep, before);
      forall i | 0 <= i < |Kept(init, keep)| ensures before(Kept(init, keep)[i], last) {
        assert Kept(init, keep)[i] in init;
      }
    }
  }

  /** An index in this order, read with a filter, is the filtered rows sorted. */
  lemma FilteredWalk(s: seq<nat>, ids: set<nat>, keep: set<nat>, before: (nat, nat) -> bool)
    requires Listing(s, ids, before) && keep <= ids
    ensures Listing(Kept(s, keep), keep, before)
  {
    KeptLists(s, keep, before);
  }

  /** Insertion sort of a result set. */
  method Sort(ids: set<nat>, before: (nat, nat) -> bool) returns (s: seq<nat>)
    requires Strict(ids, before)
    ensures Listing(s, ids, before) && |s| == |ids|
  {
    s := [];
    var left := ids;
    while left != {}
      invariant left <= ids && Listing(s, ids - left, before)
    {
      var x :| x in left;
      var at := 0;
      while at < |s| && before(s[at], x)
        invariant at <= |s|
        invariant forall k :: 0 <= k < at ==> before(s[k], x)
      {
        at := at + 1;
      }
      InsertLists(s, ids - left, ids, x, at, before);
      s := s[..at] + [x] + s[at..];
      left := left - {x};
      assert ids - left == ids - (left + {x}) + {x};
    }
    assert ids - left == ids;
    ListingDistinct(s, ids, before);
  }

  lemma InsertLists(s: seq<nat>, some: set<nat>, ids: set<nat>, x: nat, at: nat, before: (nat, nat) -> bool)
    requires Strict(ids, before) && some <= ids && Listing(s, some, before) && x in ids && x !in some && at <= |s|
    requires forall k :: 0 <= k < at ==> before(s[k], x)
    requires at < |s| ==> !before(s[at], x)
    ensures Listing(s[..at] + [x] + s[at..], some + {x}, before)
  {
    var r := s[..at] + [x] + s[at..];
    forall k | at <= k < |s| ensures before(x, s[k]) {
      assert s[at] in some && s[k] in some;
      assert before(x, s[at]);
    }
    InsertInOrder(s, x, at, before);
    InsertMembers(s, x, at);
  }

  lemma InsertInOrder(s: seq<nat>, x: nat, at: nat, before: (nat, nat) -> bool)
    requires at <= |s| && forall i, j :: 0 <= i < j < |s| ==> before(s[i], s[j])
    requires forall k :: 0 <= k < at ==> before(s[k], x)
    requires forall k :: at <= k < |s| ==> before(x, s[k])
    ensures var r := s[..at] + [x] + s[at..]; forall i, j :: 0 <= i < j < |r| ==> before(r[i], r[j])
  {
    var r := s[..at] + [x] + s[at..];
    forall i, j | 0 <= i < j < |r| ensures before(r[i], r[j]) {
      assert r[i] == if i < at then s[i] else if i == at then x else s[i - 1];
      assert r[j] == if j < at then s[j] else if j == at then x else s[j - 1];
    }
  }

  lemma InsertMembers(s: seq<nat>, x: nat, at: nat)
    requires at <= |s|
    ensures var r := s[..at] + [x] + s[at..]; forall y :: y in r <==> y in s || y == x
  {
    assert s == s[..at] + s[at..];
  }

  lemma {:induction false} ListingExists(ids: set<nat>, before: (nat, nat) -> bool) returns (s: seq<nat>)
    requires Strict(ids, before)
    ensures Listing(s, ids, before) && |s| == |ids|
    decreases ids
  {
    if ids == {} {
      s := [];
    } else {
      var x :| x in ids;
      var r := ListingExists(ids - {x}, before);
      var at := 0;
      while at < |r| && before(r[at], x)
        invariant at <= |r| && forall k :: 0 <= k < at ==> before(r[k], x)
      {
        at := at + 1;
      }
      InsertLists(r, ids - {x}, ids, x, at, before);
      s := r[..at] + [x] + r[at..];
      assert ids - {x} + {x} == ids;
    }
    ListingDistinct(s, ids, before);
  }

  /** Cutting off the end of a listing leaves as many rows as stand before the cut. */
  lemma FirstPart(s: seq<nat>, ids: set<nat>, before: (nat, nat) -> bool, k: nat)
    requires Strict(ids, before) && Listing(s, ids, before) && k <= |s|
    ensures |ids - Members(s[k..])| == k && |s| == |ids|
  {
    ListingDistinct(s, ids, before);
    MembersCount(s[..k]);
    forall x ensures x in Members(s[..k]) <==> x in ids - Members(s[k..]) {
      if x in s {
        var i :| 0 <= i < |s| && s[i] == x;
        assert i < k ==> s[..k][i] == x;
        assert i >= k ==> s[k..][i - k] == x;
      }
    }
    assert Members(s[..k]) == ids - Members(s[k..]);
  }

  lemma ListingIsThere(ids: set<nat>, before: (nat, nat) -> bool)
    requires Strict(ids, before)
    ensures exists s :: Listing(s, ids, before)
  {
    var s := ListingExists(ids, before);
  }

  /** The one listing of these rows. */
  ghost function Sorted(ids: set<nat>, before: (nat, nat) -> bool): (s: seq<nat>)
    requires Strict(ids, before)
    ensures Listing(s, ids, before)
  {
    ListingIsThere(ids, before);
    var s :| Listing(s, ids, before);
    s
  }
}
