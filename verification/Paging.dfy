/** Keyset pagination, as the inspector and the failure log do it: a page is the
    first rows of an ordered query, and the cursor of the next page is the time
    and the id of the first row left out. */
module Paging {
  import opened GoInt
  import opened Jobs
  import opened Cursor

  datatype Entry = Entry(time: nat, id: nat)

  /** The four listings: jobs by next try in both directions, failures by
      creation of the job, and failures by recency. */
  datatype Kind = InspectAsc | InspectDesc | ByCreation | ByRecency

  /** The ORDER BY of each listing. */
  predicate Before(k: Kind, a: Entry, b: Entry) {
    match k
    case InspectAsc => a.time < b.time || (a.time == b.time && a.id < b.id)
    case ByRecency => a.id > b.id
    case _ => a.time > b.time || (a.time == b.time && a.id > b.id)
  }

  /** The part of the WHERE clause that a cursor provides. */
  predicate Matches(k: Kind, t: int, id: nat, e: Entry) {
    match k
    case InspectAsc => e.time >= t && e.id >= id
    case InspectDesc => e.time <= t && e.id <= id
    case ByCreation => e.time <= t && (e.time != t || e.id <= id)
    case ByRecency => e.id <= id
  }

  /** What a cursor at `c` demands of a row beyond not being before `c`: the
      inspector bounds the id independently of the time. */
  predicate InBound(k: Kind, c: Entry, x: Entry) {
    match k
    case InspectAsc => x.id >= c.id
    case InspectDesc => x.id <= c.id
    case _ => true
  }

  lemma MatchesIff(k: Kind, c: Entry, x: Entry)
    ensures Matches(k, c.time, c.id, x) <==> !Before(k, x, c) && InBound(k, c, x)
  {
  }

  // ---------- Ordered listings ----------

  ghost predicate UniqueIds(s: set<Entry>) {
    forall a, b | a in s && b in s && a.id == b.id :: a == b
  }

  ghost predicate Sorted(k: Kind, f: seq<Entry>) {
    forall i, j | 0 <= i < j < |f| :: Before(k, f[i], f[j])
  }

  function Members(f: seq<Entry>): set<Entry> {
    set e | e in f
  }

  ghost predicate IsFirst(k: Kind, s: set<Entry>, e: Entry) {
    e in s && forall x | x in s && x != e :: Before(k, e, x)
  }

  lemma {:induction false} FirstExists(k: Kind, s: set<Entry>)
    requires s != {} && UniqueIds(s)
    ensures exists e :: IsFirst(k, s, e)
    decreases |s|
  {
    var x :| x in s;
    var rest := s - {x};
    assert forall y | y in s :: y == x || y in rest;
    if rest == {} {
      assert IsFirst(k, s, x);
    } else {
      FirstExists(k, rest);
      var e :| IsFirst(k, rest, e);
      assert x.id != e.id;
      if Before(k, x, e) {
        assert forall y | y in rest && y != e :: Before(k, e, y);
        assert IsFirst(k, s, x);
      } else {
        assert IsFirst(k, s, e);
      }
    }
  }

  ghost function First(k: Kind, s: set<Entry>): (e: Entry)
    requires s != {} && UniqueIds(s)
    ensures IsFirst(k, s, e)
  {
    FirstExists(k, s);
    var e :| IsFirst(k, s, e);
    e
  }

  /** The rows of a query in its order. */
  ghost function Listing(k: Kind, s: set<Entry>): seq<Entry>
    requires UniqueIds(s)
    decreases |s|
  {
    if s == {} then [] else [First(k, s)] + Listing(k, s - {First(k, s)})
  }

  lemma {:induction false} ListingIs(k: Kind, s: set<Entry>)
    requires UniqueIds(s)
    ensures Sorted(k, Listing(k, s)) && Members(Listing(k, s)) == s && |Listing(k, s)| == |s|
    decreases |s|
  {
    if s != {} {
      var e := First(k, s);
      var rest := Listing(k, s - {e});
      ListingIs(k, s - {e});
      FirstThenRest(k, s, e, rest);
    }
  }

  lemma FirstThenRest(k: Kind, s: set<Entry>, e: Entry, rest: seq<Entry>)
    requires IsFirst(k, s, e) && Sorted(k, rest) && Members(rest) == s - {e}
    ensures Sorted(k, [e] + rest) && Members([e] + rest) == s
  {
    assert forall x | x in rest :: x in Members(rest);
    ConcatSorted(k, [e], rest);
    assert Members([e] + rest) == {e} + Members(rest);
  }

  lemma ConcatSorted(k: Kind, a: seq<Entry>, b: seq<Entry>)
    requires Sorted(k, a) && Sorted(k, b)
    requires forall x, y | x in a && y in b :: Before(k, x, y)
    ensures Sorted(k, a + b)
  {
    forall i, j | 0 <= i < j < |a + b| ensures Before(k, (a + b)[i], (a + b)[j]) {
      if i < |a| <= j {
        assert a[i] in a && b[j - |a|] in b;
      }
    }
  }

  lemma HeadIsMember(f: seq<Entry>)
    requires f != []
    ensures f[0] in Members(f)
  {
  }

  /** There is only one way to order a set of rows. */
  lemma {:induction false} SortedIsUnique(k: Kind, f: seq<Entry>, g: seq<Entry>)
    requires Sorted(k, f) && Sorted(k, g) && Members(f) == Members(g)
    ensures f == g
    decreases |f|
  {
    if f == [] {
      if g != [] { HeadIsMember(g); }
    } else {
      HeadIsMember(f);
      HeadIsMember(g);
      assert f[0] == g[0];
      assert Members(f[1..]) == Members(f) - {f[0]};
      assert Members(g[1..]) == Members(g) - {g[0]};
      SortedIsUnique(k, f[1..], g[1..]);
      assert f == [f[0]] + f[1..] && g == [g[0]] + g[1..];
    }
  }

  // ---------- Walking the pages of a fixed listing ----------

  function Filter(k: Kind, c: Entry, f: seq<Entry>): seq<Entry>
    decreases |f|
  {
    if f == [] then []
    else (if InBound(k, c, f[0]) then [f[0]] else []) + Filter(k, c, f[1..])
  }

  /** The listing that the cursor after the first page of `f` stands for. */
  function Rest(k: Kind, f: seq<Entry>, limit: nat): seq<Entry>
    requires limit < |f|
  {
    Filter(k, f[limit], f[limit..])
  }

  lemma {:induction false} FilterShrinks(k: Kind, c: Entry, f: seq<Entry>)
    ensures |Filter(k, c, f)| <= |f|
    ensures forall e :: e in Filter(k, c, f) <==> e in f && InBound(k, c, e)
    decreases |f|
  {
    if f != [] {
      FilterShrinks(k, c, f[1..]);
      assert f == [f[0]] + f[1..];
    }
  }

  lemma {:induction false} FilterKeepsOrder(k: Kind, c: Entry, f: seq<Entry>)
    requires Sorted(k, f)
    ensures Sorted(k, Filter(k, c, f))
    decreases |f|
  {
    if f != [] {
      FilterKeepsOrder(k, c, f[1..]);
      FilterShrinks(k, c, f[1..]);
      assert forall e | e in f[1..] :: Before(k, f[0], e);
    }
  }

  lemma {:induction false} FilterAll(k: Kind, c: Entry, f: seq<Entry>)
    ensures Filter(k, c, f) == f <==> forall e | e in f :: InBound(k, c, e)
    decreases |f|
  {
    if f != [] {
      FilterAll(k, c, f[1..]);
      FilterShrinks(k, c, f[1..]);
      assert f == [f[0]] + f[1..];
    }
  }

  /** Everything a client sees when it follows the cursors to the end. */
  function Walk(k: Kind, f: seq<Entry>, limit: nat): seq<Entry>
    requires limit >= 1
    decreases |f|
  {
    if |f| <= limit then f
    else
      FilterShrinks(k, f[limit], f[limit..]);
      f[..limit] + Walk(k, Rest(k, f, limit), limit)
  }

  /** The rows at which the pages after the first one start. */
  function Boundaries(k: Kind, f: seq<Entry>, limit: nat): seq<Entry>
    requires limit >= 1
    decreases |f|
  {
    if |f| <= limit then []
    else
      FilterShrinks(k, f[limit], f[limit..]);
      [f[limit]] + Boundaries(k, Rest(k, f, limit), limit)
  }

  lemma {:induction false} WalkMembers(k: Kind, f: seq<Entry>, limit: nat)
    requires limit >= 1
    ensures forall e | e in Walk(k, f, limit) :: e in f
    ensures forall c | c in Boundaries(k, f, limit) :: c in f[if limit < |f| then limit else |f|..]
    decreases |f|
  {
    if |f| > limit {
      var rest := Rest(k, f, limit);
      FilterShrinks(k, f[limit], f[limit..]);
      WalkMembers(k, rest, limit);
      assert forall e | e in rest :: e in f[limit..];
    }
  }

  /** Following the cursors never repeats a row and never breaks the order. */
  lemma {:induction false} WalkIsSorted(k: Kind, f: seq<Entry>, limit: nat)
    requires limit >= 1 && Sorted(k, f)
    ensures Sorted(k, Walk(k, f, limit))
    decreases |f|
  {
    if |f| > limit {
      var rest := Rest(k, f, limit);
      FilterShrinks(k, f[limit], f[limit..]);
      FilterKeepsOrder(k, f[limit], f[limit..]);
      WalkIsSorted(k, rest, limit);
      WalkMembers(k, rest, limit);
      assert forall e | e in Walk(k, rest, limit) :: e in f[limit..];
      forall x, y | x in f[..limit] && y in f[limit..] ensures Before(k, x, y) {
        var i :| 0 <= i < limit && f[i] == x;
        var j :| limit <= j < |f| && f[j] == y;
      }
      ConcatSorted(k, f[..limit], Walk(k, rest, limit));
    }
  }

  /** A row is missed exactly when a page starts before it at a row whose id
      excludes it. */
  lemma {:induction false} MissedIff(k: Kind, f: seq<Entry>, limit: nat, x: Entry)
    requires limit >= 1 && Sorted(k, f) && x in f
    ensures x in Walk(k, f, limit) <==>
            forall c | c in Boundaries(k, f, limit) :: Before(k, c, x) ==> InBound(k, c, x)
    decreases |f|
  {
    if |f| > limit {
      var c := f[limit];
      var rest := Rest(k, f, limit);
      FilterShrinks(k, c, f[limit..]);
      FilterKeepsOrder(k, c, f[limit..]);
      WalkMembers(k, rest, limit);
      WalkMembers(k, f, limit);
      if x in f[..limit] {
        FrontIsBefore(k, f, limit, x);
      } else {
        assert x in f[limit..];
        if InBound(k, c, x) {
          MissedIff(k, rest, limit, x);
        } else {
          assert c in Boundaries(k, f, limit);
        }
      }
    }
  }

  lemma FrontIsBefore(k: Kind, f: seq<Entry>, limit: nat, x: Entry)
    requires limit < |f| && Sorted(k, f) && x in f[..limit]
    ensures forall c | c in f[limit..] :: !Before(k, c, x)
  {
    var i :| 0 <= i < limit && f[i] == x;
    forall c | c in f[limit..] ensures !Before(k, c, x) {
      var j :| limit <= j < |f| && f[j] == c;
      assert Before(k, f[i], f[j]);
    }
  }

  /** At every page start of the full listing, the ids of all later rows are
      within the bound of that row. */
  predicate NoCut(k: Kind, f: seq<Entry>, limit: nat)
    requires limit >= 1
    decreases |f|
  {
    |f| <= limit ||
    ((forall e | e in f[limit..] :: InBound(k, f[limit], e)) && NoCut(k, f[limit..], limit))
  }

  /** The pages give the whole listing exactly when no page start cuts off a
      later row. */
  lemma {:induction false} CompleteIff(k: Kind, f: seq<Entry>, limit: nat)
    requires limit >= 1
    ensures Walk(k, f, limit) == f <==> NoCut(k, f, limit)
    ensures |Walk(k, f, limit)| <= |f|
    decreases |f|
  {
    if |f| > limit {
      var rest := Rest(k, f, limit);
      FilterShrinks(k, f[limit], f[limit..]);
      FilterAll(k, f[limit], f[limit..]);
      CompleteIff(k, rest, limit);
      assert f == f[..limit] + f[limit..];
      if Walk(k, f, limit) == f {
        assert Walk(k, rest, limit) == f[limit..];
        assert |rest| == |f[limit..]|;
        FilterFull(k, f[limit], f[limit..]);
      }
    }
  }

  lemma {:induction false} FilterFull(k: Kind, c: Entry, f: seq<Entry>)
    requires |Filter(k, c, f)| == |f|
    ensures Filter(k, c, f) == f
    decreases |f|
  {
    if f != [] {
      FilterShrinks(k, c, f[1..]);
      FilterFull(k, c, f[1..]);
      assert f == [f[0]] + f[1..];
    }
  }

  /** With the lexicographic clause of the failure log every listing is complete. */
  lemma {:induction false} LexicographicIsComplete(k: Kind, f: seq<Entry>, limit: nat)
    requires limit >= 1 && (k.ByCreation? || k.ByRecency?)
    ensures NoCut(k, f, limit)
    decreases |f|
  {
    if |f| > limit {
      LexicographicIsComplete(k, f[limit..], limit);
    }
  }

  /** The inspector lists everything whenever ids and times agree in order. */
  lemma {:induction false} AgreeingIsComplete(k: Kind, f: seq<Entry>, limit: nat)
    requires limit >= 1
    requires forall i, j | 0 <= i <= j < |f| :: InBound(k, f[i], f[j])
    ensures NoCut(k, f, limit)
    decreases |f|
  {
    if |f| > limit {
      var g := f[limit..];
      assert forall i, j | 0 <= i <= j < |g| :: g[i] == f[limit + i] && g[j] == f[limit + j];
      AgreeingIsComplete(k, g, limit);
      assert forall e | e in g :: InBound(k, f[limit], e);
    }
  }

  /** A retried job can be missed: it has a small id and a late next try, so the
      page that starts with it drops newer jobs that are due earlier. */
  lemma RetriedJobHidesOthers()
    ensures var f := [Entry(30, 9), Entry(20, 1), Entry(10, 4)];
            && Sorted(InspectDesc, f)
            && Walk(InspectDesc, f, 1) == [Entry(30, 9), Entry(20, 1)]
  {
    var f := [Entry(30, 9), Entry(20, 1), Entry(10, 4)];
    var g := [Entry(20, 1), Entry(10, 4)];
    assert f[1..] == g && g[1..] == [Entry(10, 4)];
    assert Filter(InspectDesc, Entry(20, 1), [Entry(10, 4)]) == [];
    assert Filter(InspectDesc, Entry(20, 1), g) == [Entry(20, 1)];
    assert Walk(InspectDesc, [Entry(20, 1)], 1) == [Entry(20, 1)];
  }

  // ---------- Following the cursors over a fixed table ----------

  ghost predicate InRange(s: set<Entry>) {
    forall e | e in s :: e.time <= MAX_MILLIS && e.id < TWO_63
  }

  function InitialId(k: Kind): nat {
    if k.InspectAsc? then 0 else MAX_UINT64
  }

  /** The bounds of a request: those of its cursor, if it has a readable one. */
  function Bound(k: Kind, t0: int, cursor: seq<Byte>): (int, nat) {
    match DecodeCursor(cursor)
    case None => (t0, InitialId(k))
    case Some(b) => b
  }

  ghost function Matching(k: Kind, s: set<Entry>, b: (int, nat)): set<Entry> {
    set e | e in s && Matches(k, b.0, b.1, e)
  }

  /** All rows that a request selects, in order, before LIMIT. */
  ghost function Query(k: Kind, s: set<Entry>, b: (int, nat)): seq<Entry>
    requires UniqueIds(s)
  {
    Listing(k, Matching(k, s, b))
  }

  /** The query of the next page selects what the current one left out, less
      what the id of its first row excludes. */
  lemma NextQuery(k: Kind, s: set<Entry>, b: (int, nat), limit: nat)
    requires UniqueIds(s) && limit < |Query(k, s, b)|
    ensures var f := Query(k, s, b);
            Query(k, s, (f[limit].time, f[limit].id)) == Rest(k, f, limit)
  {
    var f := Query(k, s, b);
    var c := f[limit];
    ListingIs(k, Matching(k, s, b));
    ListingIs(k, Matching(k, s, (c.time, c.id)));
    FilterKeepsOrder(k, c, f[limit..]);
    RestIsNext(k, s, b, limit);
    SortedIsUnique(k, Rest(k, f, limit), Query(k, s, (c.time, c.id)));
  }

  lemma RestIsNext(k: Kind, s: set<Entry>, b: (int, nat), limit: nat)
    requires UniqueIds(s) && limit < |Query(k, s, b)|
    ensures var f := Query(k, s, b);
            Members(Rest(k, f, limit)) == Matching(k, s, (f[limit].time, f[limit].id))
  {
    var f := Query(k, s, b);
    FilterShrinks(k, f[limit], f[limit..]);
    forall e ensures e in Rest(k, f, limit) <==> e in Matching(k, s, (f[limit].time, f[limit].id)) {
      NextMembers(k, s, b, limit, e);
    }
  }

  lemma NextMembers(k: Kind, s: set<Entry>, b: (int, nat), limit: nat, e: Entry)
    requires UniqueIds(s) && limit < |Query(k, s, b)|
    ensures var f := Query(k, s, b);
            e in f[limit..] && InBound(k, f[limit], e) <==> e in Matching(k, s, (f[limit].time, f[limit].id))
  {
    var f := Query(k, s, b);
    var c := f[limit];
    ListingIs(k, Matching(k, s, b));
    assert c in Members(f);
    MatchesIff(k, c, e);
    if e in f[limit..] {
      assert e in Members(f);
      var j :| limit <= j < |f| && f[j] == e;
      assert j == limit || Before(k, c, f[j]);
    }
    if e in Matching(k, s, (c.time, c.id)) {
      assert e in Members(f);
      var j :| 0 <= j < |f| && f[j] == e;
      assert j < limit ==> Before(k, f[j], c);
    }
  }

  /** What a client gets by following the cursors that the pages return. */
  ghost function Follow(k: Kind, s: set<Entry>, t0: int, limit: nat, cursor: seq<Byte>): seq<Entry>
    requires UniqueIds(s) && InRange(s) && limit >= 1
    decreases |Query(k, s, Bound(k, t0, cursor))|
  {
    var f := Query(k, s, Bound(k, t0, cursor));
    if |f| <= limit then f
    else
      NextPage(k, s, t0, limit, cursor);
      f[..limit] + Follow(k, s, t0, limit, EncodeCursor(f[limit].time, f[limit].id))
  }

  lemma NextPage(k: Kind, s: set<Entry>, t0: int, limit: nat, cursor: seq<Byte>)
    requires UniqueIds(s) && InRange(s) && limit >= 1
    requires |Query(k, s, Bound(k, t0, cursor))| > limit
    ensures var f := Query(k, s, Bound(k, t0, cursor));
            && Query(k, s, Bound(k, t0, EncodeCursor(f[limit].time, f[limit].id))) == Rest(k, f, limit)
            && |Rest(k, f, limit)| < |f|
  {
    var b := Bound(k, t0, cursor);
    var f := Query(k, s, b);
    ListingIs(k, Matching(k, s, b));
    assert f[limit] in Members(f);
    CursorRoundTrip(f[limit].time, f[limit].id);
    NextQuery(k, s, b, limit);
    FilterShrinks(k, f[limit], f[limit..]);
  }

  lemma {:induction false} FollowIsWalk(k: Kind, s: set<Entry>, t0: int, limit: nat, cursor: seq<Byte>)
    requires UniqueIds(s) && InRange(s) && limit >= 1
    ensures Follow(k, s, t0, limit, cursor) == Walk(k, Query(k, s, Bound(k, t0, cursor)), limit)
    decreases |Query(k, s, Bound(k, t0, cursor))|
  {
    var f := Query(k, s, Bound(k, t0, cursor));
    if |f| > limit {
      NextPage(k, s, t0, limit, cursor);
      FollowIsWalk(k, s, t0, limit, EncodeCursor(f[limit].time, f[limit].id));
    }
  }

  /** Failure log: the pages are the whole log in order, each failure once. */
  lemma FailureLogIsComplete(k: Kind, s: set<Entry>, limit: nat)
    requires (k.ByCreation? || k.ByRecency?) && UniqueIds(s) && InRange(s) && limit >= 1
    ensures Follow(k, s, MAX_INT64, limit, []) == Listing(k, s)
  {
    EmptyCursor();
    FollowIsWalk(k, s, MAX_INT64, limit, []);
    assert Matching(k, s, (MAX_INT64, InitialId(k))) == s;
    var f := Listing(k, s);
    LexicographicIsComplete(k, f, limit);
    CompleteIff(k, f, limit);
  }

  /** Inspector: the pages keep the order and repeat nothing, and they are the
      whole listing exactly when no page start cuts off a later row. */
  lemma InspectorPages(k: Kind, s: set<Entry>, t0: int, limit: nat)
    requires (k.InspectAsc? || k.InspectDesc?) && UniqueIds(s) && InRange(s) && limit >= 1
    ensures var f := Query(k, s, (t0, InitialId(k)));
            && Sorted(k, Follow(k, s, t0, limit, []))
            && (forall e | e in Follow(k, s, t0, limit, []) :: e in f)
            && (Follow(k, s, t0, limit, []) == f <==> NoCut(k, f, limit))
            && (forall x | x in f :: x in Follow(k, s, t0, limit, []) <==>
                  forall c | c in Boundaries(k, f, limit) :: Before(k, c, x) ==> InBound(k, c, x))
  {
    EmptyCursor();
    FollowIsWalk(k, s, t0, limit, []);
    var f := Query(k, s, (t0, InitialId(k)));
    ListingIs(k, Matching(k, s, (t0, InitialId(k))));
    WalkIsSorted(k, f, limit);
    WalkMembers(k, f, limit);
    CompleteIff(k, f, limit);
    forall x | x in f
      ensures x in Walk(k, f, limit) <==>
              forall c | c in Boundaries(k, f, limit) :: Before(k, c, x) ==> InBound(k, c, x)
    {
      MissedIff(k, f, limit, x);
    }
  }

  /** An id of 64 bits breaks the chain: its cursor is not readable, and the
      next request starts over with the first page. */
  lemma LargeIdStartsOver(k: Kind, t0: int, e: Entry)
    requires e.time <= MAX_MILLIS
    ensures Bound(k, t0, EncodeCursor(e.time, e.id)) == (e.time, e.id) <==>
            e.id < TWO_63 || (e.time, e.id) == (t0, InitialId(k))
    ensures e.id >= TWO_63 ==> Bound(k, t0, EncodeCursor(e.time, e.id)) == Bound(k, t0, [])
  {
    EmptyCursor();
    CursorRoundTrip(e.time, e.id);
  }
}
