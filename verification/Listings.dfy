/** The listing code of the inspector and of the failure log: the loops around
    the queries, the sort done outside the database, and the cursors. */
module Listings {
  import opened GoInt
  import opened Jobs
  import opened Store
  import opened Cursor
  import opened Paging
  import Cluster
  import Exclusive
  import Sorting

  /** The first `n` rows of the answer of a query. */
  ghost function Limited(f: seq<Entry>, n: nat): seq<Entry> {
    if |f| <= n then f else f[..n]
  }

  ghost function NextCursor(f: seq<Entry>, limit: nat): seq<Byte> {
    if |f| > limit then EncodeCursor(f[limit].time, f[limit].id) else []
  }

  /** An ordered query with LIMIT: repeatedly the first row not yet taken. */
  method RunQuery(k: Kind, rows: set<Entry>, n: nat) returns (f: seq<Entry>)
    requires UniqueIds(rows)
    ensures f == Limited(Listing(k, rows), n)
  {
    f := [];
    var rest := rows;
    while |f| < n && rest != {}
      invariant rest <= rows && |f| <= n
      invariant Listing(k, rows) == f + Listing(k, rest)
      decreases |rest|
    {
      var e := FirstOf(k, rest);
      TakeFirst(k, rows, rest, f, e);
      f := f + [e];
      rest := rest - {e};
    }
    PrefixIsLimited(f, Listing(k, rest), n);
  }

  lemma PrefixIsLimited(f: seq<Entry>, rest: seq<Entry>, n: nat)
    requires |f| <= n && (|f| < n ==> rest == [])
    ensures f == Limited(f + rest, n)
  {
  }

  lemma TakeFirst(k: Kind, rows: set<Entry>, rest: set<Entry>, f: seq<Entry>, e: Entry)
    requires UniqueIds(rows) && rest <= rows && IsFirst(k, rest, e)
    requires Listing(k, rows) == f + Listing(k, rest)
    ensures Listing(k, rows) == f + [e] + Listing(k, rest - {e})
  {
    assert e == First(k, rest);
    assert f + ([e] + Listing(k, rest - {e})) == f + [e] + Listing(k, rest - {e});
  }

  method FirstOf(k: Kind, s: set<Entry>) returns (first: Entry)
    requires s != {} && UniqueIds(s)
    ensures IsFirst(k, s, first)
  {
    first :| first in s;
    var rest := s - {first};
    while rest != {}
      invariant first in s && rest <= s && first !in rest
      invariant forall x | x in s && x !in rest && x != first :: Before(k, first, x)
      decreases |rest|
    {
      var x :| x in rest;
      if Before(k, x, first) {
        first := x;
      }
      rest := rest - {x};
    }
  }

  // ---------- The failure log ----------

  datatype Failure = Failure(jobId: nat, failCount: nat, createdAt: nat)

  datatype FailedJob = FailedJob(id: nat, failure: Failure)

  function FailureEntries(log: map<nat, Failure>): set<Entry> {
    set id | id in log :: Entry(log[id].createdAt, id)
  }

  lemma FailureIdsAreUnique(log: map<nat, Failure>)
    ensures UniqueIds(FailureEntries(log))
  {
  }

  method FindFailures(k: Kind, log: map<nat, Failure>, limit: nat, cursor: seq<Byte>)
      returns (page: seq<FailedJob>, next: seq<Byte>)
    requires k.ByCreation? || k.ByRecency?
    requires InRange(FailureEntries(log))
    ensures UniqueIds(FailureEntries(log))
    ensures var f := Query(k, FailureEntries(log), Bound(k, MAX_INT64, cursor));
            ShowsFailures(log, Limited(f, limit), page) && next == NextCursor(f, limit)
    ensures FailuresInOrder(k, log, page)
    ensures cursor == [] ==> forall id | id in log :: FailedJob(id, log[id]) in page || |page| == limit
  {
    FailureIdsAreUnique(log);
    var maxTime, maxId := MAX_INT64, MAX_UINT64;
    match DecodeCursor(cursor) {
      case Some((t, j)) => maxTime, maxId := t, j;
      case None =>
    }
    page, next := FailuresFrom(k, log, limit, maxTime, maxId);
    FailurePage(k, log, Bound(k, MAX_INT64, cursor), limit, page);
    if cursor == [] { FirstFailures(k, log, limit, page); }
  }

  method FailuresFrom(k: Kind, log: map<nat, Failure>, limit: nat, maxTime: int, maxId: nat)
      returns (page: seq<FailedJob>, next: seq<Byte>)
    requires UniqueIds(FailureEntries(log)) && InRange(FailureEntries(log))
    ensures var f := Query(k, FailureEntries(log), (maxTime, maxId));
            ShowsFailures(log, Limited(f, limit), page) && next == NextCursor(f, limit)
  {
    var rows := QueryFailures(k, log, maxTime, maxId, limit + 1);
    page := ScanFailures(log, rows);
    next := [];
    if |page| > limit {
      TimeRoundTrip(page[limit].failure.createdAt);
      next := EncodeCursor(MillisOf(page[limit].failure.createdAt), page[limit].id);
      page := page[..limit];
    }
  }

  /** The failures are entries of the log, each at most once, the latest first: by
      the creation of the job, or by the entry itself. */
  ghost predicate FailuresInOrder(k: Kind, log: map<nat, Failure>, page: seq<FailedJob>) {
    && (forall j | j in page :: j.id in log && j.failure == log[j.id])
    && (forall i, j | 0 <= i < j < |page| ::
          if k.ByRecency? then page[i].id > page[j].id
          else page[i].failure.createdAt > page[j].failure.createdAt
               || (page[i].failure.createdAt == page[j].failure.createdAt && page[i].id > page[j].id))
  }

  lemma ShownInOrder(k: Kind, log: map<nat, Failure>, f: seq<Entry>, page: seq<FailedJob>)
    requires (k.ByCreation? || k.ByRecency?) && Sorted(k, f) && ShowsFailures(log, f, page)
    requires forall e | e in f :: e in FailureEntries(log)
    ensures FailuresInOrder(k, log, page)
  {
    forall i | 0 <= i < |f| ensures f[i].id in log && f[i].time == log[f[i].id].createdAt {
      assert f[i] in f;
    }
    forall i, j | 0 <= i < j < |page|
      ensures if k.ByRecency? then page[i].id > page[j].id
              else page[i].failure.createdAt > page[j].failure.createdAt
                   || (page[i].failure.createdAt == page[j].failure.createdAt && page[i].id > page[j].id)
    {
      assert Before(k, f[i], f[j]);
    }
  }

  lemma FailurePage(k: Kind, log: map<nat, Failure>, b: (int, nat), limit: nat, page: seq<FailedJob>)
    requires (k.ByCreation? || k.ByRecency?) && UniqueIds(FailureEntries(log))
    requires ShowsFailures(log, Limited(Query(k, FailureEntries(log), b), limit), page)
    ensures FailuresInOrder(k, log, page)
  {
    var f := Query(k, FailureEntries(log), b);
    ListingIs(k, Matching(k, FailureEntries(log), b));
    forall e | e in Limited(f, limit) ensures e in FailureEntries(log) {
      assert e in Members(f);
    }
    ShownInOrder(k, log, Limited(f, limit), page);
  }

  lemma FirstFailures(k: Kind, log: map<nat, Failure>, limit: nat, page: seq<FailedJob>)
    requires (k.ByCreation? || k.ByRecency?) && UniqueIds(FailureEntries(log)) && InRange(FailureEntries(log))
    requires ShowsFailures(log, Limited(Query(k, FailureEntries(log), Bound(k, MAX_INT64, [])), limit), page)
    ensures forall id | id in log :: FailedJob(id, log[id]) in page || |page| == limit
  {
    var b := Bound(k, MAX_INT64, []);
    var f := Query(k, FailureEntries(log), b);
    EmptyCursor();
    ListingIs(k, Matching(k, FailureEntries(log), b));
    forall id | id in log ensures FailedJob(id, log[id]) in page || |page| == limit {
      var e := Entry(log[id].createdAt, id);
      assert e in FailureEntries(log);
      assert e in Matching(k, FailureEntries(log), b);
      assert e in Members(f);
      var i :| 0 <= i < |f| && f[i] == e;
      if i < |page| { assert page[i] == FailedJob(id, log[id]); }
    }
  }

  /** `page` shows these rows of the failure log. */
  ghost predicate ShowsFailures(log: map<nat, Failure>, f: seq<Entry>, page: seq<FailedJob>) {
    && |page| == |f|
    && (forall i | 0 <= i < |f| :: f[i].id in log && page[i] == FailedJob(f[i].id, log[f[i].id]))
  }

  lemma ShowMoreFailures(log: map<nat, Failure>, f: seq<Entry>, page: seq<FailedJob>, g: seq<Entry>, more: seq<FailedJob>)
    requires ShowsFailures(log, f, page) && ShowsFailures(log, g, more)
    ensures ShowsFailures(log, f + g, page + more)
  {
  }

  /** The failure log as a client reads it, page by page until there is no next
      cursor: the whole log in order, each failure once. */
  method ListFailures(k: Kind, log: map<nat, Failure>, limit: nat) returns (all: seq<FailedJob>)
    requires (k.ByCreation? || k.ByRecency?) && limit >= 1
    requires InRange(FailureEntries(log))
    ensures UniqueIds(FailureEntries(log))
    ensures ShowsFailures(log, Listing(k, FailureEntries(log)), all)
    ensures FailuresInOrder(k, log, all) && forall id | id in log :: FailedJob(id, log[id]) in all
  {
    FailureIdsAreUnique(log);
    FailureLogIsComplete(k, FailureEntries(log), limit);
    ghost var seen: seq<Entry> := [];
    var cursor, more := [], true;
    all := [];
    while more
      invariant ShowsFailures(log, seen, all)
      invariant ToCome(k, FailureEntries(log), MAX_INT64, limit, cursor, more, seen)
             == Follow(k, FailureEntries(log), MAX_INT64, limit, [])
      decreases more, |Query(k, FailureEntries(log), Bound(k, MAX_INT64, cursor))|
    {
      var page, next := FindFailures(k, log, limit, cursor);
      ghost var f := Query(k, FailureEntries(log), Bound(k, MAX_INT64, cursor));
      ShowMoreFailures(log, seen, all, Limited(f, limit), page);
      FollowOnce(k, FailureEntries(log), MAX_INT64, limit, cursor, seen);
      seen := seen + Limited(f, limit);
      all := all + page;
      cursor, more := next, next != [];
    }
    WholeLog(k, log, all);
  }

  lemma WholeLog(k: Kind, log: map<nat, Failure>, all: seq<FailedJob>)
    requires (k.ByCreation? || k.ByRecency?) && UniqueIds(FailureEntries(log))
    requires ShowsFailures(log, Listing(k, FailureEntries(log)), all)
    ensures FailuresInOrder(k, log, all) && forall id | id in log :: FailedJob(id, log[id]) in all
  {
    var f := Listing(k, FailureEntries(log));
    ListingIs(k, FailureEntries(log));
    forall e | e in f ensures e in FailureEntries(log) { assert e in Members(f); }
    ShownInOrder(k, log, f, all);
    forall id | id in log ensures FailedJob(id, log[id]) in all {
      var e := Entry(log[id].createdAt, id);
      assert e in FailureEntries(log) && e in Members(f);
      var i :| 0 <= i < |f| && f[i] == e;
      assert all[i] == FailedJob(id, log[id]);
    }
  }

  /** What a client has seen, and what it will see by following the cursor. */
  ghost function ToCome(k: Kind, s: set<Entry>, t0: int, limit: nat, cursor: seq<Byte>, more: bool, seen: seq<Entry>)
      : seq<Entry>
    requires UniqueIds(s) && InRange(s) && limit >= 1
  {
    if more then seen + Follow(k, s, t0, limit, cursor) else seen
  }

  /** One page further along the cursors. */
  lemma FollowOnce(k: Kind, s: set<Entry>, t0: int, limit: nat, cursor: seq<Byte>, seen: seq<Entry>)
    requires UniqueIds(s) && InRange(s) && limit >= 1
    ensures var f := Query(k, s, Bound(k, t0, cursor)); var next := NextCursor(f, limit);
            && ToCome(k, s, t0, limit, next, next != [], seen + Limited(f, limit))
               == ToCome(k, s, t0, limit, cursor, true, seen)
            && (next != [] ==> |Query(k, s, Bound(k, t0, next))| < |f|)
  {
    var f := Query(k, s, Bound(k, t0, cursor));
    if |f| > limit {
      FollowMore(k, s, t0, limit, cursor);
      Associate(seen, f[..limit], Follow(k, s, t0, limit, NextCursor(f, limit)));
    }
  }

  lemma FollowMore(k: Kind, s: set<Entry>, t0: int, limit: nat, cursor: seq<Byte>)
    requires UniqueIds(s) && InRange(s) && limit >= 1 && |Query(k, s, Bound(k, t0, cursor))| > limit
    ensures var f := Query(k, s, Bound(k, t0, cursor)); var next := NextCursor(f, limit);
            && next != [] && |Query(k, s, Bound(k, t0, next))| < |f|
            && Follow(k, s, t0, limit, cursor) == f[..limit] + Follow(k, s, t0, limit, next)
  {
    var f := Query(k, s, Bound(k, t0, cursor));
    NextPage(k, s, t0, limit, cursor);
    ListingIs(k, Matching(k, s, Bound(k, t0, cursor)));
    assert f[limit] in Members(f);
    CursorRoundTrip(f[limit].time, f[limit].id);
  }

  lemma Associate(a: seq<Entry>, b: seq<Entry>, c: seq<Entry>)
    ensures a + (b + c) == a + b + c
  {
  }

  method ScanFailures(log: map<nat, Failure>, rows: seq<Entry>) returns (page: seq<FailedJob>)
    requires forall e | e in rows :: e.id in log
    ensures |page| == |rows|
    ensures forall i | 0 <= i < |rows| :: page[i] == FailedJob(rows[i].id, log[rows[i].id])
  {
    page := [];
    for n := 0 to |rows|
      invariant |page| == n
      invariant forall i | 0 <= i < n :: page[i] == FailedJob(rows[i].id, log[rows[i].id])
    {
      page := page + [FailedJob(rows[n].id, log[rows[n].id])];
    }
  }

  method QueryFailures(k: Kind, log: map<nat, Failure>, maxTime: int, maxId: nat, n: nat)
      returns (rows: seq<Entry>)
    requires UniqueIds(FailureEntries(log)) && InRange(FailureEntries(log))
    ensures rows == Limited(Query(k, FailureEntries(log), (maxTime, maxId)), n)
    ensures forall e | e in rows :: e.id in log && e.time == log[e.id].createdAt <= MAX_MILLIS
  {
    var selected := set e | e in FailureEntries(log) && Matches(k, maxTime, maxId, e);
    ListingIs(k, selected);
    rows := RunQuery(k, selected, n);
    assert forall e | e in rows :: e in Members(Listing(k, selected));
  }

  // ---------- The inspector ----------

  datatype InspectedJob = InspectedJob(
    id: nat, status: Status, createdAt: nat, nextTry: nat, failCount: nat, maxRetries: nat, content: Content)

  function Scan(id: nat, row: Row): InspectedJob {
    InspectedJob(id, row.status, row.createdAt, row.nextTry, row.fail, row.fail + row.retry, row.content)
  }

  /** The inspected maximum of retries is the one the job was pushed with, in
      every run of a cluster, whatever stale copies were written back. */
  lemma InspectedMaxRetries(steps: seq<Cluster.Step>, id: nat)
    requires Cluster.Feasible(Cluster.INITIAL, steps) && id in Cluster.After(Cluster.INITIAL, steps).db.rows
    ensures var s := Cluster.After(Cluster.INITIAL, steps);
            && id in s.ledger.pushed
            && Scan(id, s.db.rows[id]).maxRetries == s.ledger.pushed[id].retryCount
  {
    Cluster.RetryBudget(steps, id);
  }

  /** The inspected number of failures is zero for a job that was never handed out,
      and in runs without stale copies it is the number of failures that sent the job
      back. */
  lemma InspectedFailCount(steps: seq<Cluster.Step>, id: nat)
    requires Cluster.Feasible(Cluster.INITIAL, steps) && id in Cluster.After(Cluster.INITIAL, steps).db.rows
    ensures var s := Cluster.After(Cluster.INITIAL, steps);
            && (Cluster.Count(s.ledger.handed, id) == 0 ==> Scan(id, s.db.rows[id]).failCount == 0)
            && (Exclusive.AllHarmless(Cluster.INITIAL, steps) ==>
                  Scan(id, s.db.rows[id]).failCount == Cluster.Count(s.ledger.retried, id))
  {
    Cluster.InitialInv();
    Cluster.RunKeepsInv(Cluster.INITIAL, steps);
    NeverHandedOut(Cluster.After(Cluster.INITIAL, steps), id);
    if Exclusive.AllHarmless(Cluster.INITIAL, steps) {
      FailuresCounted(steps, id);
    }
  }

  lemma NeverHandedOut(s: Cluster.State, id: nat)
    requires Cluster.Attempted(s) && id in s.db.rows
    ensures Cluster.Count(s.ledger.handed, id) == 0 ==> Scan(id, s.db.rows[id]).failCount == 0
  {
  }

  lemma FailuresCounted(steps: seq<Cluster.Step>, id: nat)
    requires Cluster.Feasible(Cluster.INITIAL, steps) && id in Cluster.After(Cluster.INITIAL, steps).db.rows
    requires Exclusive.AllHarmless(Cluster.INITIAL, steps)
    ensures var s := Cluster.After(Cluster.INITIAL, steps);
            Scan(id, s.db.rows[id]).failCount == Cluster.Count(s.ledger.retried, id)
  {
    Exclusive.InitialOk();
    Exclusive.RunKeeps(Cluster.INITIAL, steps);
    var s := Cluster.After(Cluster.INITIAL, steps);
    assert Exclusive.Counted(s);
  }

  /** Each failure that sends a job back shows: one more than the copy had. */
  lemma InspectedAfterRetry(s: Cluster.State, step: Cluster.Step)
    requires Cluster.Enabled(s, step) && step.Complete? && step.job.id in s.db.rows
    requires OutcomeOf(step.job.retry, step.result).Retried?
    ensures var t := Cluster.Do(s, step);
            && step.job.id in t.db.rows
            && Scan(step.job.id, t.db.rows[step.job.id]).failCount == step.job.fail + 1
            && Scan(step.job.id, t.db.rows[step.job.id]).nextTry == step.now + NextDelay(step.job.content.retryDelay)
            && Scan(step.job.id, t.db.rows[step.job.id]).status == Claimed
  {
  }

  /** The comparison of the sort done outside the database, on nanoseconds. */
  predicate Less(k: Kind, a: InspectedJob, b: InspectedJob) {
    var t1, t2 := UnixNano(a.nextTry), UnixNano(b.nextTry);
    if k.InspectAsc? then t1 < t2 || (t1 == t2 && a.id < b.id)
    else t1 > t2 || (t1 == t2 && a.id > b.id)
  }

  function EntryOf(j: InspectedJob): Entry {
    Entry(j.nextTry, j.id)
  }

  lemma LessIsBefore(k: Kind, a: InspectedJob, b: InspectedJob)
    requires (k.InspectAsc? || k.InspectDesc?) && a.nextTry <= MAX_MILLIS && b.nextTry <= MAX_MILLIS
    ensures Less(k, a, b) <==> Before(k, EntryOf(a), EntryOf(b))
  {
    NanoOrder(a.nextTry, b.nextTry);
    NanoOrder(b.nextTry, a.nextTry);
  }

  /** Rows of the wanted status within the bound that cursors leave alone. */
  function Candidates(k: Kind, db: Db, status: Status, minTime: int, maxTime: int): set<Entry> {
    set id | id in db.rows && db.rows[id].status == status
             && (if k.InspectAsc? then db.rows[id].nextTry < maxTime else minTime < db.rows[id].nextTry)
      :: Entry(db.rows[id].nextTry, id)
  }

  lemma CandidateIdsAreUnique(k: Kind, db: Db, status: Status, minTime: int, maxTime: int)
    ensures UniqueIds(Candidates(k, db, status, minTime, maxTime))
  {
  }

  /** The time bound of a request without a cursor. */
  function StartTime(k: Kind, minTime: int, maxTime: int): int {
    if k.InspectAsc? then (if minTime >= MAX_INT64 then 0 else minTime)
    else if maxTime <= 0 then MAX_INT64 else maxTime
  }

  /** The rows with these ids that still have the status, in any order. */
  method Reread(db: Db, status: Status, ids: seq<nat>) returns (jobs: seq<InspectedJob>)
    ensures forall j | j in jobs ::
              j.id in ids && j.id in db.rows && db.rows[j.id].status == status && j == Scan(j.id, db.rows[j.id])
    ensures forall id | id in ids && id in db.rows && db.rows[id].status == status ::
              Scan(id, db.rows[id]) in jobs
    ensures forall i, j | 0 <= i < j < |jobs| :: jobs[i].id != jobs[j].id
  {
    jobs := [];
    var rest := set id | id in ids && id in db.rows && db.rows[id].status == status;
    ghost var all := rest;
    while rest != {}
      invariant rest <= all
      invariant forall j | j in jobs :: j.id in all && j.id !in rest && j == Scan(j.id, db.rows[j.id])
      invariant forall id | id in all && id !in rest :: Scan(id, db.rows[id]) in jobs
      invariant forall i, j | 0 <= i < j < |jobs| :: jobs[i].id != jobs[j].id
      decreases |rest|
    {
      var id :| id in rest;
      jobs := jobs + [Scan(id, db.rows[id])];
      rest := rest - {id};
    }
  }

  /** The sort with the comparison above. */
  method SortJobs(k: Kind, jobs: seq<InspectedJob>) returns (sorted: seq<InspectedJob>)
    requires k.InspectAsc? || k.InspectDesc?
    requires forall i, j | 0 <= i < j < |jobs| :: jobs[i].id != jobs[j].id
    ensures forall j :: j in sorted <==> j in jobs
    ensures forall i, j | 0 <= i < j < |sorted| :: Less(k, sorted[i], sorted[j])
  {
    sorted := Sorting.Sort(jobs, (a: InspectedJob, b: InspectedJob) => !Less(k, b, a));
    Sorting.SameMembers(sorted, jobs);
    ghost var key := (j: InspectedJob) => j.id;
    assert Sorting.DistinctBy(jobs, key);
    Sorting.SortingKeepsDistinct(jobs, sorted, key);
    forall i, j | 0 <= i < j < |sorted| ensures Less(k, sorted[i], sorted[j]) {
      assert key(sorted[i]) != key(sorted[j]);
    }
  }

  /** A page of jobs.  Reading the ids first, then the rows in whatever order,
      then sorting outside the database gives what one ordered query gives. */
  method FindJobs(k: Kind, db: Db, status: Status, minTime: int, maxTime: int, limit: nat, cursor: seq<Byte>)
      returns (page: seq<InspectedJob>, next: seq<Byte>)
    requires k.InspectAsc? || k.InspectDesc?
    requires InRange(Candidates(k, db, status, minTime, maxTime))
    ensures UniqueIds(Candidates(k, db, status, minTime, maxTime))
    ensures var f := Query(k, Candidates(k, db, status, minTime, maxTime),
                           Bound(k, StartTime(k, minTime, maxTime), cursor));
            ShowsJobs(db, Limited(f, limit), page) && next == NextCursor(f, limit)
    ensures JobsInOrder(k, db, status, page)
    ensures forall j | j in page :: if k.InspectAsc? then j.nextTry < maxTime else minTime < j.nextTry
    ensures cursor == [] ==> forall j | j in page :: InTime(k, minTime, maxTime, j.nextTry)
    ensures cursor == [] ==>
              forall id | id in db.rows && db.rows[id].status == status && InTime(k, minTime, maxTime, db.rows[id].nextTry) ::
                Scan(id, db.rows[id]) in page || |page| == limit
  {
    CandidateIdsAreUnique(k, db, status, minTime, maxTime);
    var b := Bound(k, StartTime(k, minTime, maxTime), cursor);
    page, next := JobsFrom(k, db, status, minTime, maxTime, b, limit);
    JobPage(k, db, status, minTime, maxTime, b, limit, page);
    if cursor == [] { FirstJobs(k, db, status, minTime, maxTime, limit, page); }
  }

  method JobsFrom(k: Kind, db: Db, status: Status, minTime: int, maxTime: int, b: (int, nat), limit: nat)
      returns (page: seq<InspectedJob>, next: seq<Byte>)
    requires (k.InspectAsc? || k.InspectDesc?) && UniqueIds(Candidates(k, db, status, minTime, maxTime))
    requires InRange(Candidates(k, db, status, minTime, maxTime))
    ensures var f := Query(k, Candidates(k, db, status, minTime, maxTime), b);
            ShowsJobs(db, Limited(f, limit), page) && next == NextCursor(f, limit)
  {
    var rows := QueryIds(k, db, status, minTime, maxTime, b, limit + 1);
    page := ReadSorted(k, db, status, rows);
    next := [];
    if |page| > limit {
      TimeRoundTrip(page[limit].nextTry);
      next := EncodeCursor(MillisOf(page[limit].nextTry), page[limit].id);
      page := page[..limit];
    }
  }

  /** The two times of a request: descending from the upper one, which counts if it
      is positive, to above the lower one; ascending from the lower one, which counts
      if it is below the maximum, to below the upper one. */
  predicate InTime(k: Kind, minTime: int, maxTime: int, nextTry: nat) {
    if k.InspectAsc? then (minTime < MAX_INT64 ==> minTime <= nextTry) && nextTry < maxTime
    else minTime < nextTry && (maxTime > 0 ==> nextTry <= maxTime)
  }

  /** Each column of the row as the job shows it; the maximum of retries is the sum of
      the retries left and the failures. */
  predicate ShowsRow(j: InspectedJob, row: Row) {
    && j.status == row.status && j.createdAt == row.createdAt && j.nextTry == row.nextTry
    && j.failCount == row.fail && j.maxRetries == row.retry + row.fail && j.content == row.content
  }

  /** The jobs are rows with the status, each at most once, ordered by next try and
      then by id. */
  ghost predicate JobsInOrder(k: Kind, db: Db, status: Status, page: seq<InspectedJob>) {
    && (forall j | j in page :: j.id in db.rows && ShowsRow(j, db.rows[j.id]) && j.status == status)
    && (forall i, j | 0 <= i < j < |page| ::
          if k.InspectAsc?
          then page[i].nextTry < page[j].nextTry || (page[i].nextTry == page[j].nextTry && page[i].id < page[j].id)
          else page[i].nextTry > page[j].nextTry || (page[i].nextTry == page[j].nextTry && page[i].id > page[j].id))
  }

  /** The row `e` stands for has the status and lies on the right side of the time that
      cursors leave alone. */
  predicate IsCandidate(k: Kind, db: Db, status: Status, minTime: int, maxTime: int, e: Entry) {
    && e.id in db.rows && db.rows[e.id].status == status && e.time == db.rows[e.id].nextTry
    && (if k.InspectAsc? then e.time < maxTime else minTime < e.time)
  }

  lemma CandidateIs(k: Kind, db: Db, status: Status, minTime: int, maxTime: int, e: Entry)
    ensures e in Candidates(k, db, status, minTime, maxTime) <==> IsCandidate(k, db, status, minTime, maxTime, e)
  {
  }

  lemma JobsShownInOrder(k: Kind, db: Db, status: Status, minTime: int, maxTime: int,
                         f: seq<Entry>, page: seq<InspectedJob>)
    requires (k.InspectAsc? || k.InspectDesc?) && Sorted(k, f) && ShowsJobs(db, f, page)
    requires forall i | 0 <= i < |f| :: IsCandidate(k, db, status, minTime, maxTime, f[i])
    ensures JobsInOrder(k, db, status, page)
    ensures forall j | j in page :: if k.InspectAsc? then j.nextTry < maxTime else minTime < j.nextTry
  {
    forall i, j | 0 <= i < j < |page|
      ensures if k.InspectAsc?
              then page[i].nextTry < page[j].nextTry || (page[i].nextTry == page[j].nextTry && page[i].id < page[j].id)
              else page[i].nextTry > page[j].nextTry || (page[i].nextTry == page[j].nextTry && page[i].id > page[j].id)
    {
      assert Before(k, f[i], f[j]);
    }
  }

  /** What a query selects. */
  lemma QueryIs(k: Kind, db: Db, status: Status, minTime: int, maxTime: int, b: (int, nat))
    requires UniqueIds(Candidates(k, db, status, minTime, maxTime))
    ensures var f := Query(k, Candidates(k, db, status, minTime, maxTime), b);
            && Sorted(k, f)
            && (forall e :: e in f <==> IsCandidate(k, db, status, minTime, maxTime, e) && Matches(k, b.0, b.1, e))
            && (forall i | 0 <= i < |f| :: IsCandidate(k, db, status, minTime, maxTime, f[i]))
  {
    var candidates := Candidates(k, db, status, minTime, maxTime);
    var f := Query(k, candidates, b);
    ListingIs(k, Matching(k, candidates, b));
    forall e ensures e in f <==> IsCandidate(k, db, status, minTime, maxTime, e) && Matches(k, b.0, b.1, e) {
      CandidateIs(k, db, status, minTime, maxTime, e);
      assert e in f <==> e in Members(f);
    }
    forall i | 0 <= i < |f| ensures IsCandidate(k, db, status, minTime, maxTime, f[i]) {
      assert f[i] in f;
    }
  }

  lemma JobPage(k: Kind, db: Db, status: Status, minTime: int, maxTime: int, b: (int, nat), limit: nat,
                page: seq<InspectedJob>)
    requires (k.InspectAsc? || k.InspectDesc?) && UniqueIds(Candidates(k, db, status, minTime, maxTime))
    requires ShowsJobs(db, Limited(Query(k, Candidates(k, db, status, minTime, maxTime), b), limit), page)
    ensures JobsInOrder(k, db, status, page)
    ensures forall j | j in page :: if k.InspectAsc? then j.nextTry < maxTime else minTime < j.nextTry
  {
    QueryIs(k, db, status, minTime, maxTime, b);
    var f := Query(k, Candidates(k, db, status, minTime, maxTime), b);
    JobsShownInOrder(k, db, status, minTime, maxTime, Limited(f, limit), page);
  }

  /** The rows a listing starts from are those with the status within its two times. */
  lemma StartIs(k: Kind, db: Db, status: Status, minTime: int, maxTime: int, e: Entry)
    requires (k.InspectAsc? || k.InspectDesc?) && e.time <= MAX_MILLIS && e.id < TWO_63
    ensures IsCandidate(k, db, status, minTime, maxTime, e)
            && Matches(k, StartTime(k, minTime, maxTime), InitialId(k), e)
       <==> && e.id in db.rows && db.rows[e.id].status == status && e.time == db.rows[e.id].nextTry
            && InTime(k, minTime, maxTime, e.time)
  {
  }

  /** The start of a listing, before LIMIT: exactly the rows within the two times. */
  ghost predicate IsStart(k: Kind, db: Db, status: Status, minTime: int, maxTime: int, f: seq<Entry>) {
    && Sorted(k, f)
    && (forall i | 0 <= i < |f| ::
          IsCandidate(k, db, status, minTime, maxTime, f[i]) && InTime(k, minTime, maxTime, f[i].time))
    && (forall id | id in db.rows && db.rows[id].status == status && InTime(k, minTime, maxTime, db.rows[id].nextTry) ::
          Entry(db.rows[id].nextTry, id) in f)
  }

  lemma StartQueryIs(k: Kind, db: Db, status: Status, minTime: int, maxTime: int)
    requires (k.InspectAsc? || k.InspectDesc?) && UniqueIds(Candidates(k, db, status, minTime, maxTime))
    requires InRange(Candidates(k, db, status, minTime, maxTime))
    ensures IsStart(k, db, status, minTime, maxTime,
                    Query(k, Candidates(k, db, status, minTime, maxTime), (StartTime(k, minTime, maxTime), InitialId(k))))
  {
    var b := (StartTime(k, minTime, maxTime), InitialId(k));
    var f := Query(k, Candidates(k, db, status, minTime, maxTime), b);
    QueryIs(k, db, status, minTime, maxTime, b);
    forall i | 0 <= i < |f| ensures InTime(k, minTime, maxTime, f[i].time) {
      assert f[i] in f;
      CandidateIs(k, db, status, minTime, maxTime, f[i]);
      StartIs(k, db, status, minTime, maxTime, f[i]);
    }
    forall id | id in db.rows && db.rows[id].status == status && InTime(k, minTime, maxTime, db.rows[id].nextTry)
      ensures Entry(db.rows[id].nextTry, id) in f
    {
      var e := Entry(db.rows[id].nextTry, id);
      assert IsCandidate(k, db, status, minTime, maxTime, e);
      CandidateIs(k, db, status, minTime, maxTime, e);
      StartIs(k, db, status, minTime, maxTime, e);
    }
  }

  lemma FirstPageShows(k: Kind, db: Db, status: Status, minTime: int, maxTime: int,
                       f: seq<Entry>, limit: nat, page: seq<InspectedJob>)
    requires IsStart(k, db, status, minTime, maxTime, f) && ShowsJobs(db, Limited(f, limit), page)
    ensures forall j | j in page :: InTime(k, minTime, maxTime, j.nextTry)
    ensures forall id | id in db.rows && db.rows[id].status == status && InTime(k, minTime, maxTime, db.rows[id].nextTry) ::
              Scan(id, db.rows[id]) in page || |page| == limit
  {
    forall id | id in db.rows && db.rows[id].status == status && InTime(k, minTime, maxTime, db.rows[id].nextTry)
      ensures Scan(id, db.rows[id]) in page || |page| == limit
    {
      var i :| 0 <= i < |f| && f[i] == Entry(db.rows[id].nextTry, id);
      if i < |page| { assert page[i] == Scan(id, db.rows[id]); }
    }
  }

  lemma FirstJobs(k: Kind, db: Db, status: Status, minTime: int, maxTime: int, limit: nat, page: seq<InspectedJob>)
    requires (k.InspectAsc? || k.InspectDesc?) && UniqueIds(Candidates(k, db, status, minTime, maxTime))
    requires InRange(Candidates(k, db, status, minTime, maxTime))
    requires ShowsJobs(db, Limited(Query(k, Candidates(k, db, status, minTime, maxTime),
                                         Bound(k, StartTime(k, minTime, maxTime), [])), limit), page)
    ensures forall j | j in page :: InTime(k, minTime, maxTime, j.nextTry)
    ensures forall id | id in db.rows && db.rows[id].status == status && InTime(k, minTime, maxTime, db.rows[id].nextTry) ::
              Scan(id, db.rows[id]) in page || |page| == limit
  {
    EmptyCursor();
    StartQueryIs(k, db, status, minTime, maxTime);
    FirstPageShows(k, db, status, minTime, maxTime,
                   Query(k, Candidates(k, db, status, minTime, maxTime), (StartTime(k, minTime, maxTime), InitialId(k))),
                   limit, page);
  }

  /** `page` shows these rows of the job table. */
  ghost predicate ShowsJobs(db: Db, f: seq<Entry>, page: seq<InspectedJob>) {
    && |page| == |f|
    && (forall i | 0 <= i < |f| :: f[i].id in db.rows && page[i] == Scan(f[i].id, db.rows[f[i].id]))
  }

  lemma ShowMoreJobs(db: Db, f: seq<Entry>, page: seq<InspectedJob>, g: seq<Entry>, more: seq<InspectedJob>)
    requires ShowsJobs(db, f, page) && ShowsJobs(db, g, more)
    ensures ShowsJobs(db, f + g, page + more)
  {
  }

  /** The jobs as a client reads them, page by page until there is no next cursor:
      what following the cursors gives, of which Paging.InspectorPages tells
      exactly what it misses. */
  method ListJobs(k: Kind, db: Db, status: Status, minTime: int, maxTime: int, limit: nat)
      returns (all: seq<InspectedJob>)
    requires (k.InspectAsc? || k.InspectDesc?) && limit >= 1
    requires InRange(Candidates(k, db, status, minTime, maxTime))
    ensures UniqueIds(Candidates(k, db, status, minTime, maxTime))
    ensures ShowsJobs(db, Follow(k, Candidates(k, db, status, minTime, maxTime),
                                 StartTime(k, minTime, maxTime), limit, []), all)
    ensures JobsInOrder(k, db, status, all)
    ensures forall j | j in all :: InTime(k, minTime, maxTime, j.nextTry)
    ensures IdsAgree(k, db, status, minTime, maxTime) ==>
              forall id | id in db.rows && db.rows[id].status == status && InTime(k, minTime, maxTime, db.rows[id].nextTry) ::
                Scan(id, db.rows[id]) in all
  {
    CandidateIdsAreUnique(k, db, status, minTime, maxTime);
    ghost var entries, start := Candidates(k, db, status, minTime, maxTime), StartTime(k, minTime, maxTime);
    ghost var seen: seq<Entry> := [];
    var cursor, more := [], true;
    all := [];
    while more
      invariant ShowsJobs(db, seen, all)
      invariant ToCome(k, entries, start, limit, cursor, more, seen) == Follow(k, entries, start, limit, [])
      decreases more, |Query(k, entries, Bound(k, start, cursor))|
    {
      var page, next := FindJobs(k, db, status, minTime, maxTime, limit, cursor);
      ghost var f := Query(k, entries, Bound(k, start, cursor));
      ShowMoreJobs(db, seen, all, Limited(f, limit), page);
      FollowOnce(k, entries, start, limit, cursor, seen);
      seen := seen + Limited(f, limit);
      all := all + page;
      cursor, more := next, next != [];
    }
    AllInTime(k, db, status, minTime, maxTime, limit, all);
    if IdsAgree(k, db, status, minTime, maxTime) { WholeListing(k, db, status, minTime, maxTime, limit, all); }
  }

  /** Among the rows that a listing is about, later jobs have larger ids. */
  ghost predicate IdsAgree(k: Kind, db: Db, status: Status, minTime: int, maxTime: int) {
    forall a, b | a in db.rows && b in db.rows && db.rows[a].status == status && db.rows[b].status == status
      && InTime(k, minTime, maxTime, db.rows[a].nextTry) && InTime(k, minTime, maxTime, db.rows[b].nextTry)
      && db.rows[a].nextTry < db.rows[b].nextTry :: a < b
  }

  lemma AllInTime(k: Kind, db: Db, status: Status, minTime: int, maxTime: int, limit: nat, all: seq<InspectedJob>)
    requires (k.InspectAsc? || k.InspectDesc?) && limit >= 1 && UniqueIds(Candidates(k, db, status, minTime, maxTime))
    requires InRange(Candidates(k, db, status, minTime, maxTime))
    requires ShowsJobs(db, Follow(k, Candidates(k, db, status, minTime, maxTime),
                                  StartTime(k, minTime, maxTime), limit, []), all)
    ensures JobsInOrder(k, db, status, all)
    ensures forall j | j in all :: InTime(k, minTime, maxTime, j.nextTry)
  {
    var candidates := Candidates(k, db, status, minTime, maxTime);
    InspectorPages(k, candidates, StartTime(k, minTime, maxTime), limit);
    StartQueryIs(k, db, status, minTime, maxTime);
    SeenInTime(k, db, status, minTime, maxTime,
               Query(k, candidates, (StartTime(k, minTime, maxTime), InitialId(k))),
               Follow(k, candidates, StartTime(k, minTime, maxTime), limit, []), all);
  }

  lemma SeenInTime(k: Kind, db: Db, status: Status, minTime: int, maxTime: int,
                   f: seq<Entry>, seen: seq<Entry>, all: seq<InspectedJob>)
    requires (k.InspectAsc? || k.InspectDesc?) && IsStart(k, db, status, minTime, maxTime, f)
    requires Sorted(k, seen) && (forall e | e in seen :: e in f) && ShowsJobs(db, seen, all)
    ensures JobsInOrder(k, db, status, all)
    ensures forall j | j in all :: InTime(k, minTime, maxTime, j.nextTry)
  {
    forall i | 0 <= i < |seen|
      ensures IsCandidate(k, db, status, minTime, maxTime, seen[i]) && InTime(k, minTime, maxTime, seen[i].time)
    {
      assert seen[i] in f;
    }
    JobsShownInOrder(k, db, status, minTime, maxTime, seen, all);
  }

  lemma WholeListing(k: Kind, db: Db, status: Status, minTime: int, maxTime: int, limit: nat, all: seq<InspectedJob>)
    requires (k.InspectAsc? || k.InspectDesc?) && limit >= 1 && UniqueIds(Candidates(k, db, status, minTime, maxTime))
    requires InRange(Candidates(k, db, status, minTime, maxTime)) && IdsAgree(k, db, status, minTime, maxTime)
    requires ShowsJobs(db, Follow(k, Candidates(k, db, status, minTime, maxTime),
                                  StartTime(k, minTime, maxTime), limit, []), all)
    ensures forall id | id in db.rows && db.rows[id].status == status && InTime(k, minTime, maxTime, db.rows[id].nextTry) ::
              Scan(id, db.rows[id]) in all
  {
    var candidates := Candidates(k, db, status, minTime, maxTime);
    var f := Query(k, candidates, (StartTime(k, minTime, maxTime), InitialId(k)));
    StartQueryIs(k, db, status, minTime, maxTime);
    AgreeingSequence(k, db, status, minTime, maxTime, f);
    AgreeingIsComplete(k, f, limit);
    InspectorPages(k, candidates, StartTime(k, minTime, maxTime), limit);
    FirstPageShows(k, db, status, minTime, maxTime, f, |f| + 1, all);
  }

  lemma AgreeingSequence(k: Kind, db: Db, status: Status, minTime: int, maxTime: int, f: seq<Entry>)
    requires (k.InspectAsc? || k.InspectDesc?) && IdsAgree(k, db, status, minTime, maxTime)
    requires IsStart(k, db, status, minTime, maxTime, f)
    ensures forall i, j | 0 <= i <= j < |f| :: InBound(k, f[i], f[j])
  {
    forall i, j | 0 <= i <= j < |f| ensures InBound(k, f[i], f[j]) {
      if i < j { assert Before(k, f[i], f[j]); }
    }
  }

  method QueryIds(k: Kind, db: Db, status: Status, minTime: int, maxTime: int, b: (int, nat), n: nat)
      returns (rows: seq<Entry>)
    requires UniqueIds(Candidates(k, db, status, minTime, maxTime))
    requires InRange(Candidates(k, db, status, minTime, maxTime))
    ensures rows == Limited(Query(k, Candidates(k, db, status, minTime, maxTime), b), n)
    ensures Sorted(k, rows)
    ensures forall e | e in rows ::
              && e.id in db.rows && db.rows[e.id].status == status
              && e.time == db.rows[e.id].nextTry <= MAX_MILLIS
  {
    var candidates := Candidates(k, db, status, minTime, maxTime);
    var selected := set e | e in candidates && Matches(k, b.0, b.1, e);
    ListingIs(k, selected);
    rows := RunQuery(k, selected, n);
    assert forall e | e in rows :: e in Members(Listing(k, selected));
  }

  method ReadSorted(k: Kind, db: Db, status: Status, rows: seq<Entry>) returns (page: seq<InspectedJob>)
    requires (k.InspectAsc? || k.InspectDesc?) && Sorted(k, rows)
    requires forall e | e in rows ::
               && e.id in db.rows && db.rows[e.id].status == status
               && e.time == db.rows[e.id].nextTry <= MAX_MILLIS
    ensures |page| == |rows|
    ensures forall i | 0 <= i < |rows| :: page[i] == Scan(rows[i].id, db.rows[rows[i].id])
  {
    var ids := seq(|rows|, i requires 0 <= i < |rows| => rows[i].id);
    var jobs := Reread(db, status, ids);
    RereadRows(db, status, rows, ids, jobs);
    page := SortJobs(k, jobs);
    PageShowsRows(k, db, rows, page);
  }

  lemma PageShowsRows(k: Kind, db: Db, rows: seq<Entry>, page: seq<InspectedJob>)
    requires (k.InspectAsc? || k.InspectDesc?) && Sorted(k, rows)
    requires forall e | e in rows :: e.id in db.rows && e.time == db.rows[e.id].nextTry
    requires forall i, j | 0 <= i < j < |page| :: Less(k, page[i], page[j])
    requires forall j | j in page ::
               EntryOf(j) in rows && j.nextTry <= MAX_MILLIS && j.id in db.rows && j == Scan(j.id, db.rows[j.id])
    requires forall e | e in rows :: Scan(e.id, db.rows[e.id]) in page
    ensures |page| == |rows|
    ensures forall i | 0 <= i < |rows| :: page[i] == Scan(rows[i].id, db.rows[rows[i].id])
  {
    forall e | e in rows ensures exists j | j in page :: EntryOf(j) == e {
      assert EntryOf(Scan(e.id, db.rows[e.id])) == e;
    }
    SortedPage(k, rows, page);
    assert |EntriesOf(page)| == |page|;
    forall i | 0 <= i < |rows| ensures page[i] == Scan(rows[i].id, db.rows[rows[i].id]) {
      assert page[i] in page && EntryOf(page[i]) == rows[i];
    }
  }

  /** Nothing is lost or gained by reading the rows again. */
  lemma RereadRows(db: Db, status: Status, rows: seq<Entry>, ids: seq<nat>, jobs: seq<InspectedJob>)
    requires |ids| == |rows| && forall i | 0 <= i < |rows| :: ids[i] == rows[i].id
    requires forall e | e in rows ::
               && e.id in db.rows && db.rows[e.id].status == status
               && e.time == db.rows[e.id].nextTry <= MAX_MILLIS
    requires forall j | j in jobs :: j.id in ids && j.id in db.rows && j == Scan(j.id, db.rows[j.id])
    requires forall id | id in ids && id in db.rows && db.rows[id].status == status :: Scan(id, db.rows[id]) in jobs
    ensures forall j | j in jobs :: EntryOf(j) in rows && j.nextTry <= MAX_MILLIS
    ensures forall e | e in rows :: Scan(e.id, db.rows[e.id]) in jobs
  {
    forall j | j in jobs ensures EntryOf(j) in rows && j.nextTry <= MAX_MILLIS {
      var i :| 0 <= i < |ids| && ids[i] == j.id;
      assert rows[i] in rows;
    }
    forall e | e in rows ensures Scan(e.id, db.rows[e.id]) in jobs {
      var i :| 0 <= i < |rows| && rows[i] == e;
      assert ids[i] in ids;
    }
  }

  ghost function EntriesOf(page: seq<InspectedJob>): seq<Entry> {
    seq(|page|, i requires 0 <= i < |page| => EntryOf(page[i]))
  }

  /** The page sorted by nanoseconds is the query, row by row. */
  lemma SortedPage(k: Kind, rows: seq<Entry>, page: seq<InspectedJob>)
    requires (k.InspectAsc? || k.InspectDesc?) && Sorted(k, rows)
    requires forall i, j | 0 <= i < j < |page| :: Less(k, page[i], page[j])
    requires forall j | j in page :: EntryOf(j) in rows && j.nextTry <= MAX_MILLIS
    requires forall e | e in rows :: exists j | j in page :: EntryOf(j) == e
    ensures EntriesOf(page) == rows
    ensures forall i | 0 <= i < |page| :: EntryOf(page[i]) == rows[i]
  {
    var entries := EntriesOf(page);
    forall i, j | 0 <= i < j < |entries| ensures Before(k, entries[i], entries[j]) {
      assert page[i] in page && page[j] in page;
      LessIsBefore(k, page[i], page[j]);
    }
    forall e ensures e in entries <==> e in rows {
      if e in rows {
        var j :| j in page && EntryOf(j) == e;
        var i :| 0 <= i < |page| && page[i] == j;
        assert entries[i] == e;
      }
      if e in entries {
        var i :| 0 <= i < |entries| && entries[i] == e;
        assert page[i] in page;
      }
    }
    assert Members(entries) == Members(rows);
    SortedIsUnique(k, entries, rows);
    assert forall i | 0 <= i < |page| :: EntryOf(page[i]) == entries[i];
  }
}
