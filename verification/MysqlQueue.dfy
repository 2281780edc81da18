/** The MySQL job queue of one node: the loops around the statements.  The
    connection used for grabbing has a fixed id while it is open. */
module MysqlQueue {
  import opened Jobs
  import opened Store
  import opened Sets
  import Sorting

  datatype PopResult = Popped(jobs: seq<Job>) | Inactive | ConnectionClosed | QueryFailed

  /** What goes wrong with the database during a Pop, if anything. */
  datatype PopFault = NoFault | PreselectFails | TransactionFails | CommitFails

  ghost predicate SortedByTime(jobs: seq<Job>) {
    forall i, j | 0 <= i < j < |jobs| :: jobs[i].nextTry <= jobs[j].nextTry
  }

  ghost function IdsOf(jobs: seq<Job>): set<nat> {
    set k | 0 <= k < |jobs| :: jobs[k].id
  }

  /** No two of the jobs have the same id. */
  ghost predicate DistinctIds(jobs: seq<Job>) {
    forall i, j | 0 <= i < j < |jobs| :: jobs[i].id != jobs[j].id
  }

  method SortByTime(jobs: seq<Job>) returns (sorted: seq<Job>)
    ensures SortedByTime(sorted)
    ensures multiset(sorted) == multiset(jobs)
  {
    sorted := Sorting.Sort(jobs, (a: Job, b: Job) => a.nextTry <= b.nextTry);
  }

  lemma PermutationKeepsIds(a: seq<Job>, b: seq<Job>)
    requires multiset(a) == multiset(b) && DistinctIds(a)
    ensures IdsOf(a) == IdsOf(b) && DistinctIds(b) && |a| == |b|
    ensures forall j :: j in a <==> j in b
  {
    Sorting.SameMembers(a, b);
    var key := (j: Job) => j.id;
    assert Sorting.DistinctBy(a, key);
    Sorting.SortingKeepsDistinct(a, b, key);
    forall i, j | 0 <= i < j < |b| ensures b[i].id != b[j].id {
      assert key(b[i]) != key(b[j]);
    }
    MembersGiveIds(a, b);
    MembersGiveIds(b, a);
  }

  lemma MembersGiveIds(a: seq<Job>, b: seq<Job>)
    requires forall j | j in a :: j in b
    ensures IdsOf(a) <= IdsOf(b)
  {
    forall id | id in IdsOf(a) ensures id in IdsOf(b) {
      var k :| 0 <= k < |a| && a[k].id == id;
      assert a[k] in b;
    }
  }

  class Queue {
    var db: Db
    var conn: Option<nat>

    ghost predicate Valid()
      reads this
    {
      WellFormed(db)
    }

    constructor (conn: nat)
      ensures Valid() && db == Db(map[], 1) && this.conn == Some(conn)
    {
      db := Db(map[], 1);
      this.conn := Some(conn);
    }

    /** `done` tells whether the server executed the statement and `answered`
        whether the node learns of it. */
    method Push(job: Incoming, now: nat, done: bool, answered: bool) returns (id: Option<nat>)
      requires Valid() && (answered ==> done)
      modifies this`db
      ensures Valid() && (id.Some? <==> answered)
      ensures db == if done then Apply(old(db), Insert(now, job)) else old(db)
      ensures done ==> var key := old(db.nextId);
                && (answered ==> id == Some(key))
                && key !in old(db.rows) && db.rows.Keys == old(db.rows.Keys) + {key}
                && CopyOf(key, db.rows[key]) == Job(key, now + job.nextDelay, now, job.retryCount, 0, job.content)
                && db.rows[key].status == Claimed
      ensures forall other | other in old(db.rows) :: db.rows[other] == old(db.rows[other])
    {
      id := if answered then Some(db.nextId) else None;
      if done {
        db := Apply(db, Insert(now, job));
      }
    }

    /** The preselection query: repeatedly the earliest due row not yet taken. */
    method Preselect(limit: nat, now: nat) returns (ids: seq<nat>)
      ensures IsPreselection(db, now, limit, ids)
      ensures forall id | id in ids ::
                id in db.rows && db.rows[id].status.Claimed? && db.rows[id].nextTry <= now
      ensures forall id | id in db.rows && db.rows[id].status.Claimed? && db.rows[id].nextTry <= now ::
                id in ids || |ids| == limit
    {
      ids := [];
      var rest := Due(db, now);
      while |ids| < limit && rest != {}
        invariant |ids| <= limit && Taking(db, Due(db, now), ids, rest)
        decreases |rest|
      {
        var first := Earliest(rest);
        TakeEarliest(db, Due(db, now), ids, rest, first);
        ids := ids + [first];
        rest := rest - {first};
      }
      forall id | id in db.rows && db.rows[id].status.Claimed? && db.rows[id].nextTry <= now
        ensures id in ids || |ids| == limit
      {
        PreselectionIsComplete(db, now, limit, ids, id);
      }
    }

    method Earliest(ids: set<nat>) returns (first: nat)
      requires ids != {} && ids <= db.rows.Keys
      ensures first in ids
      ensures forall id | id in ids :: db.rows[first].nextTry <= db.rows[id].nextTry
    {
      first :| first in ids;
      var rest := ids - {first};
      while rest != {}
        invariant first in ids && rest <= ids
        invariant forall id | id in ids - rest :: db.rows[first].nextTry <= db.rows[id].nextTry
        decreases |rest|
      {
        var id :| id in rest;
        if db.rows[id].nextTry < db.rows[first].nextTry {
          first := id;
        }
        rest := rest - {id};
      }
    }

    /** The scan of the locked rows, in whatever order they come: the first
        entries of the preselected ids are overwritten in place. */
    method ScanLocked(preselected: seq<nat>) returns (ids: seq<nat>, jobs: seq<Job>)
      requires Distinct(preselected)
      ensures |jobs| <= |ids| == |preselected|
      ensures AreCopies(db, jobs) && DistinctIds(jobs)
      ensures forall k | 0 <= k < |jobs| :: ids[k] == jobs[k].id
      ensures IdsOf(jobs) == Grabbable(db, Elements(preselected))
    {
      GrabbableFits(db, preselected);
      ids, jobs := preselected, [];
      var rest := Grabbable(db, Elements(preselected));
      while rest != {}
        invariant |jobs| + |rest| <= |ids| == |preselected|
        invariant Scanned(db, Grabbable(db, Elements(preselected)), ids, jobs, rest)
        decreases |rest|
      {
        var id :| id in rest;
        var job := CopyOf(id, db.rows[id]);
        ScanOne(db, Grabbable(db, Elements(preselected)), ids, jobs, rest, id);
        ids := ids[|jobs| := id];
        jobs := jobs + [job];
        rest := rest - {id};
      }
    }

    /** The transaction: the ids left after truncation are those launched, if the
        commit succeeds; it does not matter to what is returned. */
    method LockAndLaunch(preselected: seq<nat>, c: nat, committed: bool) returns (jobs: seq<Job>)
      requires Distinct(preselected) && Valid()
      modifies this`db
      ensures Valid()
      ensures IdsOf(jobs) == Grabbable(old(db), Elements(preselected))
      ensures AreCopies(old(db), jobs) && DistinctIds(jobs) && |jobs| <= |preselected|
      ensures forall j | j in jobs :: old(db).rows[j.id].status.Claimed?
      ensures SortedByTime(jobs)
      ensures db == if committed then Apply(old(db), Grab(IdsOf(jobs), c)) else old(db)
    {
      var ids, scanned := ScanLocked(preselected);
      if |scanned| == 0 {
        GrabNothing(db, c);
        assert IdsOf(scanned) == {};
        return [];
      }
      ids := ids[..|scanned|];
      assert Elements(ids) == IdsOf(scanned) by {
        assert forall k | 0 <= k < |scanned| :: ids[k] in Elements(ids) && ids[k] in IdsOf(scanned);
      }
      ApplyKeepsWellFormed(db, Grab(Elements(ids), c));
      if committed {
        db := Apply(db, Grab(Elements(ids), c));
      }
      jobs := SortByTime(scanned);
      PermutationKeepsIds(scanned, jobs);
      forall j | j in jobs ensures old(db).rows[j.id].status.Claimed? {
        var k :| 0 <= k < |jobs| && jobs[k] == j;
        assert j.id in IdsOf(jobs);
      }
    }

    /** One Pop call.  `active` is the answer of the activator, `env` are the
        statements other clients run between the preselection and the lock, and
        `fault` is what goes wrong. */
    method Pop(limit: nat, now: nat, active: bool, env: seq<Statement>, fault: PopFault)
        returns (r: PopResult, ghost preselected: seq<nat>)
      requires Valid()
      modifies this`db
      ensures Valid()
      ensures !active ==> r == Inactive && db == old(db)
      ensures active && conn.None? ==> r == ConnectionClosed && db == old(db)
      ensures active && conn.Some? && fault.PreselectFails? ==> r == QueryFailed && db == old(db)
      ensures active && conn.Some? && !fault.PreselectFails? ==> IsPreselection(old(db), now, limit, preselected)
      ensures active && conn.Some? && !fault.PreselectFails? ==>
                && (forall id | id in preselected ::
                      id in old(db.rows) && old(db.rows[id].status).Claimed? && old(db.rows[id].nextTry) <= now)
                && (forall id | id in old(db.rows) && old(db.rows[id].status).Claimed? && old(db.rows[id].nextTry) <= now ::
                      id in preselected || |preselected| == limit)
      ensures active && conn.Some? && fault.TransactionFails? ==>
                db == Run(old(db), env) && r == if preselected == [] then Popped([]) else QueryFailed
      ensures active && conn.Some? && (fault.NoFault? || fault.CommitFails?) ==>
                && r.Popped? && |r.jobs| <= limit
                && DistinctIds(r.jobs) && SortedByTime(r.jobs)
                && IdsOf(r.jobs) == Grabbable(Run(old(db), env), Elements(preselected))
                && AreCopies(Run(old(db), env), r.jobs)
                && db == if fault.NoFault? then Apply(Run(old(db), env), Grab(IdsOf(r.jobs), conn.value))
                         else Run(old(db), env)
      ensures r.Popped? && fault.NoFault? ==>
                && (forall j | j in r.jobs :: j.id in db.rows && j == CopyOf(j.id, db.rows[j.id])
                      && db.rows[j.id].status == Grabbed && db.rows[j.id].grabber == conn)
                && (forall id | id in db.rows && id !in IdsOf(r.jobs) ::
                      id in Run(old(db), env).rows && db.rows[id] == Run(old(db), env).rows[id])
      ensures r.Popped? && AllCalm(old(db), now, env) ==>
                && (forall j | j in r.jobs :: j.nextTry <= now)
                && (forall id | id in old(db.rows) && old(db.rows[id].status).Claimed? && old(db.rows[id].nextTry) <= now
                      && id in db.rows :: id in IdsOf(r.jobs) || |preselected| == limit)
                && (forall j, id | j in r.jobs && id in db.rows && db.rows[id].status.Claimed? && id !in IdsOf(r.jobs) ::
                      j.nextTry <= db.rows[id].nextTry)
    {
      preselected := [];
      if !active { return Inactive, preselected; }
      if conn.None? { return ConnectionClosed, preselected; }
      if fault.PreselectFails? { return QueryFailed, preselected; }

      var ids := Preselect(limit, now);
      preselected := ids;
      RunKeepsWellFormed(db, env);
      db := Run(db, env);
      if |ids| == 0 {
        GrabNothing(db, conn.value);
        r := Popped([]);
        assert IdsOf(r.jobs) == {};
        return;
      }
      if fault.TransactionFails? { return QueryFailed, preselected; }
      var jobs := LockAndLaunch(ids, conn.value, fault.NoFault?);
      r := Popped(jobs);
      LaunchedRows(Run(old(db), env), jobs, conn.value);
      if AllCalm(old(db), now, env) {
        CalmPop(old(db), now, limit, preselected, env, conn.value, jobs);
      }
    }

    /** An error of the statement is logged and otherwise ignored; `done` tells
        whether the server executed it. */
    method Delete(job: Job, done: bool)
      requires Valid()
      modifies this`db
      ensures Valid()
      ensures db == if done then old(db).(rows := old(db.rows) - {job.id}) else old(db)
    {
      if done {
        db := Apply(db, Store.Delete(job.id));
      }
    }

    /** Sends a failed job back: absolute values from the copy, no row created.  An
        error of the statement is logged and otherwise ignored. */
    method Update(job: Job, now: nat, done: bool)
      requires Valid() && job.retry > 0
      modifies this`db
      ensures Valid()
      ensures !done ==> db == old(db)
      ensures db.rows.Keys == old(db.rows.Keys) && db.nextId == old(db.nextId)
      ensures done && job.id in db.rows ==>
                && db.rows[job.id].status == Claimed && db.rows[job.id].grabber == None
                && (job.content.retryDelay <= 9223372036 ==>
                      db.rows[job.id].nextTry == now + 1000 * job.content.retryDelay)
                && db.rows[job.id].retry + db.rows[job.id].fail == job.retry + job.fail
                && db.rows[job.id].fail == job.fail + 1
                && db.rows[job.id].content == old(db.rows[job.id].content)
                && db.rows[job.id].createdAt == old(db.rows[job.id].createdAt)
      ensures forall id | id in db.rows && id != job.id :: db.rows[id] == old(db.rows[id])
    {
      if !done { return; }
      if job.content.retryDelay <= 9223372036 {
        NextDelayExact(job.content.retryDelay);
      }
      db := Apply(db, Store.Update(job.id, now, NextDelay(job.content.retryDelay), job.retry - 1, job.fail + 1));
    }

    /** One batch of the orphan query: any orphans, up to a thousand. */
    method SelectOrphans(c: nat) returns (ids: seq<nat>)
      ensures Distinct(ids) && Elements(ids) <= Orphans(db, c)
      ensures |ids| == if |Orphans(db, c)| <= 1000 then |Orphans(db, c)| else 1000
      ensures |Elements(ids)| == |ids|
    {
      ids := [];
      var rest := Orphans(db, c);
      while |ids| < 1000 && rest != {}
        invariant |ids| <= 1000 && Picking(Orphans(db, c), ids, rest)
        decreases |rest|
      {
        var id :| id in rest;
        PickOne(Orphans(db, c), ids, rest, id);
        ids := ids + [id];
        rest := rest - {id};
      }
    }

    /** Recovery on activation: it ends, and if no statement fails it counts the
        orphans there were and brings exactly these back.  A failure of a statement
        of batch `failing` ends it without a report, and some stay orphans. */
    method Recover(failing: Option<nat>) returns (reported: Option<nat>, ghost done: set<nat>)
      requires Valid()
      modifies this`db
      ensures Valid()
      ensures conn.None? ==> db == old(db) && reported == None
      ensures conn.Some? ==>
                && BroughtBack(old(db), db, conn.value, done)
                && done <= Orphans(old(db), conn.value)
                && Orphans(db, conn.value) == Orphans(old(db), conn.value) - done
                && (failing.None? ==> reported.Some?)
                && (reported.Some? ==>
                      && reported.value == |done| && done == Orphans(old(db), conn.value)
                      && (forall id | id in db.rows && db.rows[id].status.Grabbed? :: db.rows[id].grabber == conn))
    {
      reported, done := None, {};
      if conn.None? { return; }
      reported, done := RecoverBatchwise(conn.value, failing);
      RecoverBatchShrinks(old(db), conn.value, done);
      AllBroughtBack(old(db), conn.value, done);
    }

    method RecoverBatchwise(c: nat, failing: Option<nat>) returns (reported: Option<nat>, ghost done: set<nat>)
      requires Valid()
      modifies this`db
      ensures Valid()
      ensures done <= Orphans(old(db), c) && db == Apply(old(db), Store.Recover(done, c))
      ensures failing.None? ==> reported.Some?
      ensures reported.Some? ==> reported.value == |done| && done == Orphans(old(db), c)
    {
      var recovered, batch := 0, 0;
      reported, done := None, {};
      RecoverNothing(db, c);
      while failing != Some(batch)
        invariant Valid() && done <= Orphans(old(db), c)
        invariant db == Apply(old(db), Store.Recover(done, c))
        invariant recovered == |done| && reported == None
        decreases |Orphans(old(db), c)| - |done|
      {
        RecoverBatchShrinks(old(db), c, done);
        var ids := SelectOrphans(c);
        if |ids| == 0 {
          assert done == Orphans(old(db), c);
          reported := Some(recovered);
          return;
        }
        recovered := recovered + |ids|;
        RecoverMore(old(db), c, done, Elements(ids));
        db := Apply(db, Store.Recover(Elements(ids), c));
        done := done + Elements(ids);
        batch := batch + 1;
      }
    }
  }

  /** The rows `done`, grabbed by other connections, are claimed again, and all else
      is as before. */
  ghost predicate BroughtBack(before: Db, after: Db, conn: nat, done: set<nat>) {
    && after.nextId == before.nextId && after.rows.Keys == before.rows.Keys
    && (forall id | id in done ::
          && id in before.rows && before.rows[id].status.Grabbed?
          && before.rows[id].grabber.Some? && before.rows[id].grabber.value != conn
          && after.rows[id] == before.rows[id].(status := Claimed, grabber := None))
    && (forall id | id in before.rows && id !in done :: after.rows[id] == before.rows[id])
  }

  lemma AllBroughtBack(db: Db, conn: nat, done: set<nat>)
    requires WellFormed(db) && done <= Orphans(db, conn)
    ensures var after := Apply(db, Store.Recover(done, conn));
            && BroughtBack(db, after, conn, done)
            && (done == Orphans(db, conn) ==>
                  forall id | id in after.rows && after.rows[id].status.Grabbed? :: after.rows[id].grabber == Some(conn))
  {
    RecoverAll(db, conn);
  }

  /** Of `all`, those not in `rest` have been picked. */
  ghost predicate Picking(all: set<nat>, ids: seq<nat>, rest: set<nat>) {
    && rest <= all && Distinct(ids) && Elements(ids) == all - rest
    && |ids| + |rest| == |all| && |Elements(ids)| == |ids|
  }

  lemma PickOne(all: set<nat>, ids: seq<nat>, rest: set<nat>, id: nat)
    requires Picking(all, ids, rest) && id in rest
    ensures Picking(all, ids + [id], rest - {id})
  {
    assert Elements(ids + [id]) == Elements(ids) + {id};
    assert forall k | 0 <= k < |ids| :: ids[k] in Elements(ids);
  }

  /** One more batch. */
  lemma RecoverMore(db: Db, conn: nat, done: set<nat>, ids: set<nat>)
    requires WellFormed(db) && done <= Orphans(db, conn)
    requires ids <= Orphans(Apply(db, Store.Recover(done, conn)), conn)
    ensures Apply(Apply(db, Store.Recover(done, conn)), Store.Recover(ids, conn))
         == Apply(db, Store.Recover(done + ids, conn))
    ensures WellFormed(Apply(db, Store.Recover(done + ids, conn)))
    ensures done + ids <= Orphans(db, conn) && |done + ids| == |done| + |ids| <= |Orphans(db, conn)|
  {
    RecoverBatchShrinks(db, conn, done);
    RecoverBatches(db, conn, done, ids);
    ApplyKeepsWellFormed(db, Store.Recover(done + ids, conn));
    assert done !! ids;
    SubsetSize(done + ids, Orphans(db, conn));
  }

  /** The first rows of the answer, and the due rows not yet taken. */
  ghost predicate Taking(db: Db, due: set<nat>, ids: seq<nat>, rest: set<nat>) {
    && due <= db.rows.Keys && rest <= due
    && Distinct(ids) && |ids| + |rest| == |due|
    && (forall id :: id in due <==> id in rest || id in ids)
    && (forall id | id in ids :: id !in rest)
    && (forall i, j | 0 <= i < j < |ids| :: db.rows[ids[i]].nextTry <= db.rows[ids[j]].nextTry)
    && (forall id, other | id in ids && other in rest :: db.rows[id].nextTry <= db.rows[other].nextTry)
  }

  lemma TakeEarliest(db: Db, due: set<nat>, ids: seq<nat>, rest: set<nat>, first: nat)
    requires Taking(db, due, ids, rest) && first in rest
    requires forall id | id in rest :: db.rows[first].nextTry <= db.rows[id].nextTry
    ensures Taking(db, due, ids + [first], rest - {first})
  {
  }

  lemma RecoverNothing(db: Db, conn: nat)
    ensures Apply(db, Store.Recover({}, conn)) == db
  {
    assert Apply(db, Store.Recover({}, conn)).rows == db.rows;
  }

  /** Every job is the current copy of its row. */
  ghost predicate AreCopies(db: Db, jobs: seq<Job>) {
    forall j | j in jobs :: j.id in db.rows && j == CopyOf(j.id, db.rows[j.id])
  }

  lemma AppendCopy(db: Db, jobs: seq<Job>, job: Job)
    requires AreCopies(db, jobs) && job.id in db.rows && job == CopyOf(job.id, db.rows[job.id])
    requires DistinctIds(jobs) && job.id !in IdsOf(jobs)
    ensures AreCopies(db, jobs + [job]) && DistinctIds(jobs + [job])
    ensures IdsOf(jobs + [job]) == IdsOf(jobs) + {job.id}
  {
    var all := jobs + [job];
    assert forall k | 0 <= k < |jobs| :: all[k] == jobs[k];
    assert all[|jobs|] == job;
    assert forall k | 0 <= k < |jobs| :: jobs[k].id in IdsOf(jobs);
  }

  /** Of the rows `locked`, those not in `rest` have been scanned. */
  ghost predicate Scanned(db: Db, locked: set<nat>, ids: seq<nat>, jobs: seq<Job>, rest: set<nat>) {
    && |jobs| <= |ids| && rest <= locked <= db.rows.Keys
    && AreCopies(db, jobs) && DistinctIds(jobs)
    && (forall k | 0 <= k < |jobs| :: ids[k] == jobs[k].id)
    && IdsOf(jobs) == locked - rest
  }

  lemma ScanOne(db: Db, locked: set<nat>, ids: seq<nat>, jobs: seq<Job>, rest: set<nat>, id: nat)
    requires Scanned(db, locked, ids, jobs, rest) && |jobs| < |ids| && id in rest
    ensures Scanned(db, locked, ids[|jobs| := id], jobs + [CopyOf(id, db.rows[id])], rest - {id})
  {
    AppendCopy(db, jobs, CopyOf(id, db.rows[id]));
  }

  lemma GrabNothing(db: Db, conn: nat)
    ensures Apply(db, Grab({}, conn)) == db
  {
    assert Apply(db, Grab({}, conn)).rows == db.rows;
  }

  /** What the launch does to the rows of the jobs, and to no others. */
  lemma LaunchedRows(mid: Db, jobs: seq<Job>, conn: nat)
    requires AreCopies(mid, jobs) && forall j | j in jobs :: mid.rows[j.id].status.Claimed?
    ensures var after := Apply(mid, Grab(IdsOf(jobs), conn));
            && after.rows.Keys == mid.rows.Keys
            && (forall j | j in jobs :: j == CopyOf(j.id, after.rows[j.id])
                  && after.rows[j.id].status == Grabbed && after.rows[j.id].grabber == Some(conn))
            && (forall id | id in after.rows && id !in IdsOf(jobs) :: after.rows[id] == mid.rows[id])
  {
    forall j | j in jobs ensures j.id in IdsOf(jobs) {
      var k :| 0 <= k < |jobs| && jobs[k] == j;
    }
  }

  /** What Pop promises about time when only calm statements interleave. */
  lemma CalmPop(db: Db, now: nat, limit: nat, ids: seq<nat>, env: seq<Statement>, conn: nat, jobs: seq<Job>)
    requires WellFormed(db) && IsPreselection(db, now, limit, ids) && AllCalm(db, now, env)
    requires IdsOf(jobs) == Grabbable(Run(db, env), Elements(ids)) && AreCopies(Run(db, env), jobs)
    ensures forall j | j in jobs :: j.nextTry <= now
    ensures forall id | id in ids && id in Run(db, env).rows :: id in IdsOf(jobs)
    ensures var after := Apply(Run(db, env), Grab(IdsOf(jobs), conn));
            forall j, id | j in jobs && id in after.rows && after.rows[id].status.Claimed? ::
              j.nextTry <= after.rows[id].nextTry
    ensures var mid := Run(db, env);
            forall j, id | j in jobs && id in mid.rows && mid.rows[id].status.Claimed? && id !in IdsOf(jobs) ::
              j.nextTry <= mid.rows[id].nextTry
  {
    PopSelection(db, now, limit, ids, env);
    assert forall j | j in jobs :: j.id in IdsOf(jobs);
  }

  lemma GrabbableFits(db: Db, ids: seq<nat>)
    requires Distinct(ids)
    ensures |Grabbable(db, Elements(ids))| <= |ids|
  {
    ElementsFit(ids);
    SubsetSize(Grabbable(db, Elements(ids)), Elements(ids));
  }

  lemma {:induction false} ElementsFit(ids: seq<nat>)
    ensures |Elements(ids)| <= |ids|
    decreases |ids|
  {
    if ids != [] {
      ElementsFit(ids[1..]);
      assert Elements(ids) == {ids[0]} + Elements(ids[1..]);
    }
  }
}
