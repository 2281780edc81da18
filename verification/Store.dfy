/** The MySQL job table and the statements the queue runs on it.  A statement
    is atomic; `Grab` is the transaction that locks preselected rows with
    SELECT ... FOR UPDATE and launches them. */
module Store {
  import opened Jobs
  import opened Sets

  datatype Status = Claimed | Grabbed

  datatype Row = Row(
    status: Status, grabber: Option<nat>, nextTry: nat, createdAt: nat,
    retry: nat, fail: nat, content: Content)

  /** The table and the next value of its auto-increment key. */
  datatype Db = Db(rows: map<nat, Row>, nextId: nat)

  datatype Statement =
    | Insert(now: nat, job: Incoming)
    | Delete(id: nat)
    | Update(id: nat, now: nat, delay: nat, retry: nat, fail: nat)
    | Grab(ids: set<nat>, conn: nat)
    | Recover(ids: set<nat>, conn: nat)

  function CopyOf(id: nat, r: Row): Job {
    Job(id, r.nextTry, r.createdAt, r.retry, r.fail, r.content)
  }

  /** The rows of `ids` that a lock-and-launch transaction gets. */
  function Grabbable(db: Db, ids: set<nat>): set<nat> {
    set id | id in ids && id in db.rows && db.rows[id].status.Claimed?
  }

  /** Grabbed rows of other connections.  A NULL grabber_id compares unequal to
      nothing, so it takes a non-NULL one to be an orphan. */
  function Orphans(db: Db, conn: nat): set<nat> {
    set id | id in db.rows && IsOrphan(db.rows[id], conn)
  }

  predicate IsOrphan(r: Row, conn: nat) {
    r.status.Grabbed? && r.grabber.Some? && r.grabber.value != conn
  }

  function InsertRow(db: Db, now: nat, job: Incoming): Db {
    var row := Row(Claimed, None, now + job.nextDelay, now, job.retryCount, 0, job.content);
    Db(db.rows[db.nextId := row], db.nextId + 1)
  }

  function DeleteRow(db: Db, id: nat): Db {
    db.(rows := db.rows - {id})
  }

  function UpdateRow(db: Db, id: nat, now: nat, delay: nat, retry: nat, fail: nat): Db {
    if id !in db.rows then db else
    var row := db.rows[id].(
      status := Claimed, grabber := None, nextTry := now + delay, retry := retry, fail := fail);
    db.(rows := db.rows[id := row])
  }

  function GrabRows(db: Db, ids: set<nat>, conn: nat): Db {
    db.(rows := map id | id in db.rows ::
      if id in Grabbable(db, ids)
      then db.rows[id].(status := Grabbed, grabber := Some(conn)) else db.rows[id])
  }

  function RecoverRows(db: Db, ids: set<nat>, conn: nat): Db {
    db.(rows := map id | id in db.rows ::
      if id in ids && id in Orphans(db, conn)
      then db.rows[id].(status := Claimed, grabber := None) else db.rows[id])
  }

  function Apply(db: Db, s: Statement): Db {
    match s
    case Insert(now, job) => InsertRow(db, now, job)
    case Delete(id) => DeleteRow(db, id)
    case Update(id, now, delay, retry, fail) => UpdateRow(db, id, now, delay, retry, fail)
    case Grab(ids, conn) => GrabRows(db, ids, conn)
    case Recover(ids, conn) => RecoverRows(db, ids, conn)
  }

  function Run(db: Db, env: seq<Statement>): Db
    decreases |env|
  {
    if env == [] then db else Run(Apply(db, env[0]), env[1..])
  }

  /** Keys come from the auto-increment counter, and a row is grabbed exactly
      when its grabber_id is not NULL. */
  ghost predicate WellFormed(db: Db) {
    && (forall id | id in db.rows :: id < db.nextId)
    && (forall id | id in db.rows :: db.rows[id].status.Grabbed? <==> db.rows[id].grabber.Some?)
  }

  lemma ApplyKeepsWellFormed(db: Db, s: Statement)
    requires WellFormed(db)
    ensures WellFormed(Apply(db, s))
    ensures db.nextId <= Apply(db, s).nextId
  {
  }

  lemma {:induction false} RunKeepsWellFormed(db: Db, env: seq<Statement>)
    requires WellFormed(db)
    ensures WellFormed(Run(db, env))
    decreases |env|
  {
    if env != [] {
      ApplyKeepsWellFormed(db, env[0]);
      RunKeepsWellFormed(Apply(db, env[0]), env[1..]);
    }
  }

  // ---------- Preselection ----------

  function Due(db: Db, now: nat): set<nat> {
    set id | id in db.rows && db.rows[id].status.Claimed? && db.rows[id].nextTry <= now
  }

  ghost predicate Distinct(ids: seq<nat>) {
    forall i, j | 0 <= i < j < |ids| :: ids[i] != ids[j]
  }

  /** `ids` is an answer to the preselection query: the earliest due rows,
      ties in any order. */
  ghost predicate IsPreselection(db: Db, now: nat, limit: nat, ids: seq<nat>) {
    && Distinct(ids)
    && (forall i | 0 <= i < |ids| :: ids[i] in Due(db, now))
    && |ids| == (if limit <= |Due(db, now)| then limit else |Due(db, now)|)
    && (forall i, j | 0 <= i < j < |ids| :: db.rows[ids[i]].nextTry <= db.rows[ids[j]].nextTry)
    && (forall id, other | id in ids && other in Due(db, now) && other !in ids ::
          db.rows[id].nextTry <= db.rows[other].nextTry)
  }

  /** Nothing due is passed over: every claimed row whose time has come is selected,
      or the limit is reached by rows that are not later. */
  lemma PreselectionIsComplete(db: Db, now: nat, limit: nat, ids: seq<nat>, id: nat)
    requires IsPreselection(db, now, limit, ids)
    requires id in db.rows && db.rows[id].status.Claimed? && db.rows[id].nextTry <= now
    ensures || id in ids
            || (|ids| == limit && forall k | 0 <= k < |ids| ::
                  ids[k] in db.rows && db.rows[ids[k]].nextTry <= db.rows[id].nextTry)
  {
    if id !in ids {
      DistinctCount(ids);
      assert id in Due(db, now) && id !in Elements(ids);
      SubsetSize(Elements(ids) + {id}, Due(db, now));
      assert |ids| == limit;
      forall k | 0 <= k < |ids|
        ensures ids[k] in db.rows && db.rows[ids[k]].nextTry <= db.rows[id].nextTry
      {
        assert ids[k] in ids && ids[k] in Due(db, now);
      }
    }
  }

  function Elements(ids: seq<nat>): set<nat> {
    set id | id in ids
  }

  lemma {:induction false} DistinctCount(ids: seq<nat>)
    requires Distinct(ids)
    ensures |Elements(ids)| == |ids|
    decreases |ids|
  {
    if ids != [] {
      var rest := ids[1..];
      DistinctCount(rest);
      assert ids[0] !in rest;
      assert Elements(ids) == Elements(rest) + {ids[0]};
    }
  }

  /** A statement of another client with one popper and no stale copies: time
      does not run backwards, and only a grabbed row is sent back for a retry. */
  predicate Calm(db: Db, now: nat, s: Statement) {
    match s
    case Insert(t, _) => now <= t
    case Delete(_) => true
    case Update(id, t, _, _, _) => now <= t && (id in db.rows ==> db.rows[id].status.Grabbed?)
    case Grab(_, _) => false
    case Recover(_, _) => false
  }

  predicate AllCalm(db: Db, now: nat, env: seq<Statement>)
    decreases |env|
  {
    env == [] || (Calm(db, now, env[0]) && AllCalm(Apply(db, env[0]), now, env[1..]))
  }

  /** What calm statements do to claimed rows: those of before stay as they are
      or go away, and those that appear are not due before `now`. */
  lemma {:induction false} CalmRun(db: Db, now: nat, env: seq<Statement>)
    requires WellFormed(db) && AllCalm(db, now, env)
    ensures forall id | id in db.rows && db.rows[id].status.Claimed? && id in Run(db, env).rows ::
              Run(db, env).rows[id] == db.rows[id]
    ensures forall id | id in Run(db, env).rows && Run(db, env).rows[id].status.Claimed? ::
              (id in db.rows && db.rows[id].status.Claimed?) || now <= Run(db, env).rows[id].nextTry
    ensures forall id | id in Run(db, env).rows && id !in db.rows :: db.nextId <= id
    ensures db.nextId <= Run(db, env).nextId
    decreases |env|
  {
    if env != [] {
      ApplyKeepsWellFormed(db, env[0]);
      CalmRun(Apply(db, env[0]), now, env[1..]);
    }
  }

  /** Pop selection.  Whatever calm statements run between the preselection and
      the lock, the transaction gets every preselected row that was not deleted,
      unchanged and due, every row that was due and was not deleted unless the limit
      is reached, and no claimed row it leaves behind is earlier. */
  lemma PopSelection(db: Db, now: nat, limit: nat, ids: seq<nat>, env: seq<Statement>)
    requires WellFormed(db) && IsPreselection(db, now, limit, ids) && AllCalm(db, now, env)
    ensures var mid := Run(db, env); var got := Grabbable(mid, set id | id in ids);
            && got == (set id | id in ids && id in mid.rows)
            && (forall id | id in got :: mid.rows[id] == db.rows[id] && mid.rows[id].nextTry <= now)
            && (forall id | id in db.rows && db.rows[id].status.Claimed? && db.rows[id].nextTry <= now
                  && id in mid.rows :: id in got || |ids| == limit)
            && (forall id, other | id in got && other in mid.rows && other !in got
                  && mid.rows[other].status.Claimed? ::
                  mid.rows[id].nextTry <= mid.rows[other].nextTry)
  {
    CalmRun(db, now, env);
    var mid := Run(db, env);
    var got := Grabbable(mid, set id | id in ids);
    forall id, other | id in got && other in mid.rows && other !in got && mid.rows[other].status.Claimed?
      ensures mid.rows[id].nextTry <= mid.rows[other].nextTry
    {
      assert other !in ids;
      if other in db.rows && db.rows[other].status.Claimed? && db.rows[other].nextTry <= now {
        assert other in Due(db, now);
      }
    }
    forall id | id in db.rows && db.rows[id].status.Claimed? && db.rows[id].nextTry <= now
      ensures id in ids || |ids| == limit
    {
      PreselectionIsComplete(db, now, limit, ids, id);
    }
  }

  predicate Updates(s: Statement, id: nat) {
    s.Update? && s.id == id
  }

  /** The update at `k` is the last one of row `id`. */
  predicate LastUpdate(env: seq<Statement>, k: nat, id: nat) {
    k < |env| && Updates(env[k], id) && forall j | k < j < |env| :: !Updates(env[j], id)
  }

  /** In general, with any statements of any number of clients in between, a
      due row that survives is still due exactly when the last update of it, if
      there is one, set a time that has come. */
  lemma StillDueIff(db: Db, now: nat, env: seq<Statement>, id: nat)
    requires WellFormed(db) && id in Due(db, now) && id in Run(db, env).rows
    ensures Run(db, env).rows[id].nextTry <= now <==>
            forall k: nat | LastUpdate(env, k, id) :: env[k].now + env[k].delay <= now
  {
    if k: nat :| k < |env| && Updates(env[k], id) {
      var last := FindLastUpdate(env, k, id);
      LastUpdateDecides(db, env, last, id);
    } else {
      assert forall s | s in env :: !Updates(s, id);
      UntouchedKeepsTime(db, env, id);
    }
  }

  lemma {:induction false} FindLastUpdate(env: seq<Statement>, k: nat, id: nat) returns (last: nat)
    requires k < |env| && Updates(env[k], id)
    ensures LastUpdate(env, last, id)
    decreases |env| - k
  {
    if j :| k < j < |env| && Updates(env[j], id) {
      last := FindLastUpdate(env, j, id);
    } else {
      last := k;
    }
  }

  lemma {:induction false} LastUpdateDecides(db: Db, env: seq<Statement>, k: nat, id: nat)
    requires WellFormed(db) && id in db.rows && id in Run(db, env).rows && LastUpdate(env, k, id)
    ensures Run(db, env).rows[id].nextTry == env[k].now + env[k].delay
    decreases |env|
  {
    ApplyKeepsWellFormed(db, env[0]);
    SurvivorWasThere(db, env, id);
    if k == 0 {
      assert forall s | s in env[1..] :: !Updates(s, id);
      UntouchedKeepsTime(Apply(db, env[0]), env[1..], id);
    } else {
      assert forall j | k - 1 < j < |env[1..]| :: env[1..][j] == env[j + 1];
      LastUpdateDecides(Apply(db, env[0]), env[1..], k - 1, id);
    }
  }

  lemma {:induction false} UntouchedKeepsTime(db: Db, env: seq<Statement>, id: nat)
    requires WellFormed(db) && id in db.rows && id in Run(db, env).rows
    requires forall s | s in env :: !Updates(s, id)
    ensures Run(db, env).rows[id].nextTry == db.rows[id].nextTry
    decreases |env|
  {
    if env != [] {
      ApplyKeepsWellFormed(db, env[0]);
      SurvivorWasThere(db, env, id);
      assert env[0] in env && forall s | s in env[1..] :: s in env;
      UntouchedKeepsTime(Apply(db, env[0]), env[1..], id);
    }
  }

  lemma SurvivorWasThere(db: Db, env: seq<Statement>, id: nat)
    requires WellFormed(db) && id < db.nextId && env != [] && id in Run(db, env).rows
    ensures id in Apply(db, env[0]).rows
  {
    ApplyKeepsWellFormed(db, env[0]);
    if id !in Apply(db, env[0]).rows {
      GoneStaysGone(Apply(db, env[0]), env[1..], id);
    }
  }

  /** A key that was used and is gone never comes back: neither an update nor a
      recovery creates a row, and keys are not reused. */
  lemma {:induction false} GoneStaysGone(db: Db, env: seq<Statement>, id: nat)
    requires WellFormed(db) && id < db.nextId && id !in db.rows
    ensures id !in Run(db, env).rows
    decreases |env|
  {
    if env != [] {
      ApplyKeepsWellFormed(db, env[0]);
      GoneStaysGone(Apply(db, env[0]), env[1..], id);
    }
  }

  // ---------- Exclusivity ----------

  predicate Resets(s: Statement, id: nat) {
    (s.Update? && s.id == id) || (s.Recover? && id in s.ids)
  }

  /** A launched row is not launched again, by any connection, until an update
      or a recovery of that row. */
  lemma {:induction false} LaunchedOnce(db: Db, env: seq<Statement>, id: nat, ids: set<nat>)
    requires WellFormed(db) && id < db.nextId
    requires id in db.rows ==> db.rows[id].status.Grabbed?
    requires forall s | s in env :: !Resets(s, id)
    ensures id !in Grabbable(Run(db, env), ids)
    ensures id in db.rows && id in Run(db, env).rows ==> Run(db, env).rows[id] == db.rows[id]
    decreases |env|
  {
    if env != [] {
      var next := Apply(db, env[0]);
      ApplyKeepsWellFormed(db, env[0]);
      assert env[0] in env;
      assert forall s | s in env[1..] :: s in env;
      LaunchedOnce(next, env[1..], id, ids);
      if id !in next.rows {
        GoneStaysGone(next, env[1..], id);
      }
    }
  }

  // ---------- Recovery ----------

  /** Recovering all orphans leaves none, and every grabbed row left belongs to
      this connection, because a grabbed row always has a grabber. */
  lemma RecoverAll(db: Db, conn: nat)
    requires WellFormed(db)
    ensures var after := Apply(db, Recover(Orphans(db, conn), conn));
            && Orphans(after, conn) == {}
            && after.rows.Keys == db.rows.Keys
            && (forall id | id in after.rows && after.rows[id].status.Grabbed? ::
                  after.rows[id].grabber == Some(conn) && after.rows[id] == db.rows[id])
            && (forall id | id in db.rows && id !in Orphans(db, conn) :: after.rows[id] == db.rows[id])
            && (forall id | id in db.rows && db.rows[id].grabber.Some? && db.rows[id].grabber.value != conn ::
                  after.rows[id] == db.rows[id].(status := Claimed, grabber := None))
            && (forall id | id in db.rows && (db.rows[id].grabber.None? || db.rows[id].grabber.value == conn) ::
                  after.rows[id] == db.rows[id])
            && (forall id | id in Orphans(db, conn) ::
                  after.rows[id] == db.rows[id].(status := Claimed, grabber := None))
  {
  }

  lemma RecoverKeepsCopies(db: Db, ids: set<nat>, conn: nat)
    ensures RecoverRows(db, ids, conn).rows.Keys == db.rows.Keys
    ensures forall id | id in db.rows ::
              CopyOf(id, RecoverRows(db, ids, conn).rows[id]) == CopyOf(id, db.rows[id])
  {
  }

  /** Two batches make one. */
  lemma RecoverBatches(db: Db, conn: nat, a: set<nat>, b: set<nat>)
    ensures Apply(Apply(db, Recover(a, conn)), Recover(b, conn)) == Apply(db, Recover(a + b, conn))
  {
    assert Apply(Apply(db, Recover(a, conn)), Recover(b, conn)).rows
        == Apply(db, Recover(a + b, conn)).rows;
  }

  lemma RecoverBatchShrinks(db: Db, conn: nat, a: set<nat>)
    requires a <= Orphans(db, conn)
    ensures Orphans(Apply(db, Recover(a, conn)), conn) == Orphans(db, conn) - a
    ensures |Orphans(Apply(db, Recover(a, conn)), conn)| == |Orphans(db, conn)| - |a|
  {
    assert Orphans(Apply(db, Recover(a, conn)), conn) == Orphans(db, conn) - a;
  }
}
