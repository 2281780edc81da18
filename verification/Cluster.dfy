/** A cluster of nodes over one job table: every interleaving of pushes, pops,
    completions, recoveries, elections, lost sessions, lost replies and crashes. */
module Cluster {
  import opened Jobs
  import opened Store
  import Election

  datatype Popping = Idle | Checked | Selected(ids: set<nat>)

  /** A job that a node has given up and is about to delete, and whether it got
      into the failure log. */
  datatype Verdict = Verdict(job: Job, result: Result, logged: bool)

  /** What one process holds in memory.  `held` are the copies handed out by Pop
      and not completed yet; they may be stale. */
  datatype Member = Member(
    conn: Option<nat>, popping: Popping, picked: set<nat>,
    held: multiset<Job>, doomed: multiset<Verdict>)

  const FRESH := Member(None, Idle, {}, multiset{}, multiset{})

  datatype Cause = Completed(job: Job, result: Result, logged: bool) | Discarded

  datatype Entry = Entry(job: Job, result: Result, failCount: nat)

  /** What happened so far: the jobs pushed, why rows were removed, the failure
      log, and per job how often it was handed out, how often its row went from
      grabbed back to claimed by an update and by a recovery, and how often a
      launch was not committed. */
  datatype Ledger = Ledger(
    pushed: map<nat, Incoming>, removed: map<nat, Cause>, log: seq<Entry>,
    handed: map<nat, nat>, retried: map<nat, nat>, recovered: map<nat, nat>, uncommitted: map<nat, nat>)

  datatype State = State(db: Db, members: map<nat, Member>, election: Election.State, ledger: Ledger)

  const INITIAL := State(
    Db(map[], 1), map[], Election.INITIAL, Ledger(map[], map[], [], map[], map[], map[], map[]))

  datatype Step =
    | Push(now: nat, incoming: Incoming)
    | CheckActive(n: nat)
    | Preselect(n: nat, now: nat, limit: nat, ids: seq<nat>)
    | Launch(n: nat, committed: bool)
    | EndPop(n: nat)
    | Complete(n: nat, job: Job, result: Result, now: nat, logged: bool)
    | Expunge(n: nat, verdict: Verdict)
    | Drop(n: nat, job: Job)
    | DropVerdict(n: nat, verdict: Verdict)
    | Discard(id: nat)
    | PickOrphans(n: nat, orphans: set<nat>)
    | RecoverPicked(n: nat)
    | Open(n: nat)
    | Close(n: nat)
    | Join(n: nat)
    | Fall(n: nat)
    | Elect(e: Election.Step)

  ghost predicate Enabled(s: State, step: Step) {
    match step
    case Push(_, _) => true
    case Discard(_) => true
    case Join(n) => n !in s.members && Election.Enabled(s.election, Election.Start(n))
    case Elect(e) => !e.Start? && !e.Crash? && Election.Enabled(s.election, e)
    case Fall(n) => n in s.members && Election.Enabled(s.election, Election.Crash(n))
    case CheckActive(n) =>
      && n in s.members && s.members[n].popping.Idle?
      && n in s.election.nodes && s.election.nodes[n].active == 1
    case Preselect(n, now, limit, ids) =>
      && n in s.members && s.members[n].popping.Checked? && s.members[n].conn.Some?
      && IsPreselection(s.db, now, limit, ids)
    case Launch(n, _) => n in s.members && s.members[n].popping.Selected? && s.members[n].conn.Some?
    case EndPop(n) => n in s.members
    case Complete(n, job, _, _, _) => n in s.members && job in s.members[n].held
    case Expunge(n, v) => n in s.members && v in s.members[n].doomed
    case Drop(n, job) => n in s.members && job in s.members[n].held
    case DropVerdict(n, v) => n in s.members && v in s.members[n].doomed
    case PickOrphans(n, ids) =>
      && n in s.members && s.members[n].conn.Some?
      && n in s.election.nodes && s.election.nodes[n].pc.Activating?
      && ids <= Orphans(s.db, s.members[n].conn.value) && |ids| <= 1000
    case RecoverPicked(n) =>
      && n in s.members && s.members[n].conn.Some?
      && n in s.election.nodes && s.election.nodes[n].pc.Activating?
    case Open(n) => n in s.members && s.members[n].conn.None?
    case Close(n) => n in s.members
  }

  function Count(m: map<nat, nat>, id: nat): nat {
    if id in m then m[id] else 0
  }

  /** One more for each of `ids`. */
  function Tally(m: map<nat, nat>, ids: set<nat>): map<nat, nat> {
    map id | id in m.Keys + ids :: Count(m, id) + if id in ids then 1 else 0
  }

  function Copies(db: Db, ids: set<nat>): multiset<Job>
    requires ids <= db.rows.Keys
  {
    multiset(set id | id in ids :: CopyOf(id, db.rows[id]))
  }

  function Put(s: State, n: nat, m: Member): State {
    s.(members := s.members[n := m])
  }

  /** Deletes a row; the ledger notes the cause if there was one to delete. */
  function Remove(s: State, id: nat, cause: Cause): State {
    if id !in s.db.rows then s else
    s.(db := DeleteRow(s.db, id), ledger := s.ledger.(removed := s.ledger.removed[id := cause]))
  }

  /** Rows of `ids` that are grabbed, hence sent back by an update. */
  function GrabbedAmong(db: Db, ids: set<nat>): set<nat> {
    set id | id in ids && id in db.rows && db.rows[id].status.Grabbed?
  }

  ghost function Do(s: State, step: Step): State
    requires Enabled(s, step)
  {
    match step
    case Push(now, job) => DoPush(s, now, job)
    case Discard(id) => Remove(s, id, Discarded)
    case Join(n) =>
      Put(s, n, FRESH).(election := Election.Do(s.election, Election.Start(n)))
    case Elect(e) => s.(election := Election.Do(s.election, e))
    case Fall(n) =>
      Put(s, n, FRESH).(election := Election.Do(s.election, Election.Crash(n)))
    case CheckActive(n) => Put(s, n, s.members[n].(popping := Checked))
    case Preselect(n, _, _, ids) => Put(s, n, s.members[n].(popping := Selected(set id | id in ids)))
    case Launch(n, committed) => DoLaunch(s, n, committed)
    case EndPop(n) => Put(s, n, s.members[n].(popping := Idle))
    case Complete(n, job, result, now, logged) => DoComplete(s, n, job, result, now, logged)
    case Expunge(n, v) => DoExpunge(s, n, v)
    case Drop(n, job) => Put(s, n, s.members[n].(held := s.members[n].held - multiset{job}))
    case DropVerdict(n, v) => Put(s, n, s.members[n].(doomed := s.members[n].doomed - multiset{v}))
    case PickOrphans(n, ids) => Put(s, n, s.members[n].(picked := ids))
    case RecoverPicked(n) => DoRecover(s, n)
    case Open(n) =>
      var c := s.election.nextSession;
      Put(s, n, s.members[n].(conn := Some(c))).(
        election := s.election.(live := s.election.live + {c}, nextSession := c + 1))
    case Close(n) => Put(s, n, s.members[n].(conn := None))
  }

  function DoPush(s: State, now: nat, job: Incoming): State {
    s.(db := InsertRow(s.db, now, job),
       ledger := s.ledger.(pushed := s.ledger.pushed[s.db.nextId := job]))
  }

  function DoExpunge(s: State, n: nat, v: Verdict): State
    requires n in s.members
  {
    var m := s.members[n];
    Remove(Put(s, n, m.(doomed := m.doomed - multiset{v})), v.job.id, Completed(v.job, v.result, v.logged))
  }

  function DoRecover(s: State, n: nat): State
    requires n in s.members && s.members[n].conn.Some?
  {
    var m := s.members[n];
    var back := m.picked * Orphans(s.db, m.conn.value);
    Put(s, n, m.(picked := {})).(
      db := RecoverRows(s.db, m.picked, m.conn.value),
      ledger := s.ledger.(recovered := Tally(s.ledger.recovered, back)))
  }

  /** The lock-and-launch transaction.  Pop does not look at the result of the
      commit, so the jobs are handed out even when the launch is rolled back. */
  function DoLaunch(s: State, n: nat, committed: bool): State
    requires n in s.members && s.members[n].popping.Selected? && s.members[n].conn.Some?
  {
    var m := s.members[n];
    var got := Grabbable(s.db, m.popping.ids);
    var t := Put(s, n, m.(popping := Idle, held := m.held + Copies(s.db, got)));
    var ledger := s.ledger.(handed := Tally(s.ledger.handed, got));
    if committed then
      t.(db := GrabRows(s.db, m.popping.ids, m.conn.value), ledger := ledger)
    else
      t.(ledger := ledger.(uncommitted := Tally(ledger.uncommitted, got)))
  }

  function DoComplete(s: State, n: nat, job: Job, result: Result, now: nat, logged: bool): State
    requires n in s.members
  {
    var t := Release(s, n, job);
    match OutcomeOf(job.retry, result)
    case Succeeded => Remove(t, job.id, Completed(job, result, logged))
    case GaveUp => DoGiveUp(t, n, job, result, logged)
    case Retried => DoRetry(t, job, now, NextDelay(job.content.retryDelay))
  }

  /** The failure log swallows the error of its insertion, so the job is about to
      be deleted whether it got into the log or not. */
  function DoGiveUp(s: State, n: nat, job: Job, result: Result, logged: bool): State
    requires n in s.members
  {
    var m := s.members[n];
    Put(s, n, m.(doomed := m.doomed + multiset{Verdict(job, result, logged)})).(
      ledger := s.ledger.(log := s.ledger.log + if logged then [Entry(job, result, job.fail + 1)] else []))
  }

  function DoRetry(s: State, job: Job, now: nat, delay: nat): State
    requires job.retry > 0
  {
    s.(db := UpdateRow(s.db, job.id, now, delay, job.retry - 1, job.fail + 1),
       ledger := s.ledger.(retried := Tally(s.ledger.retried, GrabbedAmong(s.db, {job.id}))))
  }

  // ---------- Invariants ----------

  /** Every pushed id is a row or was removed, never both. */
  ghost predicate Accounted(s: State) {
    && WellFormed(s.db)
    && (forall id :: id in s.ledger.pushed <==> id in s.db.rows || id in s.ledger.removed)
    && (forall id | id in s.db.rows :: id !in s.ledger.removed)
    && (forall id | id in s.ledger.pushed :: id < s.db.nextId)
  }

  /** A copy carries what was pushed, and its counts add up to the retries it
      was pushed with. */
  predicate Fits(pushed: map<nat, Incoming>, job: Job) {
    && job.id in pushed
    && job.retry + job.fail == pushed[job.id].retryCount
    && job.content == pushed[job.id].content
  }

  ghost predicate Budget(s: State) {
    && (forall id | id in s.db.rows :: Fits(s.ledger.pushed, CopyOf(id, s.db.rows[id])))
    && (forall n, job | n in s.members && job in s.members[n].held :: Fits(s.ledger.pushed, job))
    && (forall n, v | n in s.members && v in s.members[n].doomed :: Fits(s.ledger.pushed, v.job))
  }

  predicate EntryOk(pushed: map<nat, Incoming>, e: Entry) {
    Fits(pushed, e.job) && e.failCount == e.job.fail + 1 && OutcomeOf(e.job.retry, e.result) == GaveUp
  }

  predicate CauseOk(ledger: Ledger, id: nat, cause: Cause) {
    cause.Completed? ==>
      && cause.job.id == id && Fits(ledger.pushed, cause.job)
      && !OutcomeOf(cause.job.retry, cause.result).Retried?
      && (OutcomeOf(cause.job.retry, cause.result).GaveUp? && cause.logged ==>
            Entry(cause.job, cause.result, cause.job.fail + 1) in ledger.log)
  }

  /** The failure log: a job given up is logged before it is removed, unless the
      insertion failed. */
  ghost predicate Logged(s: State) {
    && (forall e | e in s.ledger.log :: EntryOk(s.ledger.pushed, e))
    && (forall n, v | n in s.members && v in s.members[n].doomed ::
          && OutcomeOf(v.job.retry, v.result).GaveUp?
          && (v.logged ==> Entry(v.job, v.result, v.job.fail + 1) in s.ledger.log))
    && (forall id | id in s.ledger.removed :: CauseOk(s.ledger, id, s.ledger.removed[id]))
  }

  /** How often a job was handed out: once per return to the claimed state, plus
      once if it is out now, plus once per launch that was not committed. */
  ghost predicate Delivered(s: State) {
    && (forall id | id in s.db.rows ::
          Count(s.ledger.handed, id)
          == Count(s.ledger.retried, id) + Count(s.ledger.recovered, id) + Count(s.ledger.uncommitted, id)
            + if s.db.rows[id].status.Grabbed? then 1 else 0)
    && (forall id | id !in s.ledger.pushed ::
          Count(s.ledger.handed, id) == Count(s.ledger.retried, id)
          == Count(s.ledger.recovered, id) == Count(s.ledger.uncommitted, id) == 0)
  }

  /** Failures are only counted for jobs that were handed out. */
  ghost predicate Attempted(s: State) {
    && (forall id | id in s.db.rows :: s.db.rows[id].fail <= Count(s.ledger.handed, id))
    && (forall n, job | n in s.members && job in s.members[n].held ::
          job.Attempt() <= Count(s.ledger.handed, job.id))
  }

  /** All of it but the election. */
  ghost predicate JobsOk(s: State) {
    Accounted(s) && Budget(s) && Logged(s) && Delivered(s) && Attempted(s)
  }

  ghost predicate Inv(s: State) {
    JobsOk(s) && Election.Inv(s.election)
  }

  lemma InitialInv()
    ensures Inv(INITIAL)
  {
  }

  /** The table and the ledger stay, and nobody holds more than before. */
  ghost predicate Quiet(s: State, t: State) {
    && t.db == s.db && t.ledger == s.ledger
    && (forall n, job | n in t.members && job in t.members[n].held ::
          n in s.members && job in s.members[n].held)
    && (forall n, v | n in t.members && v in t.members[n].doomed ::
          n in s.members && v in s.members[n].doomed)
  }

  lemma QuietKeepsJobsOk(s: State, t: State)
    requires JobsOk(s) && Quiet(s, t)
    ensures JobsOk(t)
  {
  }

  /** Steps that write to the job table or to the failure log. */
  predicate Effective(step: Step) {
    step.Push? || step.Launch? || step.Complete? || step.Expunge? || step.Discard? || step.RecoverPicked?
  }

  lemma QuietSteps(s: State, step: Step)
    requires Enabled(s, step)
    requires !Effective(step)
    ensures Quiet(s, Do(s, step))
  {
    if !step.Elect? {
      QuietMember(s, Do(s, step), step.n);
    }
  }

  /** One member changes, and holds no more than before. */
  lemma QuietMember(s: State, t: State, n: nat)
    requires t.db == s.db && t.ledger == s.ledger && n in t.members && t.members == s.members[n := t.members[n]]
    requires if n in s.members
             then t.members[n].held <= s.members[n].held && t.members[n].doomed <= s.members[n].doomed
             else t.members[n].held == multiset{} && t.members[n].doomed == multiset{}
    ensures Quiet(s, t)
  {
  }

  // A push.

  lemma PushKeepsJobsOk(s: State, now: nat, job: Incoming)
    requires JobsOk(s)
    ensures JobsOk(DoPush(s, now, job))
  {
    PushKeepsTable(s, now, job);
    PushKeepsLedger(s, now, job);
  }

  lemma PushKeepsTable(s: State, now: nat, job: Incoming)
    requires JobsOk(s)
    ensures Accounted(DoPush(s, now, job)) && Budget(DoPush(s, now, job))
  {
    ApplyKeepsWellFormed(s.db, Insert(now, job));
    assert s.db.nextId !in s.ledger.pushed;
    PushKeepsBudget(s, now, job);
  }

  lemma PushKeepsBudget(s: State, now: nat, job: Incoming)
    requires Budget(s) && s.db.nextId !in s.ledger.pushed
    ensures Budget(DoPush(s, now, job))
  {
    var t := DoPush(s, now, job);
    assert forall j: Job | Fits(s.ledger.pushed, j) :: Fits(t.ledger.pushed, j);
    forall id | id in t.db.rows ensures Fits(t.ledger.pushed, CopyOf(id, t.db.rows[id])) {
      assert id in s.db.rows ==> Fits(s.ledger.pushed, CopyOf(id, s.db.rows[id]));
    }
    assert t.members == s.members;
  }

  lemma PushKeepsLedger(s: State, now: nat, job: Incoming)
    requires JobsOk(s)
    ensures Logged(DoPush(s, now, job)) && Delivered(DoPush(s, now, job)) && Attempted(DoPush(s, now, job))
  {
    assert s.db.nextId !in s.ledger.pushed;
    PushKeepsLogged(s, now, job);
    PushKeepsDelivered(s, now, job);
    PushKeepsAttempted(s, now, job);
  }

  lemma PushKeepsLogged(s: State, now: nat, job: Incoming)
    requires Logged(s) && s.db.nextId !in s.ledger.pushed
    ensures Logged(DoPush(s, now, job))
  {
    var t := DoPush(s, now, job);
    assert forall j: Job | Fits(s.ledger.pushed, j) :: Fits(t.ledger.pushed, j);
    assert forall e | e in s.ledger.log :: EntryOk(s.ledger.pushed, e);
    forall id | id in t.ledger.removed ensures CauseOk(t.ledger, id, t.ledger.removed[id]) {
      assert CauseOk(s.ledger, id, s.ledger.removed[id]);
    }
  }

  lemma PushKeepsDelivered(s: State, now: nat, job: Incoming)
    requires Delivered(s) && s.db.nextId !in s.ledger.pushed
    ensures Delivered(DoPush(s, now, job))
  {
  }

  lemma PushKeepsAttempted(s: State, now: nat, job: Incoming)
    requires Attempted(s)
    ensures Attempted(DoPush(s, now, job))
  {
  }

  // A removal.

  lemma RemoveKeepsJobsOk(s: State, id: nat, cause: Cause)
    requires JobsOk(s) && CauseOk(s.ledger, id, cause)
    ensures JobsOk(Remove(s, id, cause))
  {
    RemoveKeepsAccounted(s, id, cause);
    RemoveKeepsBudget(s, id, cause);
    RemoveKeepsLogged(s, id, cause);
  }

  lemma RemoveKeepsAccounted(s: State, id: nat, cause: Cause)
    requires Accounted(s)
    ensures Accounted(Remove(s, id, cause))
  {
  }

  lemma RemoveKeepsBudget(s: State, id: nat, cause: Cause)
    requires Budget(s) && Delivered(s) && Attempted(s)
    ensures Budget(Remove(s, id, cause)) && Delivered(Remove(s, id, cause)) && Attempted(Remove(s, id, cause))
  {
  }

  lemma RemoveKeepsLogged(s: State, id: nat, cause: Cause)
    requires Logged(s) && CauseOk(s.ledger, id, cause)
    ensures Logged(Remove(s, id, cause))
  {
    var t := Remove(s, id, cause);
    assert forall x | x in t.ledger.removed && x != id :: x in s.ledger.removed;
  }

  /** Steps that change rows in place: the parts about ids and the log follow. */
  lemma InPlaceKeeps(s: State, t: State)
    requires Accounted(s) && Logged(s) && WellFormed(t.db)
    requires t.db.rows.Keys == s.db.rows.Keys && t.db.nextId == s.db.nextId
    requires t.ledger.pushed == s.ledger.pushed && t.ledger.removed == s.ledger.removed && t.ledger.log == s.ledger.log
    requires t.members.Keys == s.members.Keys
    requires forall n | n in s.members :: t.members[n].doomed == s.members[n].doomed
    ensures Accounted(t) && Logged(t)
  {
  }

  // A launch.

  lemma LaunchKeepsJobsOk(s: State, n: nat, committed: bool)
    requires JobsOk(s) && n in s.members && s.members[n].popping.Selected? && s.members[n].conn.Some?
    ensures JobsOk(DoLaunch(s, n, committed))
  {
    var t := DoLaunch(s, n, committed);
    ApplyKeepsWellFormed(s.db, Grab(s.members[n].popping.ids, s.members[n].conn.value));
    InPlaceKeeps(s, t);
    LaunchEffect(s, n, committed);
    LaunchKeepsBudget(s, n, committed);
    LaunchKeepsAttempted(s, n, committed);
    LaunchKeepsDelivered(s, n, committed);
  }

  ghost function Got(s: State, n: nat): set<nat>
    requires n in s.members && s.members[n].popping.Selected?
  {
    Grabbable(s.db, s.members[n].popping.ids)
  }

  lemma LaunchEffect(s: State, n: nat, committed: bool)
    requires n in s.members && s.members[n].popping.Selected? && s.members[n].conn.Some?
    ensures var t := DoLaunch(s, n, committed);
            && t.db.rows.Keys == s.db.rows.Keys
            && (forall id | id in s.db.rows ::
                  && CopyOf(id, t.db.rows[id]) == CopyOf(id, s.db.rows[id])
                  && (t.db.rows[id].status.Grabbed? <==>
                        s.db.rows[id].status.Grabbed? || (committed && id in Got(s, n))))
            && (forall id ::
                  && Count(t.ledger.handed, id) == Count(s.ledger.handed, id) + (if id in Got(s, n) then 1 else 0)
                  && Count(t.ledger.uncommitted, id)
                     == Count(s.ledger.uncommitted, id) + (if !committed && id in Got(s, n) then 1 else 0))
            && t.ledger.retried == s.ledger.retried && t.ledger.recovered == s.ledger.recovered
  {
  }

  lemma HeldAfterLaunch(s: State, n: nat, committed: bool, m: nat, job: Job)
    requires n in s.members && s.members[n].popping.Selected? && s.members[n].conn.Some?
    requires m in s.members && job in DoLaunch(s, n, committed).members[m].held
    ensures job in s.members[m].held || (job.id in Got(s, n) && job == CopyOf(job.id, s.db.rows[job.id]))
  {
    if job !in s.members[m].held {
      assert job in Copies(s.db, Got(s, n));
    }
  }

  lemma LaunchKeepsBudget(s: State, n: nat, committed: bool)
    requires Budget(s) && n in s.members && s.members[n].popping.Selected? && s.members[n].conn.Some?
    ensures Budget(DoLaunch(s, n, committed))
  {
    var t := DoLaunch(s, n, committed);
    LaunchEffect(s, n, committed);
    forall m, job | m in t.members && job in t.members[m].held ensures Fits(s.ledger.pushed, job) {
      HeldAfterLaunch(s, n, committed, m, job);
    }
    forall id | id in t.db.rows ensures Fits(s.ledger.pushed, CopyOf(id, t.db.rows[id])) {
      assert CopyOf(id, t.db.rows[id]) == CopyOf(id, s.db.rows[id]);
    }
    assert forall m | m in t.members :: t.members[m].doomed == s.members[m].doomed;
  }

  lemma LaunchKeepsAttempted(s: State, n: nat, committed: bool)
    requires Attempted(s) && n in s.members && s.members[n].popping.Selected? && s.members[n].conn.Some?
    ensures Attempted(DoLaunch(s, n, committed))
  {
    var t := DoLaunch(s, n, committed);
    LaunchEffect(s, n, committed);
    forall m, job | m in t.members && job in t.members[m].held
      ensures job.Attempt() <= Count(t.ledger.handed, job.id)
    {
      HeldAfterLaunch(s, n, committed, m, job);
    }
    forall id | id in t.db.rows ensures t.db.rows[id].fail <= Count(t.ledger.handed, id) {
      assert CopyOf(id, t.db.rows[id]).fail == CopyOf(id, s.db.rows[id]).fail;
    }
  }

  lemma LaunchKeepsDelivered(s: State, n: nat, committed: bool)
    requires Accounted(s) && Delivered(s) && n in s.members && s.members[n].popping.Selected? && s.members[n].conn.Some?
    ensures Delivered(DoLaunch(s, n, committed))
  {
    LaunchEffect(s, n, committed);
    assert forall id | id in Got(s, n) :: id in s.db.rows && id in s.ledger.pushed;
  }

  // A completion.

  /** The node lets go of a copy. */
  function Release(s: State, n: nat, job: Job): State
    requires n in s.members
  {
    Put(s, n, s.members[n].(held := s.members[n].held - multiset{job}))
  }

  lemma ReleaseKeepsJobsOk(s: State, n: nat, job: Job)
    requires JobsOk(s) && n in s.members && job in s.members[n].held
    ensures JobsOk(Release(s, n, job))
    ensures Fits(s.ledger.pushed, job) && job.Attempt() <= Count(s.ledger.handed, job.id)
  {
    QuietMember(s, Release(s, n, job), n);
    QuietKeepsJobsOk(s, Release(s, n, job));
  }

  lemma CompleteKeepsJobsOk(s: State, n: nat, job: Job, result: Result, now: nat, logged: bool)
    requires JobsOk(s) && n in s.members && job in s.members[n].held
    ensures JobsOk(DoComplete(s, n, job, result, now, logged))
  {
    var t := Release(s, n, job);
    ReleaseKeepsJobsOk(s, n, job);
    match OutcomeOf(job.retry, result)
    case Succeeded => RemoveKeepsJobsOk(t, job.id, Completed(job, result, logged));
    case GaveUp => GiveUpKeepsJobsOk(t, n, job, result, logged);
    case Retried => RetryKeepsJobsOk(t, job, now, NextDelay(job.content.retryDelay));
  }

  lemma GiveUpKeepsJobsOk(s: State, n: nat, job: Job, result: Result, logged: bool)
    requires JobsOk(s) && n in s.members && Fits(s.ledger.pushed, job)
    requires OutcomeOf(job.retry, result).GaveUp?
    ensures JobsOk(DoGiveUp(s, n, job, result, logged))
  {
    GiveUpKeepsLogged(s, n, job, result, logged);
    GiveUpKeepsBudget(s, n, job, result, logged);
  }

  lemma GiveUpKeepsLogged(s: State, n: nat, job: Job, result: Result, logged: bool)
    requires Logged(s) && n in s.members && Fits(s.ledger.pushed, job)
    requires OutcomeOf(job.retry, result).GaveUp?
    ensures Logged(DoGiveUp(s, n, job, result, logged))
  {
    var t := DoGiveUp(s, n, job, result, logged);
    var entry := Entry(job, result, job.fail + 1);
    AppendToLog(s.ledger.log, entry, logged);
    forall m, v | m in t.members && v in t.members[m].doomed
      ensures OutcomeOf(v.job.retry, v.result).GaveUp?
      ensures v.logged ==> Entry(v.job, v.result, v.job.fail + 1) in t.ledger.log
    {
      assert v in s.members[m].doomed || v == Verdict(job, result, logged);
    }
    forall id | id in t.ledger.removed ensures CauseOk(t.ledger, id, t.ledger.removed[id]) {
      assert CauseOk(s.ledger, id, s.ledger.removed[id]);
    }
  }

  lemma AppendToLog(log: seq<Entry>, entry: Entry, logged: bool)
    ensures var t := log + if logged then [entry] else [];
            forall e :: e in t <==> e in log || (logged && e == entry)
  {
  }

  lemma GiveUpKeepsBudget(s: State, n: nat, job: Job, result: Result, logged: bool)
    requires Budget(s) && Attempted(s) && n in s.members && Fits(s.ledger.pushed, job)
    ensures Budget(DoGiveUp(s, n, job, result, logged)) && Attempted(DoGiveUp(s, n, job, result, logged))
  {
  }

  lemma RetryKeepsJobsOk(s: State, job: Job, now: nat, delay: nat)
    requires JobsOk(s) && job.retry > 0
    requires Fits(s.ledger.pushed, job) && job.Attempt() <= Count(s.ledger.handed, job.id)
    ensures JobsOk(DoRetry(s, job, now, delay))
  {
    RetryKeepsAccounted(s, job, now, delay);
    RetryKeepsDelivered(s, job, now, delay);
    RetryKeepsBudget(s, job, now, delay);
  }

  lemma RetryKeepsAccounted(s: State, job: Job, now: nat, delay: nat)
    requires Accounted(s) && Logged(s) && job.retry > 0
    ensures Accounted(DoRetry(s, job, now, delay)) && Logged(DoRetry(s, job, now, delay))
  {
    ApplyKeepsWellFormed(s.db, Update(job.id, now, delay, job.retry - 1, job.fail + 1));
    InPlaceKeeps(s, DoRetry(s, job, now, delay));
  }

  lemma RetryKeepsBudget(s: State, job: Job, now: nat, delay: nat)
    requires Budget(s) && Attempted(s) && job.retry > 0
    requires Fits(s.ledger.pushed, job) && job.Attempt() <= Count(s.ledger.handed, job.id)
    ensures Budget(DoRetry(s, job, now, delay)) && Attempted(DoRetry(s, job, now, delay))
  {
    var t := DoRetry(s, job, now, delay);
    assert forall id | id in t.db.rows && id != job.id :: t.db.rows[id] == s.db.rows[id];
    assert job.id in t.db.rows ==>
        t.db.rows[job.id].content == s.db.rows[job.id].content == s.ledger.pushed[job.id].content by {
      if job.id in s.db.rows { assert Fits(s.ledger.pushed, CopyOf(job.id, s.db.rows[job.id])); }
    }
  }

  lemma RetryKeepsDelivered(s: State, job: Job, now: nat, delay: nat)
    requires Accounted(s) && Delivered(s) && job.retry > 0
    ensures Delivered(DoRetry(s, job, now, delay))
  {
  }

  // A recovery batch.

  lemma RecoverKeepsJobsOk(s: State, n: nat)
    requires JobsOk(s) && n in s.members && s.members[n].conn.Some?
    ensures JobsOk(DoRecover(s, n))
  {
    ApplyKeepsWellFormed(s.db, Recover(s.members[n].picked, s.members[n].conn.value));
    InPlaceKeeps(s, DoRecover(s, n));
    RecoverKeepsDelivered(s, n);
    RecoverKeepsBudget(s, n);
  }

  lemma RecoverKeepsBudget(s: State, n: nat)
    requires Budget(s) && Attempted(s) && n in s.members && s.members[n].conn.Some?
    ensures Budget(DoRecover(s, n)) && Attempted(DoRecover(s, n))
  {
    RecoverKeepsCopies(s.db, s.members[n].picked, s.members[n].conn.value);
    SameCopiesKeepBudget(s, DoRecover(s, n));
  }

  lemma SameCopiesKeepBudget(s: State, t: State)
    requires Budget(s) && Attempted(s) && t.members.Keys == s.members.Keys
    requires t.ledger.pushed == s.ledger.pushed && t.ledger.handed == s.ledger.handed
    requires forall n | n in s.members ::
               t.members[n].held == s.members[n].held && t.members[n].doomed == s.members[n].doomed
    requires forall id | id in t.db.rows ::
               id in s.db.rows && CopyOf(id, t.db.rows[id]) == CopyOf(id, s.db.rows[id])
    ensures Budget(t) && Attempted(t)
  {
    assert forall id | id in t.db.rows :: CopyOf(id, t.db.rows[id]).fail == CopyOf(id, s.db.rows[id]).fail;
  }

  lemma RecoverKeepsDelivered(s: State, n: nat)
    requires Accounted(s) && Delivered(s) && n in s.members && s.members[n].conn.Some?
    ensures Delivered(DoRecover(s, n))
  {
    var m := s.members[n];
    assert forall id | id in m.picked * Orphans(s.db, m.conn.value) :: id in s.db.rows;
  }

  // ---------- Runs ----------

  lemma StepKeepsInv(s: State, step: Step)
    requires Inv(s) && Enabled(s, step)
    ensures Inv(Do(s, step))
  {
    StepKeepsJobsOk(s, step);
    StepKeepsElection(s, step);
  }

  lemma StepKeepsJobsOk(s: State, step: Step)
    requires JobsOk(s) && Enabled(s, step)
    ensures JobsOk(Do(s, step))
  {
    match step
    case Push(now, job) => PushKeepsJobsOk(s, now, job);
    case Discard(id) => RemoveKeepsJobsOk(s, id, Discarded);
    case Launch(n, committed) => LaunchKeepsJobsOk(s, n, committed);
    case Complete(n, job, result, now, logged) => CompleteKeepsJobsOk(s, n, job, result, now, logged);
    case Expunge(n, v) => ExpungeKeepsJobsOk(s, n, v);
    case RecoverPicked(n) => RecoverKeepsJobsOk(s, n);
    case _ =>
      QuietSteps(s, step);
      QuietKeepsJobsOk(s, Do(s, step));
  }

  lemma ExpungeKeepsJobsOk(s: State, n: nat, v: Verdict)
    requires JobsOk(s) && n in s.members && v in s.members[n].doomed
    ensures JobsOk(DoExpunge(s, n, v))
  {
    var t := Put(s, n, s.members[n].(doomed := s.members[n].doomed - multiset{v}));
    ForgetVerdict(s, n, v);
    QuietKeepsJobsOk(s, t);
    VerdictIsCause(s, n, v);
    RemoveKeepsJobsOk(t, v.job.id, Completed(v.job, v.result, v.logged));
  }

  lemma ForgetVerdict(s: State, n: nat, v: Verdict)
    requires n in s.members
    ensures Quiet(s, Put(s, n, s.members[n].(doomed := s.members[n].doomed - multiset{v})))
  {
  }

  lemma VerdictIsCause(s: State, n: nat, v: Verdict)
    requires Budget(s) && Logged(s) && n in s.members && v in s.members[n].doomed
    ensures CauseOk(s.ledger, v.job.id, Completed(v.job, v.result, v.logged))
  {
    assert Fits(s.ledger.pushed, v.job);
  }

  lemma StepKeepsElection(s: State, step: Step)
    requires Election.Inv(s.election) && Enabled(s, step)
    ensures Election.Inv(Do(s, step).election)
  {
    match step
    case Join(n) => Election.StepKeepsInv(s.election, Election.Start(n));
    case Fall(n) => Election.StepKeepsInv(s.election, Election.Crash(n));
    case Elect(e) => Election.StepKeepsInv(s.election, e);
    case Open(n) => Election.ConnectElsewhere(s.election);
    case _ =>
  }

  ghost predicate Feasible(s: State, steps: seq<Step>)
    decreases |steps|
  {
    steps == [] || (Enabled(s, steps[0]) && Feasible(Do(s, steps[0]), steps[1..]))
  }

  ghost function After(s: State, steps: seq<Step>): State
    requires Feasible(s, steps)
    decreases |steps|
  {
    if steps == [] then s else After(Do(s, steps[0]), steps[1..])
  }

  lemma {:induction false} RunKeepsInv(s: State, steps: seq<Step>)
    requires Inv(s) && Feasible(s, steps)
    ensures Inv(After(s, steps))
    decreases |steps|
  {
    if steps != [] {
      StepKeepsInv(s, steps[0]);
      RunKeepsInv(Do(s, steps[0]), steps[1..]);
    }
  }

  /** No job is lost: in every run, a pushed job is a row, or it was removed
      because it succeeded, because it was given up and logged unless the log
      failed, or by an explicit deletion; and never both. */
  lemma NoJobLost(steps: seq<Step>, id: nat)
    requires Feasible(INITIAL, steps) && id in After(INITIAL, steps).ledger.pushed
    ensures var s := After(INITIAL, steps);
            && (id in s.db.rows <==> id !in s.ledger.removed)
            && (id in s.ledger.removed ==> Explained(s.ledger, id, s.ledger.removed[id]))
  {
    InitialInv();
    RunKeepsInv(INITIAL, steps);
    RemovalIsExplained(After(INITIAL, steps), id);
  }

  /** A job was removed for a reason: an explicit deletion, a success of that very
      job, or a permanent or last failure of it, which is in the failure log unless
      the insertion failed. */
  predicate Explained(ledger: Ledger, id: nat, cause: Cause) {
    match cause
    case Discarded => true
    case Completed(job, result, logged) =>
      && job.id == id && id in ledger.pushed && job.content == ledger.pushed[id].content
      && (result.IsSuccess()
          || ((result.IsPermanentFailure() || job.retry == 0)
              && (logged ==> Entry(job, result, job.fail + 1) in ledger.log)))
  }

  lemma RemovalIsExplained(s: State, id: nat)
    requires Logged(s)
    ensures id in s.ledger.removed ==> Explained(s.ledger, id, s.ledger.removed[id])
  {
    if id in s.ledger.removed {
      assert CauseOk(s.ledger, id, s.ledger.removed[id]);
    }
  }

  // ---------- Traces in the failure log ----------

  /** The step gives up a copy of job `id`. */
  predicate GivesUp(step: Step, id: nat) {
    step.Complete? && step.job.id == id && OutcomeOf(step.job.retry, step.result).GaveUp?
  }

  ghost predicate InLog(s: State, id: nat) {
    exists e | e in s.ledger.log :: e.job.id == id
  }

  lemma StepLogs(s: State, step: Step, id: nat)
    requires Enabled(s, step)
    ensures InLog(Do(s, step), id) <==> InLog(s, id) || (GivesUp(step, id) && step.logged)
  {
    if GivesUp(step, id) {
      AppendToLog(s.ledger.log, Entry(step.job, step.result, step.job.fail + 1), step.logged);
    } else if step.Complete? {
      OtherCompletionLogs(s, step, id);
    } else if !Effective(step) {
      QuietSteps(s, step);
    }
  }

  lemma OtherCompletionLogs(s: State, step: Step, id: nat)
    requires Enabled(s, step) && step.Complete? && !GivesUp(step, id)
    ensures InLog(Do(s, step), id) <==> InLog(s, id)
  {
    if OutcomeOf(step.job.retry, step.result).GaveUp? {
      AppendToLog(s.ledger.log, Entry(step.job, step.result, step.job.fail + 1), step.logged);
    }
  }

  lemma {:induction false} RunLogs(s: State, steps: seq<Step>, id: nat)
    requires Feasible(s, steps)
    ensures InLog(After(s, steps), id)
       <==> InLog(s, id) || exists step | step in steps :: GivesUp(step, id) && step.logged
    decreases |steps|
  {
    if steps != [] {
      StepLogs(s, steps[0], id);
      RunLogs(Do(s, steps[0]), steps[1..], id);
      assert forall step :: step in steps <==> step == steps[0] || step in steps[1..];
    }
  }

  /** A job is in the failure log exactly when some step of the run gave up a copy
      of it and the insertion succeeded. */
  lemma LoggedIff(steps: seq<Step>, id: nat)
    requires Feasible(INITIAL, steps)
    ensures InLog(After(INITIAL, steps), id) <==>
            exists step | step in steps :: GivesUp(step, id) && step.logged
  {
    RunLogs(INITIAL, steps, id);
  }

  predicate GivenUp(cause: Cause) {
    cause.Completed? && !cause.result.IsSuccess()
  }

  /** The job was given up: it is about to be deleted, or it was. */
  ghost predicate Doomed(s: State, id: nat) {
    || (exists n, v | n in s.members && v in s.members[n].doomed :: v.job.id == id)
    || (id in s.ledger.removed && GivenUp(s.ledger.removed[id]))
  }

  lemma StepDooms(s: State, step: Step, id: nat)
    requires Enabled(s, step) && Doomed(Do(s, step), id) && !GivesUp(step, id)
    ensures Doomed(s, id)
  {
    match step
    case Push(_, _) =>
    case Launch(n, committed) => LaunchDooms(s, n, committed, id);
    case Discard(_) =>
    case Complete(n, job, result, now, logged) => CompletionDooms(s, step, id);
    case Expunge(n, v) => ExpungeDooms(s, n, v, id);
    case RecoverPicked(_) =>
    case _ => QuietSteps(s, step);
  }

  lemma LaunchDooms(s: State, n: nat, committed: bool, id: nat)
    requires n in s.members && s.members[n].popping.Selected? && s.members[n].conn.Some?
    requires Doomed(DoLaunch(s, n, committed), id)
    ensures Doomed(s, id)
  {
    var t := DoLaunch(s, n, committed);
    assert t.ledger.removed == s.ledger.removed;
    assert forall m | m in t.members :: t.members[m].doomed == s.members[m].doomed;
  }

  lemma CompletionDooms(s: State, step: Step, id: nat)
    requires Enabled(s, step) && step.Complete? && !GivesUp(step, id) && Doomed(Do(s, step), id)
    ensures Doomed(s, id)
  {
    var t := Release(s, step.n, step.job);
    ReleaseDooms(s, step.n, step.job, id);
    match OutcomeOf(step.job.retry, step.result)
    case Succeeded =>
    case GaveUp => GiveUpDooms(t, step.n, step.job, step.result, step.logged, id);
    case Retried =>
  }

  lemma ReleaseDooms(s: State, n: nat, job: Job, id: nat)
    requires n in s.members
    ensures Doomed(Release(s, n, job), id) ==> Doomed(s, id)
  {
  }

  lemma GiveUpDooms(s: State, n: nat, job: Job, result: Result, logged: bool, id: nat)
    requires n in s.members && job.id != id && Doomed(DoGiveUp(s, n, job, result, logged), id)
    ensures Doomed(s, id)
  {
    var t := DoGiveUp(s, n, job, result, logged);
    if m, v :| m in t.members && v in t.members[m].doomed && v.job.id == id {
      assert m in s.members && v in s.members[m].doomed;
    }
  }

  lemma ExpungeDooms(s: State, n: nat, v: Verdict, id: nat)
    requires n in s.members && v in s.members[n].doomed && Doomed(DoExpunge(s, n, v), id)
    ensures Doomed(s, id)
  {
    if v.job.id != id {
      var t := DoExpunge(s, n, v);
      if m, w :| m in t.members && w in t.members[m].doomed && w.job.id == id {
        assert m in s.members && w in s.members[m].doomed;
      }
    }
  }

  lemma {:induction false} RunDooms(s: State, steps: seq<Step>, id: nat)
    requires Feasible(s, steps) && Doomed(After(s, steps), id)
    ensures Doomed(s, id) || exists step | step in steps :: GivesUp(step, id)
    decreases |steps|
  {
    if steps != [] {
      RunDooms(Do(s, steps[0]), steps[1..], id);
      assert forall step | step in steps[1..] :: step in steps;
      if Doomed(Do(s, steps[0]), id) && !GivesUp(steps[0], id) {
        StepDooms(s, steps[0], id);
      }
      assert steps[0] in steps;
    }
  }

  /** In every run in which the insertions for this job succeed, if it is pushed
      and neither stored nor explicitly deleted, then it succeeded or is in the
      failure log. */
  lemma NoneVanishes(steps: seq<Step>, id: nat)
    requires Feasible(INITIAL, steps) && id in After(INITIAL, steps).ledger.pushed
    requires forall step | step in steps && GivesUp(step, id) :: step.logged
    ensures var s := After(INITIAL, steps);
            || id in s.db.rows
            || (id in s.ledger.removed
                && (s.ledger.removed[id].Discarded? || s.ledger.removed[id].result.IsSuccess()))
            || InLog(s, id)
  {
    var s := After(INITIAL, steps);
    NoJobLost(steps, id);
    if id in s.ledger.removed && GivenUp(s.ledger.removed[id]) {
      RunDooms(INITIAL, steps, id);
      LoggedIff(steps, id);
    }
  }

  /** A row leaves the table by a completion of that very job or by an explicit
      deletion, and by no other step. */
  lemma RemovedBy(s: State, step: Step, id: nat)
    requires Enabled(s, step) && id in s.db.rows && id !in Do(s, step).db.rows
    ensures || step == Discard(id)
            || (step.Complete? && step.job.id == id && step.result.IsSuccess())
            || (step.Expunge? && step.verdict.job.id == id)
  {
    if !Effective(step) { QuietSteps(s, step); }
  }

  /** Completions and deletions take effect on the row of that job, and on no other:
      it is gone after a success, the deletion of a job given up, and an explicit
      deletion, and after a failure with retries left it is claimed again. */
  lemma CompletionTakesEffect(s: State, step: Step)
    requires Enabled(s, step) && (step.Complete? || step.Expunge? || step.Discard?)
    ensures step.Discard? ==> step.id !in Do(s, step).db.rows
    ensures step.Expunge? ==> step.verdict.job.id !in Do(s, step).db.rows
    ensures step.Complete? && step.result.IsSuccess() ==> step.job.id !in Do(s, step).db.rows
    ensures GivesUp(step, if step.Complete? then step.job.id else 0) ==>
              && Do(s, step).db == s.db
              && Verdict(step.job, step.result, step.logged) in Do(s, step).members[step.n].doomed
    ensures step.Complete? && OutcomeOf(step.job.retry, step.result).Retried? && step.job.id in s.db.rows ==>
              && step.job.id in Do(s, step).db.rows
              && CopyOf(step.job.id, Do(s, step).db.rows[step.job.id])
                 == Job(step.job.id, step.now + NextDelay(step.job.content.retryDelay),
                        s.db.rows[step.job.id].createdAt, step.job.retry - 1, step.job.fail + 1,
                        s.db.rows[step.job.id].content)
              && Do(s, step).db.rows[step.job.id].status == Claimed
    ensures var id := match step case Complete(_, job, _, _, _) => job.id case Expunge(_, v) => v.job.id case Discard(i) => i;
            forall other | other in s.db.rows && other != id ::
              other in Do(s, step).db.rows && Do(s, step).db.rows[other] == s.db.rows[other]
  {
  }

  /** A removed job never comes back, whatever stale copies do afterwards. */
  lemma {:induction false} RemovedForever(s: State, steps: seq<Step>, id: nat)
    requires Inv(s) && Feasible(s, steps) && id in s.ledger.removed
    ensures id !in After(s, steps).db.rows && id in After(s, steps).ledger.removed
    ensures After(s, steps).ledger.removed[id] == s.ledger.removed[id]
    decreases |steps|
  {
    if steps == [] {
      assert Accounted(s);
    } else {
      StepKeepsInv(s, steps[0]);
      RemovedStays(s, steps[0], id);
      RemovedForever(Do(s, steps[0]), steps[1..], id);
    }
  }

  lemma RemovedStays(s: State, step: Step, id: nat)
    requires Accounted(s) && Enabled(s, step) && id in s.ledger.removed
    ensures id in Do(s, step).ledger.removed && Do(s, step).ledger.removed[id] == s.ledger.removed[id]
  {
    if !Effective(step) { QuietSteps(s, step); }
  }

  /** The retry budget: in every run the counts of a stored job add up to what it
      was pushed with, so its inspected maximum of retries is the original one. */
  lemma RetryBudget(steps: seq<Step>, id: nat)
    requires Feasible(INITIAL, steps) && id in After(INITIAL, steps).db.rows
    ensures var s := After(INITIAL, steps);
            && id in s.ledger.pushed
            && s.db.rows[id].fail + s.db.rows[id].retry == s.ledger.pushed[id].retryCount
            && s.db.rows[id].content == s.ledger.pushed[id].content
  {
    InitialInv();
    RunKeepsInv(INITIAL, steps);
    var s := After(INITIAL, steps);
    assert Fits(s.ledger.pushed, CopyOf(id, s.db.rows[id]));
  }

  /** In every run the attempt number of a copy, however stale, is between one
      and one more than the retries pushed, and it never exceeds the number of
      times the job was handed out. */
  lemma AttemptNumbers(steps: seq<Step>, n: nat, job: Job)
    requires Feasible(INITIAL, steps) && n in After(INITIAL, steps).members
    requires job in After(INITIAL, steps).members[n].held
    ensures var ledger := After(INITIAL, steps).ledger;
            && job.id in ledger.pushed && job.content == ledger.pushed[job.id].content
            && 1 <= job.Attempt() <= ledger.pushed[job.id].retryCount + 1
            && job.Attempt() <= Count(ledger.handed, job.id)
  {
    InitialInv();
    RunKeepsInv(INITIAL, steps);
    assert Fits(After(INITIAL, steps).ledger.pushed, job);
  }

  /** Every logged failure is within the budget, and one that ran out of retries
      has used all of it. */
  lemma LoggedFailures(steps: seq<Step>, e: Entry)
    requires Feasible(INITIAL, steps) && e in After(INITIAL, steps).ledger.log
    ensures var pushed := After(INITIAL, steps).ledger.pushed;
            && e.job.id in pushed && 1 <= e.failCount <= pushed[e.job.id].retryCount + 1
            && (e.job.retry == 0 <==> e.failCount == pushed[e.job.id].retryCount + 1)
            && !e.result.IsSuccess()
            && (!e.result.IsPermanentFailure() ==> e.failCount == pushed[e.job.id].retryCount + 1)
  {
    InitialInv();
    RunKeepsInv(INITIAL, steps);
    assert EntryOk(After(INITIAL, steps).ledger.pushed, e);
  }

  /** Delivery: in every run, a stored job was handed out exactly once per return
      of its row, once more if it is out, and once per launch not committed. */
  lemma DeliveryCount(steps: seq<Step>, id: nat)
    requires Feasible(INITIAL, steps) && id in After(INITIAL, steps).db.rows
    ensures var s := After(INITIAL, steps);
            Count(s.ledger.handed, id)
            == Count(s.ledger.retried, id) + Count(s.ledger.recovered, id) + Count(s.ledger.uncommitted, id)
              + if s.db.rows[id].grabber.Some? then 1 else 0
  {
    InitialInv();
    RunKeepsInv(INITIAL, steps);
  }

  /** One primary: in every run at most one active node has a live session that
      acquired the lock. */
  lemma OnePrimary(steps: seq<Step>, n: nat, m: nat)
    requires Feasible(INITIAL, steps)
    requires Election.LivePrimary(After(INITIAL, steps).election, n)
    requires Election.LivePrimary(After(INITIAL, steps).election, m)
    ensures n == m
  {
    InitialInv();
    RunKeepsInv(INITIAL, steps);
    Election.SinglePrimary(After(INITIAL, steps).election, n, m);
  }

  /** A node begins a Pop, and recovers jobs, only if its activator holds the lock or
      has lost the session that held it without having noticed. */
  lemma OnlyElectedNodesWork(s: State, step: Step)
    requires Election.Inv(s.election) && Enabled(s, step)
    requires step.CheckActive? || step.PickOrphans? || step.RecoverPicked?
    ensures step.n in s.election.nodes
    ensures var node := s.election.nodes[step.n];
            node.acquired.Some? && (s.election.lock == node.acquired || node.acquired.value !in s.election.live)
  {
    assert Election.NodeOk(s.election, s.election.nodes[step.n]);
  }

  /** A Pop goes through its three stages in order: nothing is preselected without
      the check, and nothing is handed out without the preselection. */
  lemma PopStages(s: State, step: Step, n: nat)
    requires Enabled(s, step) && n in s.members
    requires Do(s, step).members[n].popping != s.members[n].popping
    ensures match Do(s, step).members[n].popping
            case Checked => s.members[n].popping.Idle? && step == CheckActive(n)
            case Selected(ids) =>
              s.members[n].popping.Checked? && step.Preselect? && step.n == n && ids == (set id | id in step.ids)
            case Idle => true
  {
  }

  /** Over a connection that was closed nothing is preselected, launched or recovered
      until another one is opened. */
  lemma NothingOverClosedConnection(s: State, n: nat, step: Step)
    requires n in s.members
    requires (step.Preselect? || step.Launch? || step.PickOrphans? || step.RecoverPicked?) && step.n == n
    ensures !Enabled(Do(s, Close(n)), step)
  {
  }

  // ---------- Crashed nodes ----------

  /** A crashed process holds nothing and does nothing. */
  ghost predicate DeadAreSilent(s: State) {
    forall n | n in s.members && n in s.election.nodes && s.election.nodes[n].pc.Crashed? ::
      && s.members[n].held == multiset{} && s.members[n].doomed == multiset{} && s.members[n].popping.Idle?
  }

  lemma StepKeepsSilent(s: State, step: Step)
    requires DeadAreSilent(s) && Election.Inv(s.election) && Enabled(s, step)
    ensures DeadAreSilent(Do(s, step))
  {
    var t := Do(s, step);
    forall n | n in t.members && n in t.election.nodes && t.election.nodes[n].pc.Crashed?
      ensures t.members[n].held == multiset{} && t.members[n].doomed == multiset{} && t.members[n].popping.Idle?
    {
      DeadStaysSilent(s, step, n);
    }
  }

  lemma DeadStaysSilent(s: State, step: Step, n: nat)
    requires DeadAreSilent(s) && Election.Inv(s.election) && Enabled(s, step)
    requires var t := Do(s, step); n in t.members && n in t.election.nodes && t.election.nodes[n].pc.Crashed?
    ensures var t := Do(s, step);
            t.members[n].held == multiset{} && t.members[n].doomed == multiset{} && t.members[n].popping.Idle?
  {
    if step.Elect? {
      CrashIsFinal(s.election, step.e, n);
    } else if step.Push? || step.Discard? || step.n != n {
      OthersUntouched(s, step, n);
    } else {
      OwnStepSilent(s, step, n);
    }
  }

  lemma OthersUntouched(s: State, step: Step, n: nat)
    requires Enabled(s, step) && n in Do(s, step).members && !step.Elect?
    requires step.Push? || step.Discard? || step.n != n
    ensures n in s.members && Do(s, step).members[n] == s.members[n]
    ensures n in Do(s, step).election.nodes ==>
              n in s.election.nodes && Do(s, step).election.nodes[n] == s.election.nodes[n]
  {
  }

  lemma OwnStepSilent(s: State, step: Step, n: nat)
    requires DeadAreSilent(s) && Election.Inv(s.election) && Enabled(s, step)
    requires !step.Push? && !step.Discard? && !step.Elect? && step.n == n
    requires n in Do(s, step).election.nodes && Do(s, step).election.nodes[n].pc.Crashed?
    ensures var m := Do(s, step).members[n]; m.held == multiset{} && m.doomed == multiset{} && m.popping.Idle?
  {
    if n in s.election.nodes { assert Election.NodeOk(s.election, s.election.nodes[n]); }
  }

  lemma CrashIsFinal(e: Election.State, step: Election.Step, n: nat)
    requires Election.Enabled(e, step) && !step.Start? && !step.Crash?
    requires n in Election.Do(e, step).nodes && Election.Do(e, step).nodes[n].pc.Crashed?
    ensures n in e.nodes && e.nodes[n].pc.Crashed?
  {
  }

  lemma {:induction false} RunKeepsSilent(s: State, steps: seq<Step>)
    requires Inv(s) && DeadAreSilent(s) && Feasible(s, steps)
    ensures DeadAreSilent(After(s, steps))
    decreases |steps|
  {
    if steps != [] {
      StepKeepsSilent(s, steps[0]);
      StepKeepsInv(s, steps[0]);
      RunKeepsSilent(Do(s, steps[0]), steps[1..]);
    }
  }

  /** In every run what a process held dies with it. */
  lemma CrashedHoldNothing(steps: seq<Step>, n: nat)
    requires Feasible(INITIAL, steps)
    requires var s := After(INITIAL, steps);
             n in s.members && n in s.election.nodes && s.election.nodes[n].pc.Crashed?
    ensures var m := After(INITIAL, steps).members[n];
            m.held == multiset{} && m.doomed == multiset{} && m.popping.Idle?
  {
    InitialInv();
    RunKeepsSilent(INITIAL, steps);
  }

  /** Every committed launch of the run is done over connection `c`. */
  ghost predicate LaunchesOnlyOver(s: State, steps: seq<Step>, c: nat)
    requires Feasible(s, steps)
    decreases |steps|
  {
    steps == [] ||
    ((steps[0].Launch? && steps[0].committed ==> s.members[steps[0].n].conn == Some(c))
     && LaunchesOnlyOver(Do(s, steps[0]), steps[1..], c))
  }

  /** After a recovery left no orphan, none appears until another connection
      launches jobs: nothing else can strand a job. */
  lemma {:induction false} NoOrphansWhileAlone(s: State, steps: seq<Step>, c: nat)
    requires Feasible(s, steps) && LaunchesOnlyOver(s, steps, c) && Orphans(s.db, c) == {}
    ensures Orphans(After(s, steps).db, c) == {}
    decreases |steps|
  {
    if steps != [] {
      OrphansAppear(s, steps[0], c);
      NoOrphansWhileAlone(Do(s, steps[0]), steps[1..], c);
    }
  }

  lemma OrphansAppear(s: State, step: Step, c: nat)
    requires Enabled(s, step) && Orphans(s.db, c) == {}
    requires step.Launch? && step.committed ==> s.members[step.n].conn == Some(c)
    ensures Orphans(Do(s, step).db, c) == {}
  {
    if !Effective(step) {
      QuietSteps(s, step);
    } else {
      var t := Do(s, step);
      assert forall id | id in s.db.rows :: id !in Orphans(s.db, c);
      assert forall id | id in t.db.rows :: !IsOrphan(t.db.rows[id], c);
    }
  }
}
