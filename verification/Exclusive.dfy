/** Executing a job once at a time: as long as recoveries spare the jobs that
    somebody still holds and launches are committed, the copy a node holds is the
    only one and is current. */
module Exclusive {
  import opened Jobs
  import opened Store
  import opened Cluster

  /** A copy of a stored job is current, and the row is grabbed. */
  predicate Current(db: Db, job: Job) {
    job.id in db.rows ==> db.rows[job.id].status.Grabbed? && CopyOf(job.id, db.rows[job.id]) == job
  }

  /** How many copies of exactly this form a node holds. */
  function Holding(s: State, n: nat, job: Job): nat {
    if n in s.members then s.members[n].held[job] else 0
  }

  function Dooming(s: State, n: nat, v: Verdict): nat {
    if n in s.members then s.members[n].doomed[v] else 0
  }

  ghost predicate AllCurrent(s: State) {
    && (forall n, job | Holding(s, n, job) > 0 :: Current(s.db, job))
    && (forall n, v | Dooming(s, n, v) > 0 :: Current(s.db, v.job))
  }

  /** A stored job is held at most once in the whole cluster, and not by anyone
      when it is about to be deleted. */
  ghost predicate Sole(s: State) {
    && (forall n, job | Holding(s, n, job) > 0 && job.id in s.db.rows :: Holding(s, n, job) == 1)
    && (forall n, m, job | Holding(s, n, job) > 0 && Holding(s, m, job) > 0 && job.id in s.db.rows :: n == m)
    && (forall n, m, v | Dooming(s, m, v) > 0 && Holding(s, n, v.job) > 0 :: v.job.id !in s.db.rows)
  }

  /** Every update that sent a stored job back was a counted failure. */
  ghost predicate Counted(s: State) {
    forall id | id in s.db.rows ::
      Count(s.ledger.retried, id) == s.db.rows[id].fail && Count(s.ledger.uncommitted, id) == 0
  }

  ghost predicate Inv(s: State) {
    JobsOk(s) && AllCurrent(s) && Sole(s) && Counted(s)
  }

  /** Nobody holds a copy of job `id`, nor is about to delete it. */
  ghost predicate Unheld(s: State, id: nat) {
    && (forall n, job | Holding(s, n, job) > 0 :: job.id != id)
    && (forall n, v | Dooming(s, n, v) > 0 :: v.job.id != id)
  }

  /** The step hands out or brings back no job behind somebody's back: a recovery
      brings back only jobs that nobody holds any more, as after a crash, and a
      launch that hands out jobs is committed. */
  ghost predicate Harmless(s: State, step: Step)
    requires Enabled(s, step)
  {
    match step
    case RecoverPicked(n) =>
      forall id | id in s.members[n].picked * Orphans(s.db, s.members[n].conn.value) :: Unheld(s, id)
    case Launch(n, committed) => committed || Got(s, n) == {}
    case _ => true
  }

  ghost predicate AllHarmless(s: State, steps: seq<Step>)
    requires Feasible(s, steps)
    decreases |steps|
  {
    steps == [] || (Harmless(s, steps[0]) && AllHarmless(Do(s, steps[0]), steps[1..]))
  }

  /** Nobody holds more copies, of any job, than before. */
  ghost predicate Fewer(s: State, t: State) {
    && (forall n, job :: Holding(t, n, job) <= Holding(s, n, job))
    && (forall n, v :: Dooming(t, n, v) <= Dooming(s, n, v))
  }

  lemma FewerKeepsSole(s: State, t: State)
    requires Sole(s) && AllCurrent(s) && Fewer(s, t)
    requires forall id | id in t.db.rows :: id in s.db.rows && t.db.rows[id] == s.db.rows[id]
    ensures Sole(t) && AllCurrent(t)
  {
  }

  lemma QuietHolding(s: State, step: Step, n: nat, job: Job)
    requires Enabled(s, step) && !Effective(step)
    ensures Holding(Do(s, step), n, job) <= Holding(s, n, job)
  {
  }

  lemma QuietDooming(s: State, step: Step, n: nat, v: Verdict)
    requires Enabled(s, step) && !Effective(step)
    ensures Dooming(Do(s, step), n, v) <= Dooming(s, n, v)
  {
  }

  lemma QuietKeeps(s: State, step: Step)
    requires Inv(s) && Enabled(s, step) && !Effective(step)
    ensures Inv(Do(s, step))
  {
    var t := Do(s, step);
    QuietSteps(s, step);
    QuietKeepsJobsOk(s, t);
    forall n, job ensures Holding(t, n, job) <= Holding(s, n, job) { QuietHolding(s, step, n, job); }
    forall n, v ensures Dooming(t, n, v) <= Dooming(s, n, v) { QuietDooming(s, step, n, v); }
    FewerKeepsSole(s, t);
  }

  // A push.

  lemma PushKeeps(s: State, now: nat, job: Incoming)
    requires Inv(s)
    ensures Inv(DoPush(s, now, job))
  {
    PushKeepsJobsOk(s, now, job);
    PushKeepsSole(s, now, job);
    assert s.db.nextId !in s.ledger.pushed;
  }

  lemma PushKeepsSole(s: State, now: nat, job: Incoming)
    requires Inv(s)
    ensures Sole(DoPush(s, now, job)) && AllCurrent(DoPush(s, now, job))
  {
    var t := DoPush(s, now, job);
    forall n, j | Holding(t, n, j) > 0 ensures Holding(s, n, j) == Holding(t, n, j) && j.id != s.db.nextId {
      assert Fits(s.ledger.pushed, j);
    }
    forall n, v | Dooming(t, n, v) > 0 ensures Dooming(s, n, v) == Dooming(t, n, v) && v.job.id != s.db.nextId {
      assert Fits(s.ledger.pushed, v.job);
    }
  }

  // A removal.

  lemma RemoveKeeps(s: State, id: nat, cause: Cause)
    requires Inv(s) && CauseOk(s.ledger, id, cause)
    ensures Inv(Remove(s, id, cause))
  {
    RemoveKeepsJobsOk(s, id, cause);
    RemoveKeepsSole(s, id, cause);
  }

  lemma RemoveKeepsSole(s: State, id: nat, cause: Cause)
    requires Sole(s) && AllCurrent(s) && Counted(s)
    ensures Sole(Remove(s, id, cause)) && AllCurrent(Remove(s, id, cause)) && Counted(Remove(s, id, cause))
  {
    FewerKeepsSole(s, Remove(s, id, cause));
  }

  lemma ExpungeKeeps(s: State, n: nat, v: Verdict)
    requires Inv(s) && n in s.members && v in s.members[n].doomed
    ensures Inv(DoExpunge(s, n, v))
  {
    ForgetKeeps(s, n, v);
    VerdictIsCause(s, n, v);
    RemoveKeeps(Forget(s, n, v), v.job.id, Completed(v.job, v.result, v.logged));
  }

  function Forget(s: State, n: nat, v: Verdict): State
    requires n in s.members
  {
    Put(s, n, s.members[n].(doomed := s.members[n].doomed - multiset{v}))
  }

  lemma ForgetKeeps(s: State, n: nat, v: Verdict)
    requires Inv(s) && n in s.members
    ensures Inv(Forget(s, n, v))
  {
    ForgetVerdict(s, n, v);
    QuietKeepsJobsOk(s, Forget(s, n, v));
    ForgetKeepsSole(s, n, v);
  }

  lemma ForgetKeepsSole(s: State, n: nat, v: Verdict)
    requires Sole(s) && AllCurrent(s) && Counted(s) && n in s.members
    ensures Sole(Forget(s, n, v)) && AllCurrent(Forget(s, n, v)) && Counted(Forget(s, n, v))
  {
    FewerKeepsSole(s, Forget(s, n, v));
  }

  // A committed launch.

  lemma HoldingAfterLaunch(s: State, n: nat, m: nat, job: Job)
    requires n in s.members && s.members[n].popping.Selected? && s.members[n].conn.Some?
    ensures Holding(DoLaunch(s, n, true), m, job) == Holding(s, m, job)
      + if m == n && job.id in Got(s, n) && job == CopyOf(job.id, s.db.rows[job.id]) then 1 else 0
    ensures forall v :: Dooming(DoLaunch(s, n, true), m, v) == Dooming(s, m, v)
  {
    var copies := Copies(s.db, Got(s, n));
    assert copies[job] == if job.id in Got(s, n) && job == CopyOf(job.id, s.db.rows[job.id]) then 1 else 0;
  }

  lemma LaunchKeeps(s: State, n: nat)
    requires Inv(s) && n in s.members && s.members[n].popping.Selected? && s.members[n].conn.Some?
    ensures Inv(DoLaunch(s, n, true))
  {
    LaunchKeepsJobsOk(s, n, true);
    LaunchEffect(s, n, true);
    LaunchKeepsSole(s, n);
    LaunchKeepsCounted(s, n);
  }

  lemma LaunchKeepsCounted(s: State, n: nat)
    requires Counted(s) && n in s.members && s.members[n].popping.Selected? && s.members[n].conn.Some?
    ensures Counted(DoLaunch(s, n, true))
  {
    var t := DoLaunch(s, n, true);
    LaunchEffect(s, n, true);
    assert forall id | id in t.db.rows :: CopyOf(id, t.db.rows[id]).fail == CopyOf(id, s.db.rows[id]).fail;
  }

  /** A job that is launched was claimed, so nobody held it. */
  lemma LaunchKeepsSole(s: State, n: nat)
    requires AllCurrent(s) && Sole(s)
    requires n in s.members && s.members[n].popping.Selected? && s.members[n].conn.Some?
    ensures Sole(DoLaunch(s, n, true)) && AllCurrent(DoLaunch(s, n, true))
  {
    var t := DoLaunch(s, n, true);
    LaunchEffect(s, n, true);
    forall m, job
      ensures Holding(t, m, job) == Holding(s, m, job)
        + if m == n && job.id in Got(s, n) && job == CopyOf(job.id, s.db.rows[job.id]) then 1 else 0
    {
      HoldingAfterLaunch(s, n, m, job);
    }
    forall m, v ensures Dooming(t, m, v) == Dooming(s, m, v) {
      HoldingAfterLaunch(s, n, m, v.job);
    }
    forall m, job | Holding(s, m, job) > 0 ensures job.id !in Got(s, n) {
      assert Current(s.db, job);
    }
    forall m, v | Dooming(s, m, v) > 0 ensures v.job.id !in Got(s, n) {
      assert Current(s.db, v.job);
    }
    assert forall job: Job | job.id in Got(s, n) :: job.id in s.db.rows;
  }

  lemma EmptyLaunchKeeps(s: State, n: nat)
    requires Inv(s) && n in s.members && s.members[n].popping.Selected? && s.members[n].conn.Some?
    requires Got(s, n) == {}
    ensures Inv(DoLaunch(s, n, false))
  {
    LaunchKeepsJobsOk(s, n, false);
    EmptyLaunchKeepsSole(s, n);
    EmptyLaunchKeepsCounted(s, n);
  }

  lemma EmptyLaunchKeepsSole(s: State, n: nat)
    requires Sole(s) && AllCurrent(s) && n in s.members && s.members[n].popping.Selected? && s.members[n].conn.Some?
    requires Got(s, n) == {}
    ensures Sole(DoLaunch(s, n, false)) && AllCurrent(DoLaunch(s, n, false))
  {
    assert Copies(s.db, Got(s, n)) == multiset{};
    FewerKeepsSole(s, DoLaunch(s, n, false));
  }

  lemma EmptyLaunchKeepsCounted(s: State, n: nat)
    requires Counted(s) && n in s.members && s.members[n].popping.Selected? && s.members[n].conn.Some?
    requires Got(s, n) == {}
    ensures Counted(DoLaunch(s, n, false))
  {
    LaunchEffect(s, n, false);
    assert DoLaunch(s, n, false).db == s.db;
  }

  // A recovery.

  lemma RecoverKeeps(s: State, n: nat)
    requires Inv(s) && n in s.members && s.members[n].conn.Some?
    requires forall id | id in s.members[n].picked * Orphans(s.db, s.members[n].conn.value) :: Unheld(s, id)
    ensures Inv(DoRecover(s, n))
  {
    RecoverKeepsJobsOk(s, n);
    RecoverKeepsSole(s, n);
    RecoverKeepsCounted(s, n);
  }

  lemma RecoverKeepsSole(s: State, n: nat)
    requires Sole(s) && AllCurrent(s) && n in s.members && s.members[n].conn.Some?
    requires forall id | id in s.members[n].picked * Orphans(s.db, s.members[n].conn.value) :: Unheld(s, id)
    ensures Sole(DoRecover(s, n)) && AllCurrent(DoRecover(s, n))
  {
    var t := DoRecover(s, n);
    assert forall m, j :: Holding(t, m, j) == Holding(s, m, j);
    assert forall m, v :: Dooming(t, m, v) == Dooming(s, m, v);
    var back := s.members[n].picked * Orphans(s.db, s.members[n].conn.value);
    assert forall id | id in t.db.rows && id !in back :: t.db.rows[id] == s.db.rows[id];
  }

  lemma RecoverKeepsCounted(s: State, n: nat)
    requires Counted(s) && n in s.members && s.members[n].conn.Some?
    ensures Counted(DoRecover(s, n))
  {
    var t := DoRecover(s, n);
    RecoverKeepsCopies(s.db, s.members[n].picked, s.members[n].conn.value);
    assert forall id | id in t.db.rows :: CopyOf(id, t.db.rows[id]).fail == CopyOf(id, s.db.rows[id]).fail;
  }

  // A completion.

  lemma ReleaseKeeps(s: State, n: nat, job: Job)
    requires Inv(s) && n in s.members && job in s.members[n].held
    ensures Inv(Release(s, n, job)) && Fits(s.ledger.pushed, job) && job.Attempt() <= Count(s.ledger.handed, job.id)
  {
    ReleaseKeepsJobsOk(s, n, job);
    ReleaseKeepsSole(s, n, job);
  }

  lemma ReleaseKeepsSole(s: State, n: nat, job: Job)
    requires Sole(s) && AllCurrent(s) && Counted(s) && n in s.members
    ensures Sole(Release(s, n, job)) && AllCurrent(Release(s, n, job)) && Counted(Release(s, n, job))
  {
    FewerKeepsSole(s, Release(s, n, job));
  }

  /** Once its holder lets go of it, nobody has a stored job. */
  lemma Released(s: State, n: nat, job: Job)
    requires AllCurrent(s) && Sole(s) && n in s.members && job in s.members[n].held && job.id in s.db.rows
    ensures forall m, j | Holding(Release(s, n, job), m, j) > 0 :: j.id != job.id
    ensures forall m, v | Dooming(Release(s, n, job), m, v) > 0 :: v.job.id != job.id
    ensures Current(s.db, job)
  {
    var t := Release(s, n, job);
    assert Holding(s, n, job) > 0;
    forall m, j | Holding(t, m, j) > 0 ensures j.id != job.id {
      assert Holding(s, m, j) > 0;
      assert Current(s.db, j) && Current(s.db, job);
    }
    forall m, v | Dooming(t, m, v) > 0 ensures v.job.id != job.id {
      assert Dooming(s, m, v) > 0;
      assert Current(s.db, v.job) && Current(s.db, job);
    }
  }

  lemma CompleteKeeps(s: State, n: nat, job: Job, result: Result, now: nat, logged: bool)
    requires Inv(s) && n in s.members && job in s.members[n].held
    ensures Inv(DoComplete(s, n, job, result, now, logged))
  {
    var t := Release(s, n, job);
    ReleaseKeeps(s, n, job);
    if job.id in s.db.rows { Released(s, n, job); }
    match OutcomeOf(job.retry, result)
    case Succeeded => RemoveKeeps(t, job.id, Completed(job, result, logged));
    case GaveUp => GiveUpKeeps(t, n, job, result, logged);
    case Retried => RetryKeeps(t, job, now, NextDelay(job.content.retryDelay));
  }

  /** Nobody has the job, if it is stored. */
  ghost predicate Loose(s: State, job: Job) {
    job.id in s.db.rows ==>
      && (forall m, j | Holding(s, m, j) > 0 :: j.id != job.id)
      && (forall m, v | Dooming(s, m, v) > 0 :: v.job.id != job.id)
  }

  lemma GiveUpKeeps(s: State, n: nat, job: Job, result: Result, logged: bool)
    requires Inv(s) && n in s.members && Fits(s.ledger.pushed, job)
    requires OutcomeOf(job.retry, result).GaveUp? && Loose(s, job) && Current(s.db, job)
    ensures Inv(DoGiveUp(s, n, job, result, logged))
  {
    GiveUpKeepsJobsOk(s, n, job, result, logged);
    GiveUpKeepsSole(s, n, job, result, logged);
  }

  lemma GiveUpKeepsSole(s: State, n: nat, job: Job, result: Result, logged: bool)
    requires AllCurrent(s) && Sole(s) && n in s.members && Loose(s, job) && Current(s.db, job)
    ensures Sole(DoGiveUp(s, n, job, result, logged)) && AllCurrent(DoGiveUp(s, n, job, result, logged))
  {
    var t := DoGiveUp(s, n, job, result, logged);
    assert forall m, j :: Holding(t, m, j) == Holding(s, m, j);
    assert forall m, v | Dooming(t, m, v) > 0 :: Dooming(s, m, v) > 0 || v.job == job;
  }

  lemma RetryKeeps(s: State, job: Job, now: nat, delay: nat)
    requires Inv(s) && job.retry > 0 && Loose(s, job) && Current(s.db, job)
    requires Fits(s.ledger.pushed, job) && job.Attempt() <= Count(s.ledger.handed, job.id)
    ensures Inv(DoRetry(s, job, now, delay))
  {
    RetryKeepsJobsOk(s, job, now, delay);
    RetryKeepsSole(s, job, now, delay);
    RetryKeepsCounted(s, job, now, delay);
  }

  lemma RetryKeepsSole(s: State, job: Job, now: nat, delay: nat)
    requires AllCurrent(s) && Sole(s) && job.retry > 0 && Loose(s, job)
    ensures Sole(DoRetry(s, job, now, delay)) && AllCurrent(DoRetry(s, job, now, delay))
  {
    var t := DoRetry(s, job, now, delay);
    assert forall m, j :: Holding(t, m, j) == Holding(s, m, j);
    assert forall m, v :: Dooming(t, m, v) == Dooming(s, m, v);
    assert forall id | id in t.db.rows && id != job.id :: t.db.rows[id] == s.db.rows[id];
  }

  lemma RetryKeepsCounted(s: State, job: Job, now: nat, delay: nat)
    requires Counted(s) && job.retry > 0 && Current(s.db, job)
    ensures Counted(DoRetry(s, job, now, delay))
  {
    var t := DoRetry(s, job, now, delay);
    assert forall id | id in t.db.rows && id != job.id :: t.db.rows[id] == s.db.rows[id];
    assert job.id in s.db.rows ==> GrabbedAmong(s.db, {job.id}) == {job.id} && s.db.rows[job.id].fail == job.fail;
  }

  // ---------- Runs ----------

  lemma StepKeeps(s: State, step: Step)
    requires Inv(s) && Enabled(s, step) && Harmless(s, step)
    ensures Inv(Do(s, step))
  {
    match step
    case Push(now, job) => PushKeeps(s, now, job);
    case Discard(id) => RemoveKeeps(s, id, Discarded);
    case Launch(n, committed) => if committed { LaunchKeeps(s, n); } else { EmptyLaunchKeeps(s, n); }
    case Complete(n, job, result, now, logged) => CompleteKeeps(s, n, job, result, now, logged);
    case Expunge(n, v) => ExpungeKeeps(s, n, v);
    case RecoverPicked(n) => RecoverKeeps(s, n);
    case _ => QuietKeeps(s, step);
  }

  /** The condition is exact: a step leaves every copy current, and the only one,
      exactly when it is harmless. */
  lemma StepKeepsIff(s: State, step: Step)
    requires Inv(s) && Enabled(s, step)
    ensures Inv(Do(s, step)) <==> Harmless(s, step)
  {
    if Harmless(s, step) {
      StepKeeps(s, step);
    } else if step.Launch? {
      LaunchBreaks(s, step.n);
    } else {
      RecoveryBreaks(s, step.n);
    }
  }

  lemma LaunchBreaks(s: State, n: nat)
    requires n in s.members && s.members[n].popping.Selected? && s.members[n].conn.Some? && Got(s, n) != {}
    ensures !AllCurrent(DoLaunch(s, n, false))
  {
    var t := DoLaunch(s, n, false);
    var id :| id in Got(s, n);
    var job := CopyOf(id, s.db.rows[id]);
    assert job in Copies(s.db, Got(s, n));
    assert Holding(t, n, job) > 0;
  }

  lemma RecoveryBreaks(s: State, n: nat)
    requires n in s.members && s.members[n].conn.Some?
    requires !forall id | id in s.members[n].picked * Orphans(s.db, s.members[n].conn.value) :: Unheld(s, id)
    ensures !AllCurrent(DoRecover(s, n))
  {
    var t := DoRecover(s, n);
    var id :| id in s.members[n].picked * Orphans(s.db, s.members[n].conn.value) && !Unheld(s, id);
    assert t.db.rows[id].status.Claimed?;
    if m, job :| Holding(s, m, job) > 0 && job.id == id {
      assert Holding(t, m, job) > 0;
    } else {
      var m, v :| Dooming(s, m, v) > 0 && v.job.id == id;
      assert Dooming(t, m, v) > 0;
    }
  }

  lemma {:induction false} RunKeeps(s: State, steps: seq<Step>)
    requires Inv(s) && Feasible(s, steps) && AllHarmless(s, steps)
    ensures Inv(After(s, steps))
    decreases |steps|
  {
    if steps != [] {
      StepKeeps(s, steps[0]);
      RunKeeps(Do(s, steps[0]), steps[1..]);
    }
  }

  /** In every harmless run, failovers and recoveries included, a stored job is
      held by at most one node, once, and what that node holds is what the table
      says. */
  lemma OneHolder(steps: seq<Step>, n: nat, m: nat, a: Job, b: Job)
    requires Feasible(INITIAL, steps) && AllHarmless(INITIAL, steps)
    requires Holding(After(INITIAL, steps), n, a) > 0 && Holding(After(INITIAL, steps), m, b) > 0
    requires a.id == b.id && a.id in After(INITIAL, steps).db.rows
    ensures n == m && a == b && Holding(After(INITIAL, steps), n, a) == 1
    ensures a == CopyOf(a.id, After(INITIAL, steps).db.rows[a.id])
  {
    InitialOk();
    RunKeeps(INITIAL, steps);
    assert Current(After(INITIAL, steps).db, a) && Current(After(INITIAL, steps).db, b);
  }

  /** In every harmless run a job being worked on was handed out once per attempt
      and once more per recovery of its row. */
  lemma AttemptIsDelivery(steps: seq<Step>, n: nat, job: Job)
    requires Feasible(INITIAL, steps) && AllHarmless(INITIAL, steps)
    requires Holding(After(INITIAL, steps), n, job) > 0 && job.id in After(INITIAL, steps).db.rows
    ensures var ledger := After(INITIAL, steps).ledger;
            Count(ledger.handed, job.id) == job.Attempt() + Count(ledger.recovered, job.id)
  {
    InitialOk();
    RunKeeps(INITIAL, steps);
    HeldIsCounted(After(INITIAL, steps), n, job);
  }

  lemma HeldIsCounted(s: State, n: nat, job: Job)
    requires Delivered(s) && AllCurrent(s) && Counted(s) && Holding(s, n, job) > 0 && job.id in s.db.rows
    ensures Count(s.ledger.handed, job.id) == job.Attempt() + Count(s.ledger.recovered, job.id)
  {
    assert Current(s.db, job);
  }

  lemma InitialOk()
    ensures Inv(INITIAL)
  {
  }
}
