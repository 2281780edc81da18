/** The window between the preselection and the lock of a Pop, seen from a run of
    the cluster: with one popper and no stale copies, the statements that other
    nodes run in it are calm. */
module PopWindow {
  import opened Jobs
  import opened Store
  import opened Cluster
  import Exclusive

  /** One popper: nobody else launches or recovers jobs in the window, and clocks
      do not run backwards. */
  predicate InWindow(step: Step, now: nat) {
    match step
    case Launch(_, _) => false
    case RecoverPicked(_) => false
    case Push(t, _) => now <= t
    case Complete(_, _, _, t, _) => now <= t
    case _ => true
  }

  lemma WindowIsHarmless(s: State, step: Step, now: nat)
    requires Enabled(s, step) && InWindow(step, now)
    ensures Exclusive.Harmless(s, step)
  {
  }

  /** The statement that a step of the window runs, if any. */
  lemma CalmStep(s: State, step: Step, now: nat) returns (env: seq<Statement>)
    requires Exclusive.Inv(s) && Enabled(s, step) && InWindow(step, now)
    ensures |env| <= 1 && AllCalm(s.db, now, env) && Run(s.db, env) == Do(s, step).db
  {
    match step
    case Push(t, job) => env := [Insert(t, job)];
    case Discard(id) => env := DeleteIs(s.db, now, id);
    case Complete(n, job, result, t, logged) => env := CalmCompletion(s, step, now);
    case Expunge(n, v) => env := DeleteIs(s.db, now, v.job.id);
    case _ =>
      QuietSteps(s, step);
      env := [];
  }

  lemma DeleteIs(db: Db, now: nat, id: nat) returns (env: seq<Statement>)
    ensures |env| <= 1 && AllCalm(db, now, env)
    ensures Run(db, env) == if id in db.rows then DeleteRow(db, id) else db
  {
    if id in db.rows { return [Delete(id)]; } else { return []; }
  }

  /** A completion sends back only a grabbed row, because the copy is current. */
  lemma CalmCompletion(s: State, step: Step, now: nat) returns (env: seq<Statement>)
    requires Exclusive.AllCurrent(s) && Enabled(s, step) && step.Complete? && InWindow(step, now)
    ensures |env| <= 1 && AllCalm(s.db, now, env) && Run(s.db, env) == Do(s, step).db
  {
    var job := step.job;
    match OutcomeOf(job.retry, step.result)
    case Succeeded => env := DeleteIs(s.db, now, job.id);
    case GaveUp => env := [];
    case Retried =>
      assert Exclusive.Holding(s, step.n, job) > 0;
      assert Exclusive.Current(s.db, job);
      env := [Update(job.id, step.now, NextDelay(job.content.retryDelay), job.retry - 1, job.fail + 1)];
  }

  lemma {:induction false} CalmSteps(s: State, steps: seq<Step>, now: nat) returns (env: seq<Statement>)
    requires Exclusive.Inv(s) && Feasible(s, steps) && forall step | step in steps :: InWindow(step, now)
    ensures AllCalm(s.db, now, env) && Run(s.db, env) == After(s, steps).db
    decreases |steps|
  {
    if steps == [] { return []; }
    var first := CalmStep(s, steps[0], now);
    WindowIsHarmless(s, steps[0], now);
    Exclusive.StepKeeps(s, steps[0]);
    assert forall step | step in steps[1..] :: step in steps;
    var rest := CalmSteps(Do(s, steps[0]), steps[1..], now);
    env := first + rest;
    if first != [] {
      assert env[1..] == rest;
    } else {
      assert env == rest;
    }
  }

  /** In every run of a cluster that was harmless so far: when node `n` preselects
      jobs, any window with one popper follows, and it launches what it got, then
      it gets every preselected job still stored, unchanged and due, every job that
      was due and is still stored unless the limit is reached, and no claimed job
      left behind is earlier. */
  lemma PopsEarliestDue(before: seq<Step>, n: nat, now: nat, limit: nat, ids: seq<nat>, window: seq<Step>)
    requires Feasible(INITIAL, before) && Exclusive.AllHarmless(INITIAL, before)
    requires var s := After(INITIAL, before);
             && Enabled(s, Preselect(n, now, limit, ids))
             && Feasible(Do(s, Preselect(n, now, limit, ids)), window)
    requires forall step | step in window :: InWindow(step, now)
    requires var t := After(Do(After(INITIAL, before), Preselect(n, now, limit, ids)), window);
             n in t.members && t.members[n].popping == Selected(set id | id in ids)
    ensures var s := After(INITIAL, before);
            var t := After(Do(s, Preselect(n, now, limit, ids)), window);
            && Got(t, n) == (set id | id in ids && id in t.db.rows)
            && (forall id | id in Got(t, n) :: t.db.rows[id] == s.db.rows[id] && t.db.rows[id].nextTry <= now)
            && (forall id | id in s.db.rows && s.db.rows[id].status.Claimed? && s.db.rows[id].nextTry <= now
                  && id in t.db.rows :: id in Got(t, n) || |ids| == limit)
            && (forall id, other | id in Got(t, n) && other in t.db.rows && other !in Got(t, n)
                  && t.db.rows[other].status.Claimed? :: t.db.rows[id].nextTry <= t.db.rows[other].nextTry)
  {
    var s := After(INITIAL, before);
    Exclusive.InitialOk();
    Exclusive.RunKeeps(INITIAL, before);
    Exclusive.StepKeeps(s, Preselect(n, now, limit, ids));
    var env := CalmSteps(Do(s, Preselect(n, now, limit, ids)), window, now);
    PopSelection(s.db, now, limit, ids, env);
  }
}
