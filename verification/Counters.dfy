/** The counters that every job queue keeps, over the copies a node of a cluster
    gets from the MySQL driver. */
module Counters {
  import opened Jobs
  import opened Store
  import opened Cluster

  /** The counters of one process, and the copies it dropped without a completion
      that took effect. */
  datatype Stats = Stats(
    pops: nat, successes: nat, failures: nat, permanentFailures: nat, completes: nat, dropped: nat)

  const ZERO := Stats(0, 0, 0, 0, 0, 0)

  function Completed(c: Stats, outcome: Outcome): Stats {
    match outcome
    case Succeeded => c.(successes := c.successes + 1, completes := c.completes + 1)
    case GaveUp =>
      c.(failures := c.failures + 1, permanentFailures := c.permanentFailures + 1, completes := c.completes + 1)
    case Retried => c.(failures := c.failures + 1)
  }

  /** What a step does to the counters of node `n`. */
  ghost function Count(s: State, step: Step, n: nat, c: Stats): Stats
    requires Enabled(s, step)
  {
    match step
    case Launch(m, _) => if m == n then c.(pops := c.pops + |Got(s, n)|) else c
    case Complete(m, job, result, _, _) => if m == n then Completed(c, OutcomeOf(job.retry, result)) else c
    case Drop(m, _) => if m == n then c.(dropped := c.dropped + 1) else c
    case _ => c
  }

  ghost function CountAll(s: State, steps: seq<Step>, n: nat, c: Stats): Stats
    requires Feasible(s, steps)
    decreases |steps|
  {
    if steps == [] then c else CountAll(Do(s, steps[0]), steps[1..], n, Count(s, steps[0], n, c))
  }

  ghost predicate Balanced(s: State, n: nat, c: Stats) {
    && c.completes == c.successes + c.permanentFailures
    && c.permanentFailures <= c.failures
    && c.pops == c.successes + c.failures + c.dropped + |Held(s, n)|
  }

  lemma {:induction false} CopiesCount(db: Db, ids: set<nat>)
    requires ids <= db.rows.Keys
    ensures |set id | id in ids :: CopyOf(id, db.rows[id])| == |ids|
    decreases ids
  {
    var copies := set id | id in ids :: CopyOf(id, db.rows[id]);
    if id :| id in ids {
      CopiesCount(db, ids - {id});
      assert copies == (set i | i in ids - {id} :: CopyOf(i, db.rows[i])) + {CopyOf(id, db.rows[id])};
    }
  }

  lemma StepBalances(s: State, step: Step, n: nat, c: Stats)
    requires Enabled(s, step) && step != Fall(n) && Balanced(s, n, c)
    ensures Balanced(Do(s, step), n, Count(s, step, n, c))
  {
    match step
    case Launch(m, committed) => LaunchBalances(s, m, committed, n, c);
    case Complete(m, job, result, now, logged) => CompletionBalances(s, step, n, c);
    case Drop(m, job) => assert |s.members[m].held - multiset{job}| == |s.members[m].held| - 1;
    case _ => OthersKeepHeld(s, step, n);
  }

  lemma OthersKeepHeld(s: State, step: Step, n: nat)
    requires Enabled(s, step) && step != Fall(n) && !step.Launch? && !step.Complete? && !step.Drop?
    ensures Held(Do(s, step), n) == Held(s, n)
  {
    if step.Fall? { assert step.n != n; }
  }

  /** The copies that a node holds. */
  ghost function Held(s: State, n: nat): multiset<Job> {
    if n in s.members then s.members[n].held else multiset{}
  }

  lemma LaunchBalances(s: State, m: nat, committed: bool, n: nat, c: Stats)
    requires Enabled(s, Launch(m, committed)) && Balanced(s, n, c)
    ensures Balanced(DoLaunch(s, m, committed), n, Count(s, Launch(m, committed), n, c))
  {
    CopiesCount(s.db, Got(s, m));
    assert |Copies(s.db, Got(s, m))| == |Got(s, m)|;
  }

  lemma CompletionBalances(s: State, step: Step, n: nat, c: Stats)
    requires Enabled(s, step) && step.Complete? && Balanced(s, n, c)
    ensures Balanced(Do(s, step), n, Count(s, step, n, c))
  {
    CompletionHeld(s, step, n);
    if step.n == n {
      assert |Held(s, n) - multiset{step.job}| == |Held(s, n)| - 1;
    }
  }

  lemma CompletionHeld(s: State, step: Step, n: nat)
    requires Enabled(s, step) && step.Complete?
    ensures Held(Do(s, step), n) == Held(s, n) - if step.n == n then multiset{step.job} else multiset{}
  {
  }

  lemma {:induction false} RunBalances(s: State, steps: seq<Step>, n: nat, c: Stats)
    requires Feasible(s, steps) && Balanced(s, n, c) && Fall(n) !in steps
    ensures Balanced(After(s, steps), n, CountAll(s, steps, n, c))
    decreases |steps|
  {
    if steps != [] {
      StepBalances(s, steps[0], n, c);
      RunBalances(Do(s, steps[0]), steps[1..], n, Count(s, steps[0], n, c));
    }
  }

  /** In every run of a cluster, the counters of a process that did not crash
      balance: completes are successes plus permanent failures, permanent failures
      are failures, and every job popped was completed, or dropped, or is held. */
  lemma CountersBalance(steps: seq<Step>, n: nat)
    requires Feasible(INITIAL, steps) && Fall(n) !in steps
    ensures Balanced(After(INITIAL, steps), n, CountAll(INITIAL, steps, n, ZERO))
  {
    RunBalances(INITIAL, steps, n, ZERO);
  }

  /** The completions of a run by node `n` that end in this way. */
  function Number(steps: seq<Step>, n: nat, outcome: Outcome): nat
    decreases |steps|
  {
    if steps == [] then 0 else
    Number(steps[1..], n, outcome)
    + if steps[0].Complete? && steps[0].n == n && OutcomeOf(steps[0].job.retry, steps[0].result) == outcome then 1 else 0
  }

  lemma {:induction false} CountersCount(s: State, steps: seq<Step>, n: nat, c: Stats)
    requires Feasible(s, steps)
    ensures var d := CountAll(s, steps, n, c);
            && d.successes == c.successes + Number(steps, n, Succeeded)
            && d.permanentFailures == c.permanentFailures + Number(steps, n, GaveUp)
            && d.failures == c.failures + Number(steps, n, GaveUp) + Number(steps, n, Retried)
            && d.completes == c.completes + Number(steps, n, Succeeded) + Number(steps, n, GaveUp)
    decreases |steps|
  {
    if steps != [] {
      CountersCount(Do(s, steps[0]), steps[1..], n, Count(s, steps[0], n, c));
    }
  }

  /** In every run of a cluster each counter is the number of the completions it is
      about. */
  lemma CountersAreNumbers(steps: seq<Step>, n: nat)
    requires Feasible(INITIAL, steps)
    ensures var c := CountAll(INITIAL, steps, n, ZERO);
            && c.successes == Number(steps, n, Succeeded)
            && c.permanentFailures == Number(steps, n, GaveUp)
            && c.failures == Number(steps, n, GaveUp) + Number(steps, n, Retried)
            && c.completes == Number(steps, n, Succeeded) + Number(steps, n, GaveUp)
  {
    CountersCount(INITIAL, steps, n, ZERO);
  }
}
