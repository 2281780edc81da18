/** Runs of services over one store that show how a change can go unnoticed, and
    how one default queue can cause two rounds of reloading. */
module ReloadRuns {
  import opened Jobs
  import opened Reload

  /** One more step at the end of a run. */
  lemma {:induction false} Then(s: State, steps: seq<Step>, step: Step) returns (longer: seq<Step>)
    requires Feasible(s, steps) && Enabled(After(s, steps), step)
    ensures longer == steps + [step] && Feasible(s, longer)
    ensures After(s, longer) == Do(After(s, steps), step)
    ensures forall i :: Reloads(s, longer, i) == Reloads(s, steps, i)
              + if step == Tick(i) && After(s, steps).services[i].lastRevision != After(s, steps).repository.revision
                then 1 else 0
    decreases |steps|
  {
    longer := steps + [step];
    if steps != [] {
      var rest := Then(Do(s, steps[0]), steps[1..], step);
      assert longer[1..] == rest;
    } else {
      assert longer[1..] == [];
    }
  }

  lemma NothingDefined(throttles: map<string, Throttle>)
    ensures Combine(map[], throttles) == map[]
  {
  }

  /** Nothing is stored, and service `i` is new. */
  ghost predicate MayBoot(steps: seq<Step>, i: nat) {
    && Feasible(INITIAL, steps) && i !in After(INITIAL, steps).services
    && After(INITIAL, steps).repository == Repository(map[], map[], 0)
  }

  function WithService(s: State, i: nat, v: Service): State {
    s.(services := s.services[i := v])
  }

  lemma Booting(steps: seq<Step>, i: nat, standard: Option<(string, Queue)>) returns (longer: seq<Step>)
    requires MayBoot(steps, i)
    ensures Feasible(INITIAL, longer)
    ensures After(INITIAL, longer)
            == WithService(After(INITIAL, steps), i, Service(standard, map[], 0, Busy, ReadThrottles(map[])))
  {
    longer := Then(INITIAL, steps, Boot(i, standard));
    longer := Then(INITIAL, longer, Advance(i));
  }

  /** The service has read that nothing is stored. */
  lemma HasRead(steps: seq<Step>, i: nat, standard: Option<(string, Queue)>) returns (longer: seq<Step>)
    requires MayBoot(steps, i)
    ensures Feasible(INITIAL, longer)
    ensures After(INITIAL, longer)
            == WithService(After(INITIAL, steps), i, Service(standard, map[], 0, Busy, StartAll(map[])))
  {
    longer := Booting(steps, i, standard);
    NothingDefined(After(INITIAL, steps).repository.throttles);
    longer := Then(INITIAL, longer, Advance(i));
  }

  /** A new service without a default queue. */
  lemma Booted(steps: seq<Step>, i: nat) returns (longer: seq<Step>)
    requires MayBoot(steps, i)
    ensures Feasible(INITIAL, longer)
    ensures After(INITIAL, longer) == WithService(After(INITIAL, steps), i, Service(None, map[], 0, Quiet, Free))
  {
    longer := HasRead(steps, i, None);
    longer := Then(INITIAL, longer, Advance(i));
  }

  lemma Written(name: string, q: Queue) returns (steps: seq<Step>)
    ensures Feasible(INITIAL, steps)
    ensures var idle := Service(None, map[], 0, Quiet, Free);
            After(INITIAL, steps)
            == State(Repository(map[name := q.definition], map[name := q.throttle], 0),
                     map[0 := idle.(op := BumpAdded(name, q)), 1 := idle], false)
  {
    steps := Booted([], 0);
    steps := Booted(steps, 1);
    steps := Then(INITIAL, steps, BeginAdd(0, name, q));
    steps := Then(INITIAL, steps, Advance(0));
    steps := Then(INITIAL, steps, Advance(0));
  }

  /** It happens: a definition is written, its bump fails, and another service is
      idle with the current revision and runs something else. */
  lemma Unnoticed(name: string, q: Queue) returns (steps: seq<Step>)
    ensures Feasible(INITIAL, steps)
    ensures var s := After(INITIAL, steps);
            && NoWriter(s) && AlreadyStored(s.repository, name, q)
            && 1 in s.services && UpToDate(s.repository, s.services[1])
            && s.services[1].running != Stored(s.repository)
  {
    steps := Written(name, q);
    steps := Then(INITIAL, steps, Abort(0));
    assert name in Stored(After(INITIAL, steps).repository);
  }

  // ---------- Two rounds for one default queue ----------

  /** Services 0 and 1 have both found the default queue missing and are about to
      create it; service 2 watches. */
  function Racing(name: string, q: Queue): State {
    var racer := Service(Some((name, q)), map[], 0, Busy, WriteDefinition(name, q));
    State(Repository(map[], map[], 0), map[0 := racer, 1 := racer, 2 := Service(None, map[], 0, Quiet, Free)], false)
  }

  lemma Missing(steps: seq<Step>, i: nat, name: string, q: Queue) returns (longer: seq<Step>)
    requires MayBoot(steps, i)
    ensures Feasible(INITIAL, longer)
    ensures After(INITIAL, longer)
            == WithService(After(INITIAL, steps), i,
                           Service(Some((name, q)), map[], 0, Busy, WriteDefinition(name, q)))
  {
    longer := HasRead(steps, i, Some((name, q)));
    longer := Then(INITIAL, longer, Advance(i));
  }

  lemma RaceHappens(name: string, q: Queue) returns (steps: seq<Step>)
    ensures Feasible(INITIAL, steps) && After(INITIAL, steps) == Racing(name, q)
  {
    steps := Booted([], 2);
    steps := Missing(steps, 0, name, q);
    steps := Missing(steps, 1, name, q);
    assert After(INITIAL, steps).services == Racing(name, q).services;
  }

  function WithOp(s: State, i: nat, op: Op): State
    requires i in s.services
  {
    Put(s, i, s.services[i].(op := op))
  }

  /** Both writers change a table, so both will bump the revision. */
  function BothBump(name: string, q: Queue): State {
    WithOp(WithOp(Racing(name, q), 0, BumpAdded(name, q)), 1, BumpAdded(name, q)).(
      repository := Repository(map[name := q.definition], map[name := q.throttle], 0))
  }

  /** One writer has changed the first table and the other one has not. */
  function DefinitionWritten(name: string, q: Queue): State {
    WithOp(WithOp(Racing(name, q), 0, WriteThrottle(name, q, true)), 1, WriteThrottle(name, q, false)).(
      repository := Repository(map[name := q.definition], map[], 0))
  }

  lemma BothDefine(name: string, q: Queue) returns (steps: seq<Step>)
    ensures Feasible(Racing(name, q), steps) && After(Racing(name, q), steps) == DefinitionWritten(name, q)
    ensures (forall step | step in steps :: step.Advance?) && Reloads(Racing(name, q), steps, 2) == 0
  {
    var s := Racing(name, q);
    steps := Then(s, [], Advance(0));
    steps := Then(s, steps, Advance(1));
    assert After(s, steps).services == DefinitionWritten(name, q).services;
  }

  lemma BothWrite(name: string, q: Queue) returns (steps: seq<Step>)
    ensures Feasible(Racing(name, q), steps) && After(Racing(name, q), steps) == BothBump(name, q)
    ensures (forall step | step in steps :: step.Advance?) && Reloads(Racing(name, q), steps, 2) == 0
  {
    var s := Racing(name, q);
    steps := BothDefine(name, q);
    steps := Then(s, steps, Advance(1));
    steps := Then(s, steps, Advance(0));
    assert After(s, steps).services == BothBump(name, q).services;
  }

  lemma FirstBump(name: string, q: Queue) returns (steps: seq<Step>)
    ensures Feasible(Racing(name, q), steps) && (forall step | step in steps :: Internal(step))
    ensures var t := After(Racing(name, q), steps);
            && t.repository == BothBump(name, q).repository.(revision := 1)
            && 1 in t.services && t.services[1].op == BumpAdded(name, q)
            && 2 in t.services && t.services[2] == Service(None, map[], 1, Wanted, Free)
    ensures Reloads(Racing(name, q), steps, 2) == 1
  {
    var s := Racing(name, q);
    steps := BothWrite(name, q);
    steps := Then(s, steps, Advance(0));
    steps := Then(s, steps, Tick(2));
  }

  lemma ReloadBegins(name: string, q: Queue) returns (steps: seq<Step>)
    ensures Feasible(Racing(name, q), steps) && (forall step | step in steps :: Internal(step))
    ensures var t := After(Racing(name, q), steps);
            && t.repository == BothBump(name, q).repository.(revision := 1)
            && 1 in t.services && t.services[1].op == BumpAdded(name, q)
            && 2 in t.services
            && t.services[2] == Service(None, map[], 1, Busy, ReadThrottles(t.repository.definitions))
    ensures Reloads(Racing(name, q), steps, 2) == 1
  {
    var s := Racing(name, q);
    steps := FirstBump(name, q);
    steps := Then(s, steps, BeginReload(2));
    steps := Then(s, steps, Advance(2));
  }

  lemma Reloaded(name: string, q: Queue) returns (steps: seq<Step>)
    ensures Feasible(Racing(name, q), steps) && (forall step | step in steps :: Internal(step))
    ensures var t := After(Racing(name, q), steps);
            && t.repository == BothBump(name, q).repository.(revision := 1)
            && 1 in t.services && t.services[1].op == BumpAdded(name, q)
            && 2 in t.services && t.services[2].lastRevision == 1 && t.services[2].watcher.Quiet?
    ensures Reloads(Racing(name, q), steps, 2) == 1
  {
    var s := Racing(name, q);
    steps := ReloadBegins(name, q);
    steps := Then(s, steps, Advance(2));
    steps := Then(s, steps, Advance(2));
  }

  lemma SecondBump(name: string, q: Queue) returns (steps: seq<Step>)
    ensures Feasible(Racing(name, q), steps) && (forall step | step in steps :: Internal(step))
    ensures var t := After(Racing(name, q), steps);
            && t.repository == BothBump(name, q).repository.(revision := 2)
            && 2 in t.services && t.services[2].lastRevision == 1 && t.services[2].watcher.Quiet?
    ensures Reloads(Racing(name, q), steps, 2) == 1
  {
    steps := Reloaded(name, q);
    steps := Then(Racing(name, q), steps, Advance(1));
  }

  /** One default queue can cause two rounds: two services that create it at the
      same time, one changing one table first and one the other, bump the revision
      twice, and a third service that was up to date reloads twice. */
  lemma TwoRounds(name: string, q: Queue) returns (before: seq<Step>, steps: seq<Step>)
    ensures Feasible(INITIAL, before) && After(INITIAL, before) == Racing(name, q)
    ensures Shared(Racing(name, q), name, q) && UpToDate(Racing(name, q).repository, Racing(name, q).services[2])
    ensures Feasible(Racing(name, q), steps) && (forall step | step in steps :: Internal(step))
    ensures Reloads(Racing(name, q), steps, 2) == 2
  {
    before := RaceHappens(name, q);
    steps := SecondBump(name, q);
    steps := Then(Racing(name, q), steps, Tick(2));
  }
}
