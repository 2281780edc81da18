/** Queue definitions in a cluster: writers change the stored definitions and
    then bump a revision; every service watches the revision and reloads.  Each
    statement on the store is a step; the holder of a service's lock runs one
    operation at a time. */
module Reload {
  import opened Jobs
  import opened Sets

  datatype Definition = Definition(pollingInterval: nat, maxWorkers: nat)
  datatype Throttle = Throttle(maxDispatchesPerSecond: real, maxBurstSize: nat)
  datatype Queue = Queue(definition: Definition, throttle: Throttle)

  const UNTHROTTLED := Throttle(0.0, 0)

  /** The two tables and the revision of the queue definitions. */
  datatype Repository = Repository(
    definitions: map<string, Definition>, throttles: map<string, Throttle>, revision: nat)

  function Combine(definitions: map<string, Definition>, throttles: map<string, Throttle>): map<string, Queue> {
    map name | name in definitions ::
      Queue(definitions[name], if name in throttles then throttles[name] else UNTHROTTLED)
  }

  /** The definitions as FindAll returns them when nobody interferes. */
  function Stored(r: Repository): map<string, Queue> {
    Combine(r.definitions, r.throttles)
  }

  /** Queue `q` runs as the row of its definition and the row of its throttle say;
      without the latter it runs without a limit, that is with rate and burst 0. */
  predicate RunsAsStored(r: Repository, name: string, q: Queue) {
    && name in r.definitions
    && q.definition.pollingInterval == r.definitions[name].pollingInterval
    && q.definition.maxWorkers == r.definitions[name].maxWorkers
    && (name in r.throttles ==>
          && q.throttle.maxDispatchesPerSecond == r.throttles[name].maxDispatchesPerSecond
          && q.throttle.maxBurstSize == r.throttles[name].maxBurstSize)
    && (name !in r.throttles ==> q.throttle.maxDispatchesPerSecond == 0.0 && q.throttle.maxBurstSize == 0)
  }

  // ---------- Validation of a new definition ----------

  /** What addJobQueue makes of a definition, or None for an error. */
  function Validate(q: Queue, defaultPolling: nat, defaultWorkers: nat): Option<Queue> {
    var rate, burst := q.throttle.maxDispatchesPerSecond, q.throttle.maxBurstSize;
    if rate > 0.0 && burst == 0 then None
    else if rate < 0.0 then None
    else if rate == 0.0 && burst != 0 then None
    else
      var polling := if rate > 0.0 then 100
                     else if q.definition.pollingInterval == 0 then defaultPolling
                     else q.definition.pollingInterval;
      var workers := if q.definition.maxWorkers == 0 then defaultWorkers else q.definition.maxWorkers;
      Some(Queue(Definition(polling, workers), q.throttle))
  }

  /** A definition is accepted exactly when rate and burst are both set or both
      not and the rate is not negative; an accepted one gets workers if the
      default has any, a throttled one is polled every 100 milliseconds, other values
      that are given stay, and validating twice changes nothing. */
  lemma ValidateIs(q: Queue, defaultPolling: nat, defaultWorkers: nat)
    ensures Validate(q, defaultPolling, defaultWorkers).Some? <==>
              (q.throttle.maxDispatchesPerSecond >= 0.0
               && (q.throttle.maxDispatchesPerSecond > 0.0 <==> q.throttle.maxBurstSize > 0))
    ensures var v := Validate(q, defaultPolling, defaultWorkers);
            v.Some? ==>
              (&& v.value.throttle == q.throttle
               && (defaultWorkers > 0 ==> v.value.definition.maxWorkers > 0)
               && (q.definition.maxWorkers > 0 ==> v.value.definition.maxWorkers == q.definition.maxWorkers)
               && (q.definition.maxWorkers == 0 ==> v.value.definition.maxWorkers == defaultWorkers)
               && (q.throttle.maxDispatchesPerSecond > 0.0 ==> v.value.definition.pollingInterval == 100)
               && (q.throttle.maxDispatchesPerSecond == 0.0 && q.definition.pollingInterval > 0 ==>
                     v.value.definition.pollingInterval == q.definition.pollingInterval)
               && (q.throttle.maxDispatchesPerSecond == 0.0 && q.definition.pollingInterval == 0 ==>
                     v.value.definition.pollingInterval == defaultPolling)
               && Validate(v.value, defaultPolling, defaultWorkers) == v)
  {
  }

  // ---------- Services ----------

  /** What the holder of the lock of a service is about to do. */
  datatype Op =
    | Free
    | ReadDefinitions
    | ReadThrottles(definitions: map<string, Definition>)
    | StartAll(all: map<string, Queue>)
    | WriteDefinition(name: string, queue: Queue)
    | WriteThrottle(name: string, queue: Queue, updated: bool)
    | BumpAdded(name: string, queue: Queue)
    | PutAdded(name: string, queue: Queue)
    | DeleteDefinition(name: string)
    | DeleteThrottle(name: string)
    | BumpDeleted(name: string)
    | DropRunning(name: string)
    | FindDefinition(name: string)
    | FindThrottle(name: string, definition: Definition)
    | PutFound(name: string, queue: Queue)

  /** The watcher is quiet, or has seen a new revision and waits for the lock, or
      holds it and reloads. */
  datatype Watcher = Quiet | Wanted | Busy

  datatype Service = Service(
    standard: Option<(string, Queue)>, running: map<string, Queue>,
    lastRevision: nat, watcher: Watcher, op: Op)

  /** `dangling`: a write changed the tables, failed before its bump of the
      revision, and there was no bump since. */
  datatype State = State(repository: Repository, services: map<nat, Service>, dangling: bool)

  const INITIAL := State(Repository(map[], map[], 0), map[], false)

  datatype Step =
    | Boot(i: nat, standard: Option<(string, Queue)>)
    | Tick(i: nat)
    | BeginReload(i: nat)
    | BeginAdd(i: nat, name: string, queue: Queue)
    | BeginDelete(i: nat, name: string)
    | BeginFind(i: nat, name: string)
    | Advance(i: nat)
    | Abort(i: nat)
    | Die(i: nat)

  predicate Enabled(s: State, step: Step) {
    match step
    case Boot(i, _) => i !in s.services
    case Tick(i) => i in s.services && s.services[i].watcher.Quiet?
    case BeginReload(i) => i in s.services && s.services[i].watcher.Wanted? && s.services[i].op.Free?
    case BeginAdd(i, _, _) => i in s.services && s.services[i].op.Free?
    case BeginDelete(i, _) => i in s.services && s.services[i].op.Free?
    case BeginFind(i, _) => i in s.services && s.services[i].op.Free?
    case Advance(i) => i in s.services && !s.services[i].op.Free?
    case Abort(i) => i in s.services && !s.services[i].op.Free? && !s.services[i].watcher.Busy?
    case Die(i) => i in s.services
  }

  function Do(s: State, step: Step): State
    requires Enabled(s, step)
  {
    match step
    case Boot(i, standard) =>
      s.(services := s.services[i := Service(standard, map[], s.repository.revision, Busy, ReadDefinitions)])
    case Tick(i) =>
      if s.repository.revision == s.services[i].lastRevision then s
      else Put(s, i, s.services[i].(lastRevision := s.repository.revision, watcher := Wanted))
    case BeginReload(i) => Put(s, i, s.services[i].(watcher := Busy, running := map[], op := ReadDefinitions))
    case BeginAdd(i, name, queue) => Put(s, i, s.services[i].(op := WriteDefinition(name, queue)))
    case BeginDelete(i, name) => Put(s, i, s.services[i].(op := DeleteDefinition(name)))
    case BeginFind(i, name) => Put(s, i, s.services[i].(op := FindDefinition(name)))
    case Advance(i) =>
      var (r, v) := Next(s.repository, s.services[i]);
      State(r, s.services[i := v], s.dangling && r.revision == s.repository.revision)
    // A statement fails, and the caller gets an error.
    case Abort(i) => LeaveDangling(Put(s, i, s.services[i].(op := Free)), s.services[i].op)
    // A statement fails during startup or reload, which is a panic; or a crash.
    case Die(i) => LeaveDangling(s.(services := s.services - {i}), s.services[i].op)
  }

  function LeaveDangling(s: State, op: Op): State {
    s.(dangling := s.dangling || Unannounced(op))
  }

  function Put(s: State, i: nat, v: Service): State {
    s.(services := s.services[i := v])
  }

  /** The operation is over; if it was the reload, so is that. */
  function Finish(v: Service): Service {
    v.(op := Free, watcher := if v.watcher.Busy? then Quiet else v.watcher)
  }

  /** The next statement of the operation in progress. */
  function Next(r: Repository, v: Service): (Repository, Service)
    requires !v.op.Free?
  {
    match v.op
    case ReadDefinitions => (r, v.(op := ReadThrottles(r.definitions)))
    case ReadThrottles(definitions) => (r, v.(op := StartAll(Combine(definitions, r.throttles))))
    case StartAll(all) =>
      if v.standard.Some? && v.standard.value.0 !in all
      then (r, v.(running := all, op := WriteDefinition(v.standard.value.0, v.standard.value.1)))
      else (r, Finish(v.(running := all)))
    case WriteDefinition(name, q) =>
      var updated := name !in r.definitions || r.definitions[name] != q.definition;
      (r.(definitions := r.definitions[name := q.definition]), v.(op := WriteThrottle(name, q, updated)))
    case WriteThrottle(name, q, before) =>
      var updated := before || name !in r.throttles || r.throttles[name] != q.throttle;
      (r.(throttles := r.throttles[name := q.throttle]),
       if updated then v.(op := BumpAdded(name, q)) else Finish(v))
    case BumpAdded(name, q) => (r.(revision := r.revision + 1), v.(op := PutAdded(name, q)))
    case PutAdded(name, q) => (r, Finish(v.(running := v.running[name := q])))
    case DeleteDefinition(name) => (r.(definitions := r.definitions - {name}), v.(op := DeleteThrottle(name)))
    case DeleteThrottle(name) => (r.(throttles := r.throttles - {name}), v.(op := BumpDeleted(name)))
    case BumpDeleted(name) => (r.(revision := r.revision + 1), v.(op := DropRunning(name)))
    case DropRunning(name) => (r, Finish(v.(running := v.running - {name})))
    case FindDefinition(name) =>
      if name in r.definitions then (r, v.(op := FindThrottle(name, r.definitions[name]))) else (r, Finish(v))
    case FindThrottle(name, definition) =>
      (r, v.(op := PutFound(name, Queue(definition, if name in r.throttles then r.throttles[name] else UNTHROTTLED))))
    case PutFound(name, q) => (r, Finish(v.(running := v.running[name := q])))
  }

  // ---------- Agreement ----------

  /** The operation has changed the tables and not bumped the revision yet. */
  predicate Unannounced(op: Op) {
    (op.WriteThrottle? && op.updated) || op.BumpAdded? || op.DeleteThrottle? || op.BumpDeleted?
  }

  ghost predicate Announced(s: State) {
    !s.dangling && forall i | i in s.services :: !Unannounced(s.services[i].op)
  }

  /** The view that a service whose revision is current has at this point. */
  predicate Agrees(r: Repository, v: Service) {
    match v.op
    case ReadDefinitions => true
    case ReadThrottles(definitions) => definitions == r.definitions
    case StartAll(all) => all == Stored(r)
    case FindThrottle(name, definition) =>
      v.running == Stored(r) && name in r.definitions && r.definitions[name] == definition
    case PutFound(name, q) => v.running == Stored(r) && name in Stored(r) && Stored(r)[name] == q
    case PutAdded(_, _) => false
    case DropRunning(_) => false
    case _ => v.running == Stored(r)
  }

  ghost predicate ServiceOk(s: State, v: Service) {
    && v.lastRevision <= s.repository.revision
    && (v.watcher.Busy? ==> !v.op.Free?)
    && (v.op.ReadDefinitions? || v.op.ReadThrottles? || v.op.StartAll? ==> v.watcher.Busy?)
    && (v.lastRevision == s.repository.revision && Announced(s) && !v.watcher.Wanted? ==> Agrees(s.repository, v))
  }

  ghost predicate Inv(s: State) {
    forall i | i in s.services :: ServiceOk(s, s.services[i])
  }

  lemma StepKeepsInv(s: State, step: Step)
    requires Inv(s) && Enabled(s, step)
    ensures Inv(Do(s, step))
  {
    var t := Do(s, step);
    forall j | j in t.services ensures ServiceOk(t, t.services[j]) {
      if j != step.i {
        OtherServiceOk(s, step, j);
      } else if step.Advance? {
        AdvanceOk(s, j);
      } else {
        assert j in s.services ==> ServiceOk(s, s.services[j]);
        if Announced(t) { AnnouncedBefore(s, step); }
      }
    }
  }

  /** Changes get announced only by a bump of the revision. */
  lemma AnnouncedBefore(s: State, step: Step)
    requires Enabled(s, step) && Announced(Do(s, step))
    ensures Announced(s) || s.repository.revision < Do(s, step).repository.revision
  {
    var t := Do(s, step);
    forall j | j in s.services && j != step.i ensures !Unannounced(s.services[j].op) {
      assert t.services[j] == s.services[j];
    }
    assert step.Die? || step.i in t.services;
  }

  /** A statement that leaves everything announced changed nothing. */
  lemma TablesBefore(s: State, i: nat)
    requires i in s.services && !s.services[i].op.Free? && Announced(Do(s, Advance(i)))
    ensures Do(s, Advance(i)).repository.definitions == s.repository.definitions
    ensures Do(s, Advance(i)).repository.throttles == s.repository.throttles
  {
    var t := Do(s, Advance(i));
    assert !Unannounced(t.services[i].op);
  }

  lemma OtherServiceOk(s: State, step: Step, j: nat)
    requires Inv(s) && Enabled(s, step) && j in s.services && j != step.i
    ensures ServiceOk(Do(s, step), Do(s, step).services[j])
  {
    var t := Do(s, step);
    assert ServiceOk(s, s.services[j]) && t.services[j] == s.services[j];
    if Announced(t) {
      AnnouncedBefore(s, step);
      if step.Advance? {
        TablesBefore(s, step.i);
      }
    }
  }

  lemma AdvanceOk(s: State, i: nat)
    requires Inv(s) && i in s.services && !s.services[i].op.Free?
    ensures ServiceOk(Do(s, Advance(i)), Do(s, Advance(i)).services[i])
  {
    var t := Do(s, Advance(i));
    var v := s.services[i];
    assert ServiceOk(s, v);
    if Announced(t) && s.repository.revision == t.repository.revision {
      AnnouncedBefore(s, Advance(i));
      TablesBefore(s, i);
      if v.op.PutFound? && v.running == Stored(s.repository) && v.op.name in v.running && v.running[v.op.name] == v.op.queue {
        assert v.running[v.op.name := v.op.queue] == v.running;
      }
    }
  }

  // ---------- Runs ----------

  predicate Feasible(s: State, steps: seq<Step>)
    decreases |steps|
  {
    steps == [] || (Enabled(s, steps[0]) && Feasible(Do(s, steps[0]), steps[1..]))
  }

  function After(s: State, steps: seq<Step>): State
    requires Feasible(s, steps)
    decreases |steps|
  {
    if steps == [] then s else After(Do(s, steps[0]), steps[1..])
  }

  lemma {:induction false} RunKeepsInv(s: State, steps: seq<Step>)
    requires Inv(s) && Feasible(s, steps)
    ensures Inv(After(s, steps))
    decreases |steps|
  {
    if steps != [] {
      StepKeepsInv(s, steps[0]);
      RunKeepsInv(Do(s, steps[0]), steps[1..]);
    }
  }

  /** In every run, with any number of services and writers: when no change is
      unannounced and a service is idle with the current revision, it runs
      exactly the stored definitions, each as its rows in the two tables say. */
  lemma ReloadAgrees(steps: seq<Step>, i: nat)
    requires Feasible(INITIAL, steps) && i in After(INITIAL, steps).services
    ensures var s := After(INITIAL, steps);
            var v := s.services[i];
            v.op.Free? && v.watcher.Quiet? && v.lastRevision == s.repository.revision && Announced(s) ==>
              && v.running == Stored(s.repository)
              && v.running.Keys == s.repository.definitions.Keys
              && (forall name | name in v.running :: RunsAsStored(s.repository, name, v.running[name]))
  {
    RunKeepsInv(INITIAL, steps);
    assert ServiceOk(After(INITIAL, steps), After(INITIAL, steps).services[i]);
  }

  // ---------- Single operations ----------

  /** A find puts the queue as it is stored, or nothing if it is not stored. */
  lemma FindPuts(s: State, i: nat, name: string)
    requires i in s.services && s.services[i].op.Free? && !s.services[i].watcher.Busy?
    ensures var looked := Do(Do(s, BeginFind(i, name)), Advance(i));
            if name in s.repository.definitions
            then var t := Do(Do(looked, Advance(i)), Advance(i));
                 && t.repository == s.repository && t.services[i].op.Free?
                 && t.services[i].running.Keys == s.services[i].running.Keys + {name}
                 && RunsAsStored(t.repository, name, t.services[i].running[name])
                 && (forall other | other in s.services[i].running && other != name ::
                       t.services[i].running[other] == s.services[i].running[other])
            else looked == s
  {
    if name !in s.repository.definitions {
      assert Do(Do(s, BeginFind(i, name)), Advance(i)).services == s.services;
    }
  }

  /** An Add that changes something stores the queue, announces it and runs it. */
  lemma AddTakesEffect(s: State, i: nat, name: string, q: Queue)
    requires i in s.services && s.services[i].op.Free? && !AlreadyStored(s.repository, name, q)
    ensures var written := Do(Do(Do(s, BeginAdd(i, name, q)), Advance(i)), Advance(i));
            && Enabled(written, Advance(i)) && Enabled(Do(written, Advance(i)), Advance(i))
            && var t := Do(Do(written, Advance(i)), Advance(i));
               && t.services[i].op.Free? && t.repository.revision == s.repository.revision + 1
               && AlreadyStored(t.repository, name, q)
               && t.services[i].running == s.services[i].running[name := q]
  {
  }

  /** A deletion removes both rows, announces it and stops the queue. */
  lemma DeleteTakesEffect(s: State, i: nat, name: string)
    requires i in s.services && s.services[i].op.Free?
    ensures var deleted := Do(Do(Do(s, BeginDelete(i, name)), Advance(i)), Advance(i));
            && Enabled(deleted, Advance(i)) && Enabled(Do(deleted, Advance(i)), Advance(i))
            && var t := Do(Do(deleted, Advance(i)), Advance(i));
               && t.services[i].op.Free? && t.repository.revision == s.repository.revision + 1
               && t.repository.definitions == s.repository.definitions - {name}
               && t.repository.throttles == s.repository.throttles - {name}
               && t.services[i].running == s.services[i].running - {name}
  {
  }

  /** A service behind the revision that notices and reloads without interference
      runs exactly what is stored, and is up to date. */
  lemma CatchesUp(s: State, i: nat)
    requires i in s.services && s.services[i].op.Free? && s.services[i].watcher.Quiet?
    requires s.services[i].lastRevision != s.repository.revision
    requires s.services[i].standard.Some? ==> s.services[i].standard.value.0 in s.repository.definitions
    ensures var reading := Do(Do(s, Tick(i)), BeginReload(i));
            var t := Do(Do(Do(reading, Advance(i)), Advance(i)), Advance(i));
            && t.repository == s.repository && UpToDate(t.repository, t.services[i])
            && t.services[i].running.Keys == t.repository.definitions.Keys
            && (forall name | name in t.services[i].running ::
                  RunsAsStored(t.repository, name, t.services[i].running[name]))
  {
  }

  // ---------- Changes that are never announced ----------

  /** An Add by a service that is free bumps the revision exactly when it changes
      one of the two tables. */
  lemma AddBumpsIff(s: State, i: nat, name: string, q: Queue)
    requires i in s.services && s.services[i].op.Free?
    ensures var t := Do(Do(Do(s, BeginAdd(i, name, q)), Advance(i)), Advance(i));
            && (t.services[i].op.BumpAdded? <==>
                  t.repository.definitions != s.repository.definitions
                  || t.repository.throttles != s.repository.throttles)
            && (t.services[i].op.BumpAdded? || t.services[i].op.Free?)
            && t.repository.revision == s.repository.revision
  {
    var a := Do(s, BeginAdd(i, name, q));
    var b := Do(a, Advance(i));
    var t := Do(b, Advance(i));
    var r := s.repository;
    assert b.repository.definitions == r.definitions <==> name in r.definitions && r.definitions[name] == q.definition;
    assert t.repository.throttles == r.throttles <==> name in r.throttles && r.throttles[name] == q.throttle;
  }

  /** Requests that ask for what is stored already, and everything else that
      writes nothing. */
  predicate Repeats(r: Repository, step: Step) {
    match step
    case BeginAdd(_, name, q) => AlreadyStored(r, name, q)
    case BeginDelete(_, _) => false
    case Boot(_, standard) => standard.Some? ==> standard.value.0 in r.definitions
    case _ => true
  }

  predicate AlreadyStored(r: Repository, name: string, q: Queue) {
    && name in r.definitions && r.definitions[name] == q.definition
    && name in r.throttles && r.throttles[name] == q.throttle
  }

  /** The operation in progress, if any, will change nothing stored. */
  predicate WritesNothing(r: Repository, v: Service) {
    && (v.standard.Some? ==> v.standard.value.0 in r.definitions)
    && match v.op
       case Free => true
       case ReadDefinitions => true
       case ReadThrottles(definitions) => definitions == r.definitions
       case StartAll(all) => all.Keys == r.definitions.Keys
       case WriteDefinition(name, q) => AlreadyStored(r, name, q)
       case WriteThrottle(name, q, updated) => AlreadyStored(r, name, q) && !updated
       case FindDefinition(_) => true
       case FindThrottle(_, _) => true
       case PutFound(_, _) => true
       case _ => false
  }

  ghost predicate NoWriter(s: State) {
    forall i | i in s.services :: WritesNothing(s.repository, s.services[i])
  }

  lemma RepeatingStep(s: State, step: Step)
    requires NoWriter(s) && Enabled(s, step) && Repeats(s.repository, step)
    ensures NoWriter(Do(s, step)) && Do(s, step).repository == s.repository && Do(s, step).dangling == s.dangling
  {
    var t := Do(s, step);
    if step.i in s.services { assert WritesNothing(s.repository, s.services[step.i]); }
    assert t.repository.definitions == s.repository.definitions;
    assert t.repository.throttles == s.repository.throttles;
    forall j | j in t.services ensures WritesNothing(t.repository, t.services[j]) {
      if j in s.services { assert WritesNothing(s.repository, s.services[j]); }
    }
  }

  /** Repeating requests, through any services and any number of times, neither
      changes the store nor announces what was not announced. */
  lemma {:induction false} NeverAnnounced(s: State, steps: seq<Step>)
    requires NoWriter(s) && Feasible(s, steps) && forall step | step in steps :: Repeats(s.repository, step)
    ensures After(s, steps).repository == s.repository && After(s, steps).dangling == s.dangling
    decreases |steps|
  {
    if steps != [] {
      RepeatingStep(s, steps[0]);
      assert forall step | step in steps[1..] :: step in steps;
      NeverAnnounced(Do(s, steps[0]), steps[1..]);
    }
  }

  /** The service is idle and has seen the current revision. */
  predicate UpToDate(r: Repository, v: Service) {
    v.op.Free? && v.watcher.Quiet? && v.lastRevision == r.revision
  }

  /** Somebody asks this service for something, or it dies. */
  predicate Engages(step: Step, i: nat) {
    step.i == i && (step.BeginAdd? || step.BeginDelete? || step.BeginFind? || step.Die?)
  }

  lemma {:induction false} RevisionGrows(s: State, steps: seq<Step>)
    requires Feasible(s, steps)
    ensures s.repository.revision <= After(s, steps).repository.revision
    decreases |steps|
  {
    if steps != [] {
      RevisionGrows(Do(s, steps[0]), steps[1..]);
    }
  }

  /** As long as the revision is not bumped and nobody asks it for anything, an
      idle service does not move, whatever is written to the store. */
  lemma {:induction false} Unmoved(s: State, steps: seq<Step>, i: nat)
    requires i in s.services && UpToDate(s.repository, s.services[i]) && Feasible(s, steps)
    requires After(s, steps).repository.revision == s.repository.revision
    requires forall step | step in steps :: !Engages(step, i)
    ensures i in After(s, steps).services && After(s, steps).services[i] == s.services[i]
    decreases |steps|
  {
    if steps != [] {
      assert steps[0] in steps && forall step | step in steps[1..] :: step in steps;
      RevisionGrows(s, [steps[0]]);
      RevisionGrows(Do(s, steps[0]), steps[1..]);
      Unmoved(Do(s, steps[0]), steps[1..], i);
    }
  }

  /** A service that runs other definitions than the stored ones although it has
      seen the current revision goes on doing so, however often and wherever the
      request is repeated. */
  lemma StaysStale(s: State, steps: seq<Step>, i: nat)
    requires i in s.services && UpToDate(s.repository, s.services[i])
    requires s.services[i].running != Stored(s.repository)
    requires NoWriter(s) && Feasible(s, steps)
    requires forall step | step in steps :: Repeats(s.repository, step) && !Engages(step, i)
    ensures var t := After(s, steps);
            i in t.services && UpToDate(t.repository, t.services[i]) && t.services[i].running != Stored(t.repository)
  {
    NeverAnnounced(s, steps);
    Unmoved(s, steps, i);
  }

  // ---------- Reloads stop ----------

  /** Steps without external writes: watchers, the operations in progress and
      their failures. */
  predicate Internal(step: Step) {
    step.Tick? || step.BeginReload? || step.Advance? || step.Abort? || step.Die?
  }

  /** The services reload or are idle; only the standard queue is being added. */
  predicate ClosedOp(v: Service) {
    match v.op
    case Free => true
    case ReadDefinitions => true
    case ReadThrottles(_) => true
    case StartAll(_) => true
    case WriteDefinition(name, _) => v.standard.Some? && name == v.standard.value.0
    case WriteThrottle(name, _, _) => v.standard.Some? && name == v.standard.value.0
    case BumpAdded(name, _) => v.standard.Some? && name == v.standard.value.0
    case PutAdded(name, _) => v.standard.Some? && name == v.standard.value.0
    case _ => false
  }

  ghost predicate Closed(s: State) {
    forall i | i in s.services :: ClosedOp(s.services[i])
  }

  /** The service may still add its standard queue and bump the revision. */
  predicate MayBump(r: Repository, v: Service) {
    v.standard.Some? &&
    match v.op
    case ReadThrottles(definitions) => v.standard.value.0 !in definitions
    case StartAll(all) => v.standard.value.0 !in all
    case WriteDefinition(_, _) => true
    case WriteThrottle(_, _, _) => true
    case BumpAdded(_, _) => true
    case _ => v.standard.value.0 !in r.definitions
  }

  /** What an operation in progress has written or read is still stored, as
      nothing is deleted. */
  predicate Written(r: Repository, v: Service) {
    match v.op
    case ReadThrottles(definitions) => definitions.Keys <= r.definitions.Keys
    case StartAll(all) => all.Keys <= r.definitions.Keys
    case WriteThrottle(name, _, _) => name in r.definitions
    case BumpAdded(name, _) => name in r.definitions
    case PutAdded(name, _) => name in r.definitions
    case _ => true
  }

  ghost predicate AllWritten(s: State) {
    forall i | i in s.services :: Written(s.repository, s.services[i])
  }

  function Bumpers(s: State): set<nat> {
    set i | i in s.services && MayBump(s.repository, s.services[i])
  }

  lemma InternalStep(s: State, step: Step)
    requires Closed(s) && AllWritten(s) && Enabled(s, step) && Internal(step)
    ensures Closed(Do(s, step)) && AllWritten(Do(s, step))
    ensures Bumpers(Do(s, step)) <= Bumpers(s)
    ensures Do(s, step).services.Keys == s.services.Keys - if step.Die? then {step.i} else {}
    ensures Do(s, step).repository.revision == s.repository.revision
         || (step.Advance? && step.i in Bumpers(s) && step.i !in Bumpers(Do(s, step)))
  {
    var t := Do(s, step);
    assert s.repository.definitions.Keys <= t.repository.definitions.Keys by {
      assert ClosedOp(s.services[step.i]);
    }
    forall j | j in t.services
      ensures ClosedOp(t.services[j]) && Written(t.repository, t.services[j])
      ensures MayBump(t.repository, t.services[j]) ==> MayBump(s.repository, s.services[j])
    {
      assert ClosedOp(s.services[j]) && Written(s.repository, s.services[j]);
    }
  }

  /** The rounds of reloading that service `i` may still see. */
  function Rounds(s: State, i: nat): nat
    requires i in s.services
  {
    |Bumpers(s)| + if s.services[i].lastRevision == s.repository.revision then 0 else 1
  }

  /** How many reloads service `i` decides on in a run. */
  function Reloads(s: State, steps: seq<Step>, i: nat): nat
    requires Feasible(s, steps)
    decreases |steps|
  {
    if steps == [] then 0 else
    Reloads(Do(s, steps[0]), steps[1..], i)
    + if steps[0] == Tick(i) && s.services[i].lastRevision != s.repository.revision then 1 else 0
  }

  /** Without external writes reloads stop: a service reloads at most once for
      what it has not seen, and once more for each service that still has to
      create its standard queue, whatever fails meanwhile. */
  lemma {:induction false} ReloadsStop(s: State, steps: seq<Step>, i: nat)
    requires Closed(s) && AllWritten(s) && Feasible(s, steps) && i in s.services
    requires forall step | step in steps :: Internal(step) && step != Die(i)
    ensures Reloads(s, steps, i) <= Rounds(s, i)
    decreases |steps|
  {
    if steps != [] {
      var t := Do(s, steps[0]);
      InternalStep(s, steps[0]);
      RoundsShrink(s, steps[0], i);
      assert forall step | step in steps[1..] :: step in steps;
      ReloadsStop(t, steps[1..], i);
    }
  }

  lemma RoundsShrink(s: State, step: Step, i: nat)
    requires Closed(s) && AllWritten(s) && Enabled(s, step) && Internal(step) && i in s.services && step != Die(i)
    ensures i in Do(s, step).services
    ensures Rounds(Do(s, step), i)
         <= Rounds(s, i) - if step == Tick(i) && s.services[i].lastRevision != s.repository.revision then 1 else 0
  {
    var t := Do(s, step);
    InternalStep(s, step);
    SubsetSize(Bumpers(t), Bumpers(s));
    if t.repository.revision != s.repository.revision {
      SubsetSize(Bumpers(t), Bumpers(s) - {step.i});
    }
  }

  // ---------- One default queue for all services ----------

  /** Every service creates the same default queue, if any. */
  ghost predicate Shared(s: State, name: string, q: Queue) {
    forall i | i in s.services :: SharedOp(s.services[i], name, q)
  }

  predicate SharedOp(v: Service, name: string, q: Queue) {
    && (v.standard.Some? ==> v.standard.value == (name, q))
    && match v.op
       case WriteDefinition(n, p) => n == name && p == q
       case WriteThrottle(n, p, _) => n == name && p == q
       case BumpAdded(n, p) => n == name && p == q
       case PutAdded(n, p) => n == name && p == q
       case ReadDefinitions => true
       case ReadThrottles(_) => true
       case StartAll(_) => true
       case Free => true
       case _ => false
  }

  /** The services that are going to bump the revision. */
  function Bumping(s: State): set<nat> {
    set i | i in s.services && WillBump(s.services[i].op)
  }

  predicate WillBump(op: Op) {
    op.BumpAdded? || (op.WriteThrottle? && op.updated)
  }

  /** Bumps that the creation of the default queue can still cause. */
  function BumpsLeft(s: State, name: string, q: Queue): nat {
    var r := s.repository;
    |Bumping(s)|
    + (if name in r.definitions && r.definitions[name] == q.definition then 0 else 1)
    + (if name in r.throttles && r.throttles[name] == q.throttle then 0 else 1)
  }

  lemma SharedStep(s: State, step: Step, name: string, q: Queue)
    requires Shared(s, name, q) && Enabled(s, step) && Internal(step)
    ensures Shared(Do(s, step), name, q)
    ensures BumpsLeft(Do(s, step), name, q) + Do(s, step).repository.revision
         <= BumpsLeft(s, name, q) + s.repository.revision
  {
    var t := Do(s, step);
    assert SharedOp(s.services[step.i], name, q);
    forall j | j in t.services ensures SharedOp(t.services[j], name, q) {
      assert SharedOp(s.services[j], name, q);
    }
    BumpingAfter(s, step);
  }

  lemma OthersStay(s: State, step: Step)
    requires Enabled(s, step)
    ensures forall j | j != step.i :: j in Do(s, step).services <==> j in s.services
    ensures forall j | j in s.services && j != step.i :: Do(s, step).services[j] == s.services[j]
  {
  }

  lemma BumpingAfter(s: State, step: Step)
    requires Enabled(s, step) && Internal(step)
    ensures var t := Do(s, step); var i := step.i;
            |Bumping(t)| == |Bumping(s)|
              - (if WillBump(s.services[i].op) then 1 else 0)
              + (if i in t.services && WillBump(t.services[i].op) then 1 else 0)
  {
    var t := Do(s, step);
    var i := step.i;
    OthersStay(s, step);
    assert Bumping(t) - {i} == Bumping(s) - {i};
    OneApart(Bumping(s), Bumping(t), i);
  }

  /** The rounds that service `i` may still see, however many services there are. */
  function SharedRounds(s: State, i: nat, name: string, q: Queue): nat
    requires i in s.services
  {
    BumpsLeft(s, name, q) + if s.services[i].lastRevision == s.repository.revision then 0 else 1
  }

  lemma SharedRoundsShrink(s: State, step: Step, i: nat, name: string, q: Queue)
    requires Shared(s, name, q) && Enabled(s, step) && Internal(step) && i in s.services && step != Die(i)
    ensures i in Do(s, step).services
    ensures SharedRounds(Do(s, step), i, name, q) <= SharedRounds(s, i, name, q)
         - if step == Tick(i) && s.services[i].lastRevision != s.repository.revision then 1 else 0
  {
    SharedStep(s, step, name, q);
    if step.i != i { OthersStay(s, step); }
  }

  /** When all services share one default queue, the number of reloads does not
      depend on the number of services: at most one for what a service has not
      seen, one for each bump under way, and two for the two tables. */
  lemma {:induction false} SharedReloadsStop(s: State, steps: seq<Step>, i: nat, name: string, q: Queue)
    requires Shared(s, name, q) && Feasible(s, steps) && i in s.services
    requires forall step | step in steps :: Internal(step) && step != Die(i)
    ensures Reloads(s, steps, i) <= SharedRounds(s, i, name, q)
    decreases |steps|
  {
    if steps != [] {
      assert steps[0] in steps && forall step | step in steps[1..] :: step in steps;
      SharedStep(s, steps[0], name, q);
      SharedRoundsShrink(s, steps[0], i, name, q);
      SharedReloadsStop(Do(s, steps[0]), steps[1..], i, name, q);
    }
  }
}
