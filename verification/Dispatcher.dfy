/** The dispatcher of a queue: an event loop, a polling kicker, workers bounded
    by a semaphore, and the shutdown handshake between them.  Channels without a
    buffer are rendezvous steps of both sides. */
module Dispatcher {
  import opened Jobs

  datatype Loop =
    | Selecting
    | Popping(room: nat)
    | Filling(rest: seq<Job>)
    | Acquiring(job: Job)
    | Draining
    | Reporting
    | Finished

  datatype Kicker = Ticking | Kicking | Leaving | Gone

  datatype Stopper = Unasked | AwaitKicker | SendStop | AwaitLoop | Report | Reported

  /** `waiting` workers are in the rate limiter, `working` ones call the worker,
      `releasing` ones are done but hold a token of the semaphore, `finishing`
      ones have given it back but are still counted by the wait group. */
  datatype State = State(
    cap: nat, maxWorkers: nat,
    buffer: seq<Job>, sem: nat, wg: nat, cancelled: bool,
    loop: Loop, kicker: Kicker, stopper: Stopper, stopSignal: bool, stoppedSignal: bool,
    waiting: multiset<Job>, working: multiset<Job>, releasing: nat, finishing: nat,
    trace: Trace)

  /** What happened: jobs popped, dropped for lack of room, kept in order,
      started in order, completed, and given up on cancellation. */
  datatype Trace = Trace(
    popped: seq<Job>, truncated: seq<Job>, kept: seq<Job>, started: seq<Job>,
    completed: multiset<Job>, aborted: multiset<Job>)

  function BufferSize(minBufferSize: nat, maxWorkers: nat): (size: nat)
    ensures minBufferSize == 0 ==> size >= 1000
    ensures size >= 1 && size >= maxWorkers && size >= minBufferSize
    ensures size == maxWorkers || (minBufferSize > 0 && size == minBufferSize) || (minBufferSize == 0 && size == 1000)
  {
    var size := if minBufferSize == 0 then 1000 else minBufferSize;
    if maxWorkers > size then maxWorkers else size
  }

  function Initial(minBufferSize: nat, maxWorkers: nat): State {
    State(BufferSize(minBufferSize, maxWorkers), maxWorkers, [], 0, 0, false,
          Selecting, Ticking, Unasked, false, false, multiset{}, multiset{}, 0, 0,
          Trace([], [], [], [], multiset{}, multiset{}))
  }

  datatype Step =
    | Tick
    | Kick
    | PopReturns(jobs: seq<Job>)
    | PopFails
    | Fill
    | FillDone
    | Take
    | Spawn
    | Admit(job: Job)
    | Abort(job: Job)
    | Work(job: Job)
    | Release
    | Done
    | AskStop
    | KickerStops
    | KickerLeaves
    | HearKicker
    | Stop
    | Drained
    | LoopEnds
    | ReportStop

  predicate Enabled(s: State, step: Step) {
    match step
    case Tick => s.kicker.Ticking?
    case Kick => s.kicker.Kicking? && s.loop.Selecting?
    case PopReturns(_) => s.loop.Popping?
    case PopFails => s.loop.Popping?
    case Fill => s.loop.Filling? && s.loop.rest != [] && |s.buffer| < s.cap
    case FillDone => s.loop.Filling? && s.loop.rest == []
    case Take => s.loop.Selecting? && s.buffer != []
    case Spawn => s.loop.Acquiring? && s.sem < s.maxWorkers
    case Admit(job) => job in s.waiting
    case Abort(job) => job in s.waiting && s.cancelled
    case Work(job) => job in s.working
    case Release => s.releasing > 0 && s.sem > 0
    case Done => s.finishing > 0 && s.wg > 0
    case AskStop => s.stopper.Unasked?
    case KickerStops => s.kicker.Ticking? && s.stopSignal
    case KickerLeaves => s.kicker.Leaving?
    case HearKicker => s.stopper.AwaitKicker? && s.stoppedSignal
    case Stop => s.stopper.SendStop? && s.loop.Selecting?
    case Drained => s.loop.Draining? && s.wg == 0
    case LoopEnds => s.loop.Reporting? && s.stopper.AwaitLoop?
    case ReportStop => s.stopper.Report?
  }

  function Do(s: State, step: Step): State
    requires Enabled(s, step)
  {
    match step
    case Tick => s.(kicker := Kicking)
    case Kick =>
      s.(kicker := Ticking, loop := if |s.buffer| < s.cap then Popping(s.cap - |s.buffer|) else Selecting)
    case PopReturns(jobs) =>
      var n := if |jobs| > s.loop.room then s.loop.room else |jobs|;
      s.(loop := Filling(jobs[..n]),
         trace := s.trace.(popped := s.trace.popped + jobs, truncated := s.trace.truncated + jobs[n..],
                           kept := s.trace.kept + jobs[..n]))
    case PopFails => s.(loop := Selecting)
    case Fill => s.(buffer := s.buffer + [s.loop.rest[0]], loop := Filling(s.loop.rest[1..]))
    case FillDone => s.(loop := Selecting)
    case Take => s.(buffer := s.buffer[1..], wg := s.wg + 1, loop := Acquiring(s.buffer[0]))
    case Spawn =>
      s.(sem := s.sem + 1, waiting := s.waiting + multiset{s.loop.job}, loop := Selecting,
         trace := s.trace.(started := s.trace.started + [s.loop.job]))
    case Admit(job) => s.(waiting := s.waiting - multiset{job}, working := s.working + multiset{job})
    case Abort(job) =>
      s.(waiting := s.waiting - multiset{job}, releasing := s.releasing + 1,
         trace := s.trace.(aborted := s.trace.aborted + multiset{job}))
    case Work(job) =>
      s.(working := s.working - multiset{job}, releasing := s.releasing + 1,
         trace := s.trace.(completed := s.trace.completed + multiset{job}))
    case Release => s.(releasing := s.releasing - 1, sem := s.sem - 1, finishing := s.finishing + 1)
    case Done => s.(finishing := s.finishing - 1, wg := s.wg - 1)
    case AskStop => s.(stopper := AwaitKicker, stopSignal := true)
    case KickerStops => s.(kicker := Leaving, stopSignal := false)
    case KickerLeaves => s.(kicker := Gone, stoppedSignal := true)
    case HearKicker => s.(stopper := SendStop, stoppedSignal := false)
    case Stop => s.(stopper := AwaitLoop, loop := Draining, cancelled := true)
    case Drained => s.(loop := Reporting)
    case LoopEnds => s.(loop := Finished, stopper := Report)
    case ReportStop => s.(stopper := Reported)
  }

  predicate IsWorkerStep(step: Step) {
    step.Admit? || step.Abort? || step.Work? || step.Release? || step.Done?
  }

  /** Steps that move jobs on behalf of the loop. */
  predicate IsJobStep(step: Step) {
    step.PopReturns? || step.PopFails? || step.Fill? || step.FillDone? || step.Take? || step.Spawn?
  }

  // ---------- Invariant ----------

  function Unfilled(s: State): seq<Job> {
    if s.loop.Filling? then s.loop.rest else []
  }

  function Pending(s: State): seq<Job> {
    if s.loop.Acquiring? then [s.loop.job] else []
  }

  /** Nothing is lost and nothing overtakes: kept jobs are those started, then
      the one waiting for a token, then the buffer, then those not yet sent. */
  ghost predicate InOrder(s: State) {
    s.trace.kept == s.trace.started + Pending(s) + s.buffer + Unfilled(s)
  }

  ghost predicate Conserved(s: State) {
    && multiset(s.trace.popped) == multiset(s.trace.truncated) + multiset(s.trace.kept)
    && multiset(s.trace.started) == s.waiting + s.working + s.trace.completed + s.trace.aborted
  }

  predicate Bounded(s: State) {
    && s.cap >= 1
    && |s.buffer| + |Unfilled(s)| <= s.cap
    && (s.loop.Popping? ==> s.loop.room == s.cap - |s.buffer| && s.loop.room > 0)
    && s.sem == |s.waiting| + |s.working| + s.releasing
    && s.sem <= s.maxWorkers
    && s.wg == s.sem + s.finishing + |Pending(s)|
  }

  /** How far the shutdown is, seen by its three participants. */
  predicate Handshake(s: State) {
    && (s.cancelled <==> s.loop.Draining? || s.loop.Reporting? || s.loop.Finished?)
    && (s.loop.Draining? || s.loop.Reporting? <==> s.stopper.AwaitLoop?)
    && (s.loop.Finished? <==> s.stopper.Report? || s.stopper.Reported?)
    && (s.loop.Reporting? || s.loop.Finished? ==> s.wg == 0)
    && match s.stopper
       case Unasked => (s.kicker.Ticking? || s.kicker.Kicking?) && !s.stopSignal && !s.stoppedSignal
       case AwaitKicker =>
         && (s.stopSignal <==> s.kicker.Ticking? || s.kicker.Kicking?)
         && (s.stoppedSignal <==> s.kicker.Gone?)
       case _ => s.kicker.Gone? && !s.stopSignal && !s.stoppedSignal
  }

  ghost predicate Inv(s: State) {
    InOrder(s) && Conserved(s) && Bounded(s) && Handshake(s)
  }

  lemma InitialInv(minBufferSize: nat, maxWorkers: nat)
    ensures Inv(Initial(minBufferSize, maxWorkers))
  {
  }

  lemma StepKeepsBounded(s: State, step: Step)
    requires Bounded(s) && Enabled(s, step)
    ensures Bounded(Do(s, step))
    ensures Do(s, step).cap == s.cap && Do(s, step).maxWorkers == s.maxWorkers
  {
    if IsWorkerStep(step) {
      WorkerKeepsBounded(s, step);
    } else if IsJobStep(step) {
      JobStepKeepsBounded(s, step);
    } else {
      SignalKeepsBounded(s, step);
    }
  }

  lemma WorkerKeepsBounded(s: State, step: Step)
    requires Bounded(s) && Enabled(s, step) && IsWorkerStep(step)
    ensures Bounded(Do(s, step))
  {
    assert Unfilled(Do(s, step)) == Unfilled(s) && Pending(Do(s, step)) == Pending(s);
  }

  lemma JobStepKeepsBounded(s: State, step: Step)
    requires Bounded(s) && Enabled(s, step) && IsJobStep(step)
    ensures Bounded(Do(s, step))
  {
    match step
    case PopReturns(jobs) => PopKeepsBounded(s, jobs);
    case Fill => FillKeepsBounded(s);
    case Take => TakeKeepsBounded(s);
    case Spawn => SpawnKeepsBounded(s);
    case _ =>
  }

  lemma PopKeepsBounded(s: State, jobs: seq<Job>)
    requires Bounded(s) && Enabled(s, PopReturns(jobs))
    ensures Bounded(Do(s, PopReturns(jobs)))
  {
  }

  lemma FillKeepsBounded(s: State)
    requires Bounded(s) && Enabled(s, Fill)
    ensures Bounded(Do(s, Fill))
  {
  }

  lemma TakeKeepsBounded(s: State)
    requires Bounded(s) && Enabled(s, Take)
    ensures Bounded(Do(s, Take))
  {
  }

  lemma SpawnKeepsBounded(s: State)
    requires Bounded(s) && Enabled(s, Spawn)
    ensures Bounded(Do(s, Spawn))
  {
    assert |s.waiting + multiset{s.loop.job}| == |s.waiting| + 1;
  }

  lemma SignalKeepsBounded(s: State, step: Step)
    requires Bounded(s) && Enabled(s, step) && !IsWorkerStep(step) && !IsJobStep(step)
    ensures Bounded(Do(s, step))
  {
    if step.Kick? {
      KickKeepsBounded(s);
    } else {
      OtherSignalKeepsBounded(s, step);
    }
  }

  lemma KickKeepsBounded(s: State)
    requires Bounded(s) && Enabled(s, Kick)
    ensures Bounded(Do(s, Kick))
  {
  }

  lemma OtherSignalKeepsBounded(s: State, step: Step)
    requires Bounded(s) && Enabled(s, step) && !IsWorkerStep(step) && !IsJobStep(step) && !step.Kick?
    ensures Bounded(Do(s, step))
  {
    assert Unfilled(Do(s, step)) == Unfilled(s) && Pending(Do(s, step)) == Pending(s);
  }

  lemma StepKeepsHandshake(s: State, step: Step)
    requires Bounded(s) && Handshake(s) && Enabled(s, step)
    ensures Handshake(Do(s, step))
  {
    if IsWorkerStep(step) || IsJobStep(step) {
      WorkKeepsHandshake(s, step);
    } else {
      SignalKeepsHandshake(s, step);
    }
  }

  lemma WorkKeepsHandshake(s: State, step: Step)
    requires Bounded(s) && Handshake(s) && Enabled(s, step) && (IsWorkerStep(step) || IsJobStep(step))
    ensures Handshake(Do(s, step))
  {
  }

  lemma SignalKeepsHandshake(s: State, step: Step)
    requires Handshake(s) && Enabled(s, step) && !IsWorkerStep(step) && !IsJobStep(step)
    ensures Handshake(Do(s, step))
  {
  }

  lemma StepKeepsOrder(s: State, step: Step)
    requires InOrder(s) && Enabled(s, step)
    ensures InOrder(Do(s, step))
  {
    match step
    case PopReturns(jobs) => PopKeepsOrder(s, jobs);
    case Fill => FillKeepsOrder(s);
    case Take => TakeKeepsOrder(s);
    case Spawn => SpawnKeepsOrder(s);
    case _ => OthersKeepOrder(s, step);
  }

  lemma PopKeepsOrder(s: State, jobs: seq<Job>)
    requires InOrder(s) && Enabled(s, PopReturns(jobs))
    ensures InOrder(Do(s, PopReturns(jobs)))
  {
    assert Unfilled(s) == [] && Pending(s) == [];
  }

  /** Moving the first element over does not change the concatenation. */
  lemma Regroup(a: seq<Job>, b: seq<Job>, c: seq<Job>)
    requires c != []
    ensures a + b + c == a + (b + [c[0]]) + c[1..]
  {
  }

  lemma FillKeepsOrder(s: State)
    requires InOrder(s) && Enabled(s, Fill)
    ensures InOrder(Do(s, Fill))
  {
    Regroup(s.trace.started + Pending(s), s.buffer, s.loop.rest);
  }

  lemma TakeKeepsOrder(s: State)
    requires InOrder(s) && Enabled(s, Take)
    ensures InOrder(Do(s, Take))
  {
    Regroup(s.trace.started, Pending(s), s.buffer);
    assert Pending(Do(s, Take)) == Pending(s) + [s.buffer[0]];
  }

  lemma SpawnKeepsOrder(s: State)
    requires InOrder(s) && Enabled(s, Spawn)
    ensures InOrder(Do(s, Spawn))
  {
    assert Pending(Do(s, Spawn)) == [];
  }

  lemma OthersKeepOrder(s: State, step: Step)
    requires InOrder(s) && Enabled(s, step)
    requires !step.PopReturns? && !step.Fill? && !step.Take? && !step.Spawn?
    ensures InOrder(Do(s, step))
  {
    assert Unfilled(Do(s, step)) == Unfilled(s) && Pending(Do(s, step)) == Pending(s);
  }

  lemma StepKeepsConserved(s: State, step: Step)
    requires Conserved(s) && Enabled(s, step)
    ensures Conserved(Do(s, step))
  {
    match step
    case PopReturns(jobs) => PopKeepsConserved(s, jobs);
    case Spawn => SpawnKeepsConserved(s);
    case Admit(job) => AdmitKeepsConserved(s, job);
    case Abort(job) => AbortKeepsConserved(s, job);
    case Work(job) => WorkKeepsConserved(s, job);
    case _ =>
  }

  lemma PopKeepsConserved(s: State, jobs: seq<Job>)
    requires Conserved(s) && Enabled(s, PopReturns(jobs))
    ensures Conserved(Do(s, PopReturns(jobs)))
  {
    var n := if |jobs| > s.loop.room then s.loop.room else |jobs|;
    assert jobs == jobs[..n] + jobs[n..];
  }

  lemma SpawnKeepsConserved(s: State)
    requires Conserved(s) && Enabled(s, Spawn)
    ensures Conserved(Do(s, Spawn))
  {
  }

  lemma AdmitKeepsConserved(s: State, job: Job)
    requires Conserved(s) && Enabled(s, Admit(job))
    ensures Conserved(Do(s, Admit(job)))
  {
    assert s.waiting - multiset{job} + (s.working + multiset{job}) == s.waiting + s.working;
  }

  lemma AbortKeepsConserved(s: State, job: Job)
    requires Conserved(s) && Enabled(s, Abort(job))
    ensures Conserved(Do(s, Abort(job)))
  {
  }

  lemma WorkKeepsConserved(s: State, job: Job)
    requires Conserved(s) && Enabled(s, Work(job))
    ensures Conserved(Do(s, Work(job)))
  {
  }

  lemma StepKeepsInv(s: State, step: Step)
    requires Inv(s) && Enabled(s, step)
    ensures Inv(Do(s, step))
    ensures Do(s, step).cap == s.cap && Do(s, step).maxWorkers == s.maxWorkers
  {
    StepKeepsOrder(s, step);
    StepKeepsConserved(s, step);
    StepKeepsBounded(s, step);
    StepKeepsHandshake(s, step);
  }

  // ---------- Runs ----------

  predicate Feasible(s: State, steps: seq<Step>)
    decreases |steps|
  {
    steps == [] || (Enabled(s, steps[0]) && Feasible(Do(s, steps[0]), steps[1..]))
  }

  function After(s: State, steps: seq<Step>): State
    requires Feasible(s, steps)
    decreases |steps|
  {
    if steps == [] then s else After(Do(s, steps[0]), steps[1..])
  }

  lemma {:induction false} RunKeepsInv(s: State, steps: seq<Step>)
    requires Inv(s) && Feasible(s, steps)
    ensures Inv(After(s, steps))
    ensures After(s, steps).cap == s.cap && After(s, steps).maxWorkers == s.maxWorkers
    decreases |steps|
  {
    if steps != [] {
      StepKeepsInv(s, steps[0]);
      RunKeepsInv(Do(s, steps[0]), steps[1..]);
    }
  }

  /** Conservation and bounds, at every point of every run: each popped job is in
      exactly one place, at most MaxWorkers jobs run, the buffer never overflows,
      and the jobs started are the first ones kept, in the order popped. */
  lemma Conservation(minBufferSize: nat, maxWorkers: nat, steps: seq<Step>)
    requires Feasible(Initial(minBufferSize, maxWorkers), steps)
    ensures var s := After(Initial(minBufferSize, maxWorkers), steps);
            && multiset(s.trace.popped)
               == multiset(s.trace.truncated) + multiset(Unfilled(s)) + multiset(s.buffer)
                  + multiset(Pending(s)) + s.waiting + s.working + s.trace.completed + s.trace.aborted
            && |s.waiting| + |s.working| <= maxWorkers
            && |s.buffer| <= BufferSize(minBufferSize, maxWorkers)
            && s.trace.started <= s.trace.kept
  {
    InitialInv(minBufferSize, maxWorkers);
    RunKeepsInv(Initial(minBufferSize, maxWorkers), steps);
    var s := After(Initial(minBufferSize, maxWorkers), steps);
    Placed(s);
  }

  lemma Placed(s: State)
    requires InOrder(s) && Conserved(s)
    ensures multiset(s.trace.popped)
            == multiset(s.trace.truncated) + multiset(Unfilled(s)) + multiset(s.buffer)
               + multiset(Pending(s)) + s.waiting + s.working + s.trace.completed + s.trace.aborted
    ensures s.trace.started <= s.trace.kept
  {
    var ahead := s.trace.started + Pending(s);
    assert multiset(ahead + s.buffer + Unfilled(s)) == multiset(ahead + s.buffer) + multiset(Unfilled(s));
    assert multiset(ahead + s.buffer) == multiset(ahead) + multiset(s.buffer);
  }

  // ---------- Nothing is dropped ----------

  /** The jobs dropped are exactly those beyond the room that was asked for, and the
      others are going to be sent in order. */
  lemma TruncatedBeyondRoom(s: State, jobs: seq<Job>)
    requires Bounded(s) && Enabled(s, PopReturns(jobs))
    ensures var room := s.cap - |s.buffer|; var t := Do(s, PopReturns(jobs));
            if |jobs| <= room
            then t.trace.truncated == s.trace.truncated && Unfilled(t) == jobs
            else t.trace.truncated == s.trace.truncated + jobs[room..] && Unfilled(t) == jobs[..room]
  {
  }

  /** Every answer of the queue has at most as many jobs as were asked for. */
  predicate AnswersFit(s: State, steps: seq<Step>)
    requires Feasible(s, steps)
    decreases |steps|
  {
    steps == [] ||
    ((steps[0].PopReturns? ==> |steps[0].jobs| <= s.cap - |s.buffer|) && AnswersFit(Do(s, steps[0]), steps[1..]))
  }

  /** Nothing was dropped so far. */
  predicate InFull(s: State) {
    s.trace.truncated == [] && s.trace.popped == s.trace.kept
  }

  lemma StepKeepsInFull(s: State, step: Step)
    requires Bounded(s) && InFull(s) && Enabled(s, step)
    requires step.PopReturns? ==> |step.jobs| <= s.cap - |s.buffer|
    ensures InFull(Do(s, step))
  {
    if step.PopReturns? { assert step.jobs[..|step.jobs|] == step.jobs; }
  }

  lemma {:induction false} RunKeepsInFull(s: State, steps: seq<Step>)
    requires Inv(s) && InFull(s) && Feasible(s, steps) && AnswersFit(s, steps)
    ensures InFull(After(s, steps))
    decreases |steps|
  {
    if steps != [] {
      StepKeepsInFull(s, steps[0]);
      StepKeepsInv(s, steps[0]);
      RunKeepsInFull(Do(s, steps[0]), steps[1..]);
    }
  }

  /** If the queue answers with no more jobs than it was asked for, every job popped
      is somewhere between the buffer and the workers, completed, or given up, and
      none is given up before the loop was told to stop. */
  lemma NoJobDropped(minBufferSize: nat, maxWorkers: nat, steps: seq<Step>)
    requires Feasible(Initial(minBufferSize, maxWorkers), steps)
    requires AnswersFit(Initial(minBufferSize, maxWorkers), steps)
    ensures var s := After(Initial(minBufferSize, maxWorkers), steps);
            && s.trace.truncated == [] && s.trace.popped == s.trace.kept
            && (!s.cancelled ==> s.trace.aborted == multiset{})
            && multiset(s.trace.popped)
               == multiset(Unfilled(s)) + multiset(s.buffer) + multiset(Pending(s))
                  + s.waiting + s.working + s.trace.completed + s.trace.aborted
  {
    var init := Initial(minBufferSize, maxWorkers);
    InitialInv(minBufferSize, maxWorkers);
    RunKeepsInFull(init, steps);
    NoneAborted(init, steps);
    Conservation(minBufferSize, maxWorkers, steps);
  }

  /** Every kick that finds room asks the queue for exactly that room, and one that
      finds none asks for nothing. */
  lemma KickAsks(s: State)
    requires Enabled(s, Kick)
    ensures |s.buffer| < s.cap ==> Do(s, Kick).loop == Popping(s.cap - |s.buffer|)
    ensures |s.buffer| >= s.cap ==> Do(s, Kick).loop == Selecting
    ensures Do(s, Kick).buffer == s.buffer && Do(s, Kick).kicker == Ticking
  {
  }

  /** What a kick does to the buffer in the end, whatever the queue answers, which is
      what Buffer.PopJobs does. */
  lemma PopRound(s: State, jobs: seq<Job>) returns (steps: seq<Step>)
    requires Bounded(s) && Enabled(s, Kick) && |s.buffer| < s.cap
    ensures Feasible(s, steps) && After(s, steps).loop.Selecting?
    ensures var room := s.cap - |s.buffer|;
            After(s, steps).buffer == s.buffer + if |jobs| <= room then jobs else jobs[..room]
  {
    KickAsks(s);
    KickKeepsBounded(s);
    var t := Do(s, Kick);
    TruncatedBeyondRoom(t, jobs);
    PopKeepsBounded(t, jobs);
    var rest := FillAll(Do(t, PopReturns(jobs)));
    Prepended(t, PopReturns(jobs), rest);
    Prepended(s, Kick, [PopReturns(jobs)] + rest);
    steps := [Kick] + ([PopReturns(jobs)] + rest);
  }

  lemma {:induction false} FillAll(s: State) returns (steps: seq<Step>)
    requires Bounded(s) && s.loop.Filling?
    ensures Feasible(s, steps) && After(s, steps).loop.Selecting?
    ensures After(s, steps).buffer == s.buffer + s.loop.rest
    decreases |s.loop.rest|
  {
    if s.loop.rest == [] {
      Prepended(s, FillDone, []);
      steps := [FillDone] + [];
    } else {
      FillKeepsBounded(s);
      var rest := FillAll(Do(s, Fill));
      Prepended(s, Fill, rest);
      steps := [Fill] + rest;
      assert s.buffer + [s.loop.rest[0]] + s.loop.rest[1..] == s.buffer + s.loop.rest;
    }
  }

  /** Jobs are given up only after the loop was told to stop. */
  lemma {:induction false} NoneAborted(s: State, steps: seq<Step>)
    requires Inv(s) && Feasible(s, steps) && (s.trace.aborted == multiset{} || s.cancelled)
    ensures After(s, steps).trace.aborted == multiset{} || After(s, steps).cancelled
    decreases |steps|
  {
    if steps != [] {
      StepKeepsInv(s, steps[0]);
      AbortedWhenCancelled(s, steps[0]);
      NoneAborted(Do(s, steps[0]), steps[1..]);
    }
  }

  lemma AbortedWhenCancelled(s: State, step: Step)
    requires Enabled(s, step) && (s.trace.aborted == multiset{} || s.cancelled)
    ensures Do(s, step).trace.aborted == multiset{} || Do(s, step).cancelled
  {
  }

  /** The loop never blocks on its own buffer. */
  lemma NeverBlocksOnOwnBuffer(s: State)
    requires Inv(s) && s.loop.Filling? && s.loop.rest != []
    ensures Enabled(s, Fill)
  {
  }

  // ---------- Shutdown ----------

  /** Nothing to do but to wait for the next tick. */
  predicate Quiescent(s: State) {
    && s.stopper.Unasked? && s.kicker.Ticking? && s.loop.Selecting?
    && s.buffer == [] && s.wg == 0
  }

  /** No deadlock: before stop is reported, and unless there is nothing to do,
      some participant can move without a new tick or a new request. */
  lemma Progress(s: State) returns (step: Step)
    requires Inv(s) && s.maxWorkers >= 1 && !s.stopper.Reported? && !Quiescent(s)
    ensures Enabled(s, step) && step != Tick && step != AskStop
  {
    if s.sem > 0 || s.finishing > 0 {
      step := WorkerProgress(s);
    } else {
      step := LoopProgress(s);
    }
  }

  lemma WorkerProgress(s: State) returns (step: Step)
    requires Bounded(s) && (s.sem > 0 || s.finishing > 0)
    ensures Enabled(s, step) && IsWorkerStep(step)
  {
    if s.finishing > 0 { return Done; }
    if s.releasing > 0 { return Release; }
    if |s.working| > 0 {
      var job :| job in s.working;
      return Work(job);
    }
    var job :| job in s.waiting;
    return Admit(job);
  }

  lemma LoopProgress(s: State) returns (step: Step)
    requires Bounded(s) && Handshake(s) && s.sem == s.finishing == 0
    requires s.maxWorkers >= 1 || !s.loop.Acquiring?
    requires !s.stopper.Reported? && !Quiescent(s)
    ensures Enabled(s, step) && step != Tick && step != AskStop
  {
    match s.loop
    case Popping(_) => return PopFails;
    case Filling(rest) => if rest == [] { return FillDone; } else { return Fill; }
    case Acquiring(_) => return Spawn;
    case Draining => return Drained;
    case Reporting => return LoopEnds;
    case Finished => return ReportStop;
    case Selecting =>
      if s.buffer != [] { return Take; }
      match s.kicker
      case Ticking => return KickerStops;
      case Kicking => return Kick;
      case Leaving => return KickerLeaves;
      case Gone =>
        if s.stopper.AwaitKicker? { return HearKicker; } else { return Stop; }
  }

  function LoopWork(loop: Loop): nat {
    match loop
    case Selecting => 0
    case Popping(room) => 7 * room + 2
    case Filling(rest) => 7 * |rest| + 1
    case Acquiring(_) => 5
    case Draining => 2
    case Reporting => 1
    case Finished => 0
  }

  function StopWork(stopper: Stopper): nat {
    match stopper
    case Unasked => 8
    case AwaitKicker => 7
    case SendStop => 6
    case AwaitLoop => 3
    case Report => 1
    case Reported => 0
  }

  /** A kick may still fill the whole buffer. */
  function KickerWork(kicker: Kicker, cap: nat): nat {
    match kicker
    case Ticking => 2
    case Kicking => 7 * cap + 5
    case Leaving => 1
    case Gone => 0
  }

  /** An upper bound of the steps left, apart from further ticks. */
  function Remaining(s: State): nat {
    6 * |s.buffer| + 4 * |s.waiting| + 3 * |s.working| + 2 * s.releasing + s.finishing
    + LoopWork(s.loop) + StopWork(s.stopper) + KickerWork(s.kicker, s.cap)
  }

  /** What each further tick of the kicker can add to that. */
  function TickWork(steps: seq<Step>, cap: nat): nat
    decreases |steps|
  {
    if steps == [] then 0 else TickWork(steps[1..], cap) + if steps[0].Tick? then 7 * cap + 4 else 0
  }

  lemma StepShrinks(s: State, step: Step)
    requires Inv(s) && Enabled(s, step)
    ensures !step.Tick? ==> Remaining(Do(s, step)) < Remaining(s)
    ensures step.Tick? ==> Remaining(Do(s, step)) < Remaining(s) + (7 * s.cap + 4)
  {
    if IsWorkerStep(step) {
      WorkerStepShrinks(s, step);
    } else if IsJobStep(step) {
      JobStepShrinks(s, step);
    } else {
      SignalShrinks(s, step);
    }
  }

  lemma WorkerStepShrinks(s: State, step: Step)
    requires Enabled(s, step) && IsWorkerStep(step)
    ensures Remaining(Do(s, step)) < Remaining(s)
  {
  }

  lemma JobStepShrinks(s: State, step: Step)
    requires Enabled(s, step) && IsJobStep(step)
    ensures Remaining(Do(s, step)) < Remaining(s)
  {
  }

  lemma SignalShrinks(s: State, step: Step)
    requires Bounded(s) && Handshake(s) && Enabled(s, step) && !IsWorkerStep(step) && !IsJobStep(step)
    ensures !step.Tick? ==> Remaining(Do(s, step)) < Remaining(s)
    ensures step.Tick? ==> Remaining(Do(s, step)) < Remaining(s) + (7 * s.cap + 4)
  {
  }

  /** Every run, from any state and under any scheduling, is as long as its ticks
      allow. */
  lemma {:induction false} RunIsBounded(s: State, steps: seq<Step>)
    requires Inv(s) && Feasible(s, steps)
    ensures |steps| <= Remaining(s) + TickWork(steps, s.cap)
    decreases |steps|
  {
    if steps != [] {
      var t, rest := Do(s, steps[0]), steps[1..];
      StepKeepsInv(s, steps[0]);
      StepShrinks(s, steps[0]);
      RunIsBounded(t, rest);
    }
  }

  predicate Stopping(kicker: Kicker) {
    kicker.Leaving? || kicker.Gone?
  }

  lemma StoppingStays(s: State, step: Step)
    requires Enabled(s, step) && Stopping(s.kicker)
    ensures !step.Tick? && Stopping(Do(s, step).kicker) && Do(s, step).cap == s.cap
  {
  }

  lemma {:induction false} NoTicksWhileStopping(s: State, steps: seq<Step>)
    requires Feasible(s, steps) && Stopping(s.kicker)
    ensures TickWork(steps, s.cap) == 0 && After(s, steps).cap == s.cap && Stopping(After(s, steps).kicker)
    decreases |steps|
  {
    if steps != [] {
      StoppingStays(s, steps[0]);
      NoTicksWhileStopping(Do(s, steps[0]), steps[1..]);
    }
  }

  ghost predicate Stuck(s: State) {
    forall step :: !Enabled(s, step)
  }

  /** Shutdown ends: every run, from any state and under any scheduling, has a
      bounded number of steps for each tick of the kicker, hence at most
      Remaining(s) once the kicker has taken the stop signal, and it cannot get
      stuck before stop is reported. */
  lemma ShutdownEnds(s: State, steps: seq<Step>)
    requires Inv(s) && s.maxWorkers >= 1 && Feasible(s, steps)
    ensures |steps| <= Remaining(s) + TickWork(steps, s.cap)
    ensures Stopping(s.kicker) ==> |steps| <= Remaining(s)
    ensures Stuck(After(s, steps)) <==> After(s, steps).stopper.Reported?
  {
    RunIsBounded(s, steps);
    if Stopping(s.kicker) { NoTicksWhileStopping(s, steps); }
    RunKeepsInv(s, steps);
    if After(s, steps).stopper.Reported? {
      NothingAfterReport(After(s, steps));
    } else {
      NotStuck(After(s, steps));
    }
  }

  lemma NotStuck(s: State)
    requires Inv(s) && Stoppable(s) && !s.stopper.Reported?
    ensures !Stuck(s)
  {
    if s.stopper.Unasked? {
      assert Enabled(s, AskStop);
    } else if s.sem > 0 || s.finishing > 0 {
      var step := WorkerProgress(s);
    } else {
      var step := LoopProgress(s);
    }
  }

  /** Once stop is reported no worker runs, all tokens are back, and no step is
      possible: no further Pop and no further Complete. */
  lemma NothingAfterReport(s: State)
    requires Inv(s) && s.stopper.Reported?
    ensures s.sem == 0 && s.wg == 0 && s.waiting == multiset{} && s.working == multiset{}
    ensures forall step :: !Enabled(s, step)
  {
  }

  // ---------- Without workers ----------

  /** A shutdown from this state cannot get stuck: there are workers, or the loop
      was told to stop, or it has no job and gets none any more. */
  predicate Stoppable(s: State) {
    || s.maxWorkers >= 1
    || s.cancelled
    || (Stopping(s.kicker) && s.buffer == [] && (s.loop.Selecting? || s.loop == Filling([])))
  }

  lemma StepKeepsStoppable(s: State, step: Step)
    requires Bounded(s) && Handshake(s) && Stoppable(s) && Enabled(s, step)
    ensures Stoppable(Do(s, step))
  {
  }

  lemma {:induction false} RunKeepsStoppable(s: State, steps: seq<Step>)
    requires Inv(s) && Stoppable(s) && Feasible(s, steps)
    ensures Stoppable(After(s, steps))
    decreases |steps|
  {
    if steps != [] {
      StepKeepsInv(s, steps[0]);
      StepKeepsStoppable(s, steps[0]);
      RunKeepsStoppable(Do(s, steps[0]), steps[1..]);
    }
  }

  /** Some run from here can go no further although stop is not reported. */
  ghost predicate MayGetStuck(s: State) {
    exists steps | Feasible(s, steps) :: Stuck(After(s, steps)) && !After(s, steps).stopper.Reported?
  }

  /** From any state, exactly these can get stuck before stop is reported. */
  lemma StuckIff(s: State)
    requires Inv(s)
    ensures MayGetStuck(s) <==> !Stoppable(s)
  {
    if Stoppable(s) {
      forall steps | Feasible(s, steps) && Stuck(After(s, steps)) ensures After(s, steps).stopper.Reported? {
        RunKeepsInv(s, steps);
        RunKeepsStoppable(s, steps);
        if !After(s, steps).stopper.Reported? { NotStuck(After(s, steps)); }
      }
    } else {
      var steps := WayToStuck(s);
    }
  }

  lemma Prepended(s: State, step: Step, rest: seq<Step>)
    requires Enabled(s, step) && Feasible(Do(s, step), rest)
    ensures Feasible(s, [step] + rest) && After(s, [step] + rest) == After(Do(s, step), rest)
  {
    assert ([step] + rest)[1..] == rest;
  }

  const ANY_JOB := Job(1, 0, 0, 0, 0, Content("", "", "", 0, 0, ""))

  /** The steps until the loop of a dispatcher without workers has taken a job. */
  function Distance(s: State): nat {
    match s.loop
    case Acquiring(_) => 0
    case Selecting => if s.buffer != [] then 1 else if s.kicker.Kicking? then 5 else 6
    case Filling(rest) => if s.buffer == [] && rest == [] then 7 else |rest| + 2
    case Popping(_) => 4
    case _ => 0
  }

  lemma Towards(s: State) returns (step: Step)
    requires Bounded(s) && Handshake(s) && !Stoppable(s) && !s.loop.Acquiring?
    ensures Enabled(s, step) && !Stoppable(Do(s, step)) && Distance(Do(s, step)) < Distance(s)
  {
    match s.loop
    case Popping(_) => return PopReturns([ANY_JOB]);
    case Filling(rest) => if rest == [] { return FillDone; } else { return Fill; }
    case Selecting =>
      if s.buffer != [] { return Take; }
      if s.kicker.Ticking? { return Tick; } else { return Kick; }
  }

  /** What is left to do beside a loop that waits for a token in vain. */
  function SideWork(s: State): nat {
    s.finishing + StopWork(s.stopper)
    + match s.kicker case Ticking => 3 case Kicking => 2 case Leaving => 1 case Gone => 0
  }

  lemma SideStep(s: State, step: Step)
    requires Bounded(s) && Handshake(s) && s.maxWorkers == 0 && s.loop.Acquiring? && Enabled(s, step)
    ensures Do(s, step).loop == s.loop && SideWork(Do(s, step)) < SideWork(s)
  {
  }

  lemma {:induction false} GetStuck(s: State) returns (steps: seq<Step>)
    requires Bounded(s) && Handshake(s) && s.maxWorkers == 0 && s.loop.Acquiring?
    ensures Feasible(s, steps) && Stuck(After(s, steps)) && !After(s, steps).stopper.Reported?
    decreases SideWork(s)
  {
    if step :| Enabled(s, step) {
      StepKeepsBounded(s, step);
      StepKeepsHandshake(s, step);
      SideStep(s, step);
      var rest := GetStuck(Do(s, step));
      Prepended(s, step, rest);
      steps := [step] + rest;
    } else {
      steps := [];
    }
  }

  lemma {:induction false} WayToStuck(s: State) returns (steps: seq<Step>)
    requires Inv(s) && !Stoppable(s)
    ensures Feasible(s, steps) && Stuck(After(s, steps)) && !After(s, steps).stopper.Reported?
    decreases Distance(s)
  {
    if s.loop.Acquiring? {
      steps := GetStuck(s);
    } else {
      var step := Towards(s);
      StepKeepsInv(s, step);
      var rest := WayToStuck(Do(s, step));
      Prepended(s, step, rest);
      steps := [step] + rest;
    }
  }

  /** With no workers, a loop that took a job from the buffer waits for a token
      forever and no run reports stop. */
  lemma {:induction false} StuckWithoutWorkers(s: State, steps: seq<Step>)
    requires Bounded(s) && Handshake(s) && s.maxWorkers == 0 && s.loop.Acquiring? && Feasible(s, steps)
    ensures After(s, steps).loop == s.loop && !After(s, steps).stopper.Reported?
    decreases |steps|
  {
    if steps != [] {
      StepKeepsBounded(s, steps[0]);
      StepKeepsHandshake(s, steps[0]);
      StuckWithoutWorkers(Do(s, steps[0]), steps[1..]);
    }
  }

  /** A new dispatcher without workers gets there with its first job. */
  lemma FirstJobBlocks(job: Job)
    ensures var steps := [Tick] + ([Kick] + ([PopReturns([job])] + [Fill, FillDone, Take]));
            Feasible(Initial(1, 0), steps) && After(Initial(1, 0), steps).loop == Acquiring(job)
  {
    var a := Do(Initial(1, 0), Tick);
    var b := Do(a, Kick);
    assert b.loop == Popping(1);
    JobIsTaken(Do(b, PopReturns([job])), job);
    Prepended(b, PopReturns([job]), [Fill, FillDone, Take]);
    Prepended(a, Kick, [PopReturns([job])] + [Fill, FillDone, Take]);
    Prepended(Initial(1, 0), Tick, [Kick] + ([PopReturns([job])] + [Fill, FillDone, Take]));
  }

  lemma JobIsTaken(s: State, job: Job)
    requires s.loop == Filling([job]) && s.buffer == [] && s.cap >= 1
    ensures Feasible(s, [Fill, FillDone, Take]) && After(s, [Fill, FillDone, Take]).loop == Acquiring(job)
  {
    assert Do(s, Fill).buffer == [job] && Do(s, Fill).loop == Filling([]);
    assert [Fill, FillDone, Take][1..] == [FillDone, Take];
    assert [FillDone, Take][1..] == [Take];
  }

  // ---------- The pop loop itself ----------

  datatype Answer = Jobs(jobs: seq<Job>) | Failed

  class Buffer {
    const capacity: nat
    var jobs: seq<Job>

    ghost predicate Valid()
      reads this
    {
      |jobs| <= capacity
    }

    constructor (capacity: nat)
      ensures Valid() && this.capacity == capacity && jobs == []
    {
      this.capacity := capacity;
      jobs := [];
    }

    /** Asks the queue for as many jobs as there is room for; whatever it
        answers, every send finds room. */
    method PopJobs(queue: nat -> Answer) returns (asked: Option<nat>)
      requires Valid()
      modifies this
      ensures Valid()
      ensures old(|jobs|) == capacity ==> asked == None && jobs == old(jobs)
      ensures old(|jobs|) < capacity ==> asked == Some(capacity - old(|jobs|))
      ensures asked.Some? ==>
                match queue(asked.value)
                case Failed => jobs == old(jobs)
                case Jobs(got) =>
                  if |got| <= asked.value then jobs == old(jobs) + got
                  else |jobs| == capacity && old(jobs) <= jobs <= old(jobs) + got
    {
      asked := None;
      if |jobs| < capacity {
        var reqn := capacity - |jobs|;
        asked := Some(reqn);
        match queue(reqn)
        case Failed => return;
        case Jobs(got) =>
          var kept := if |got| > reqn then got[..reqn] else got;
          for i := 0 to |kept|
            invariant jobs == old(jobs) + kept[..i]
          {
            assert |jobs| < capacity;
            assert kept[..i + 1] == kept[..i] + [kept[i]];
            jobs := jobs + [kept[i]];
          }
          assert kept[..|kept|] == kept;
      }
    }
  }
}
