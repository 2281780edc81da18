/** A job queue with its counters over the in-memory driver, and the decorator
    that classifies completions for the dispatch statistics. */
module TrackedQueue {
  import opened Jobs
  import Memory = InMemoryQueue

  /** The class under which a dispatch is counted, from the flags computed after
      the completion and the switch of the statistics writer. */
  function RecordedOutcome(result: Result, retryCountAfter: nat): Outcome {
    var isSuccess := result.IsSuccess();
    var isPermanentFail := result.IsPermanentFailure() || (!isSuccess && retryCountAfter == 0);
    if isSuccess then Succeeded else if isPermanentFail then GaveUp else Retried
  }

  /** The recorded class is the branch taken exactly when the completion did not
      use up the last retry of a retryable failure under the reader's eyes. */
  lemma ClassificationAgrees(result: Result, before: nat, after: nat)
    ensures RecordedOutcome(result, after) == OutcomeOf(before, result)
       <==> result.IsSuccess() || result.IsPermanentFailure() || (before == 0 <==> after == 0)
  {
  }

  class Queue {
    const impl: Memory.Queue
    var pushes: nat
    var pops: nat
    var successes: nat
    var failures: nat
    var permanentFailures: nat
    var completes: nat
    ghost var inFlight: set<Memory.LiveJob>

    ghost predicate Valid()
      reads this, impl, impl.heap
    {
      && impl.Valid()
      && (forall x | x in inFlight :: x !in impl.heap)
      && Balanced()
    }

    /** Conservation of the counters. */
    ghost predicate Balanced()
      reads this, impl
    {
      && completes == successes + permanentFailures
      && permanentFailures <= failures
      && pops == completes + (failures - permanentFailures) + |inFlight|
      && pushes == completes + |impl.heap| + |inFlight|
    }

    constructor ()
      ensures Valid() && fresh(impl) && inFlight == {} && pushes == 0 && impl.heap == []
    {
      impl := new Memory.Queue();
      pushes, pops, successes, failures, permanentFailures, completes := 0, 0, 0, 0, 0, 0;
      inFlight := {};
    }

    method Push(incoming: Incoming, now: nat) returns (id: nat)
      requires Valid()
      modifies this, impl
      ensures Valid() && inFlight == old(inFlight)
      ensures pushes == old(pushes) + 1 && pops == old(pops) && completes == old(completes)
      ensures |impl.heap| == old(|impl.heap|) + 1
      ensures exists job | job in impl.heap ::
                job.id == id && job.content == incoming.content && job.retryCount == incoming.retryCount
    {
      var job := impl.Push(incoming, now);
      HeapSize(old(impl.heap), impl.heap, [job]);
      pushes := pushes + 1;
      id := job.id;
      assert job in multiset(impl.heap);
    }

    method Pop(limit: nat, now: nat) returns (popped: seq<Memory.LiveJob>)
      requires Valid()
      modifies this`pops, this`inFlight, impl
      ensures Valid()
      ensures pops == old(pops) + |popped|
      ensures inFlight == old(inFlight) + Elements(popped)
      ensures forall x | x in popped :: x !in old(inFlight) && x in old(impl.heap)
      ensures Memory.EarliestDue(popped, impl.heap, limit, now)
      ensures forall x | x in old(impl.heap) :: x in impl.heap || x in popped
    {
      popped := Take(limit, now);
      Disjoint(inFlight, Elements(popped), old(impl.heap));
      Note(popped);
    }

    method Note(popped: seq<Memory.LiveJob>)
      modifies this`pops, this`inFlight
      ensures pops == old(pops) + |popped| && inFlight == old(inFlight) + Elements(popped)
    {
      pops := pops + |popped|;
      inFlight := inFlight + Elements(popped);
    }

    method Take(limit: nat, now: nat) returns (popped: seq<Memory.LiveJob>)
      requires impl.Valid()
      modifies impl
      ensures impl.Valid() && |impl.heap| + |popped| == old(|impl.heap|) && |Elements(popped)| == |popped|
      ensures forall x | x in popped :: x in old(impl.heap) && x !in impl.heap
      ensures forall x | x in impl.heap :: x in old(impl.heap)
      ensures forall x | x in old(impl.heap) :: x in impl.heap || x in popped
      ensures Memory.EarliestDue(popped, impl.heap, limit, now)
    {
      popped := impl.Pop(limit, now);
      HeapSize(old(impl.heap), impl.heap, popped);
      DistinctSize(popped);
      Members(old(impl.heap), impl.heap, popped);
    }

    /** Completes a job in flight: done with, given up, or back in the heap with
        one retry less and one failure more. */
    method Complete(job: Memory.LiveJob, result: Result, now: nat)
      requires Valid() && job in inFlight
      modifies this, impl, job
      ensures Valid() && inFlight == old(inFlight) - {job}
      ensures pushes == old(pushes) && pops == old(pops)
      ensures match OutcomeOf(old(job.retryCount), result)
              case Succeeded =>
                successes == old(successes) + 1 && failures == old(failures) && impl.heap == old(impl.heap)
              case GaveUp =>
                && permanentFailures == old(permanentFailures) + 1 && failures == old(failures) + 1
                && impl.heap == old(impl.heap)
              case Retried =>
                && failures == old(failures) + 1 && completes == old(completes)
                && multiset(impl.heap) == old(multiset(impl.heap)) + multiset{job}
                && job.retryCount == old(job.retryCount) - 1 && job.failCount == old(job.failCount) + 1
      ensures !OutcomeOf(old(job.retryCount), result).Retried? ==>
                job.retryCount == old(job.retryCount) && completes == old(completes) + 1
    {
      if result.IsSuccess() {
        successes := successes + 1;
        completes := completes + 1;
      } else if result.IsPermanentFailure() || job.retryCount == 0 {
        failures := failures + 1;
        permanentFailures := permanentFailures + 1;
        completes := completes + 1;
      } else {
        failures := failures + 1;
        Retry(job, now);
      }
      inFlight := inFlight - {job};
    }

    method Retry(job: Memory.LiveJob, now: nat)
      requires impl.Valid() && job !in impl.heap && job.retryCount > 0
      modifies impl, job
      ensures impl.Valid()
      ensures multiset(impl.heap) == old(multiset(impl.heap)) + multiset{job}
      ensures |impl.heap| == old(|impl.heap|) + 1
      ensures forall x | x in impl.heap :: x == job || x in old(impl.heap)
      ensures job.retryCount == old(job.retryCount) - 1 && job.failCount == old(job.failCount) + 1
    {
      var next := new Memory.NextInfo(job);
      impl.Update(job, next, now);
      HeapSize(old(impl.heap), impl.heap, [job]);
      Members(impl.heap, old(impl.heap), [job]);
    }

    /** The decorator records nothing without an owner.  Otherwise it reads the
        retries left after the completion, from the job object that a retry has
        overwritten: it misses the branch taken in exactly one case, a retryable
        failure with one retry left. */
    method CompleteAndRecord(job: Memory.LiveJob, result: Result, now: nat, hasOwner: bool)
        returns (recorded: Option<Outcome>)
      requires Valid() && job in inFlight
      modifies this, impl, job
      ensures Valid() && inFlight == old(inFlight) - {job}
      ensures recorded.Some? <==> hasOwner
      ensures hasOwner ==> (recorded.value == OutcomeOf(old(job.retryCount), result)
         <==> !(OutcomeOf(old(job.retryCount), result).Retried? && old(job.retryCount) == 1))
      ensures hasOwner && recorded.value != OutcomeOf(old(job.retryCount), result) ==> recorded.value == GaveUp
    {
      ClassificationAgrees(result, job.retryCount,
                           if OutcomeOf(job.retryCount, result).Retried? then job.retryCount - 1 else job.retryCount);
      Complete(job, result, now);
      recorded := if hasOwner then Some(RecordedOutcome(result, job.retryCount)) else None;
    }
  }

  function Elements(q: seq<Memory.LiveJob>): set<Memory.LiveJob> {
    set x | x in q
  }

  lemma Disjoint(inFlight: set<Memory.LiveJob>, taken: set<Memory.LiveJob>, heap: seq<Memory.LiveJob>)
    requires forall x | x in inFlight :: x !in heap
    requires forall x | x in taken :: x in heap
    ensures inFlight !! taken && |inFlight + taken| == |inFlight| + |taken|
  {
  }

  lemma Members(all: seq<Memory.LiveJob>, a: seq<Memory.LiveJob>, b: seq<Memory.LiveJob>)
    requires multiset(all) == multiset(a) + multiset(b)
    ensures forall x :: x in all <==> x in a || x in b
  {
    assert forall x :: x in all <==> x in multiset(all);
    assert forall x :: x in a <==> x in multiset(a);
    assert forall x :: x in b <==> x in multiset(b);
  }

  lemma HeapSize(before: seq<Memory.LiveJob>, after: seq<Memory.LiveJob>, moved: seq<Memory.LiveJob>)
    ensures multiset(after) == multiset(before) + multiset(moved) ==> |after| == |before| + |moved|
    ensures multiset(before) == multiset(after) + multiset(moved) ==> |before| == |after| + |moved|
  {
    assert |multiset(before)| == |before| && |multiset(after)| == |after| && |multiset(moved)| == |moved|;
  }

  lemma {:induction false} DistinctSize(q: seq<Memory.LiveJob>)
    requires Memory.NoRepeats(q)
    ensures |Elements(q)| == |q|
    decreases |q|
  {
    if q != [] {
      var rest := q[1..];
      assert q == [q[0]] + rest;
      assert multiset(q) == multiset{q[0]} + multiset(rest);
      assert multiset(q)[q[0]] == 1;
      Members(q, [q[0]], rest);
      assert multiset(rest)[q[0]] == 0;
      forall x | x in rest ensures multiset(rest)[x] == 1 {
        assert multiset(q)[x] == 1;
      }
      DistinctSize(rest);
      assert Elements(q) == {q[0]} + Elements(rest);
    }
  }
}
