/** The in-memory job queue: a binary heap of job objects ordered by the time of
    their next try.  Jobs in flight are outside the heap but are the same
    objects, and a retry overwrites them in place. */
module InMemoryQueue {
  import opened Jobs

  class LiveJob {
    const id: nat
    const createdAt: nat
    const content: Content
    var nextTry: nat
    var retryCount: nat
    var failCount: nat

    constructor (id: nat, now: nat, job: Incoming)
      ensures this.id == id && createdAt == now && content == job.content
      ensures nextTry == now + job.nextDelay && retryCount == job.retryCount && failCount == 0
    {
      this.id := id;
      createdAt := now;
      content := job.content;
      nextTry := now + job.nextDelay;
      retryCount := job.retryCount;
      failCount := 0;
    }
  }

  /** What a retry is to be: views that read the job when they are asked. */
  class NextInfo {
    const job: LiveJob

    constructor (job: LiveJob)
      ensures this.job == job
    {
      this.job := job;
    }

    function Delay(): nat {
      NextDelay(job.content.retryDelay)
    }

    function RetryCount(): int
      reads job
    {
      job.retryCount - 1
    }

    function FailCount(): nat
      reads job
    {
      job.failCount + 1
    }
  }

  function Parent(i: int): int
    requires i > 0
  {
    (i - 1) / 2
  }

  ghost predicate Ordered(q: seq<LiveJob>, i: int)
    requires 0 < i < |q|
    reads q
  {
    q[Parent(i)].nextTry <= q[i].nextTry
  }

  ghost predicate IsHeap(q: seq<LiveJob>)
    reads q
  {
    forall i | 0 < i < |q| :: Ordered(q, i)
  }

  ghost predicate NoRepeats(q: seq<LiveJob>) {
    forall x | x in q :: multiset(q)[x] == 1
  }

  ghost function DueJobs(q: seq<LiveJob>, now: nat): set<LiveJob>
    reads q
  {
    set x | x in q && x.nextTry <= now
  }

  function Swap(q: seq<LiveJob>, i: nat, j: nat): (r: seq<LiveJob>)
    requires i < |q| && j < |q|
    ensures |r| == |q| && r[i] == q[j] && r[j] == q[i]
    ensures forall k | 0 <= k < |q| && k != i && k != j :: r[k] == q[k]
    ensures multiset(r) == multiset(q)
  {
    q[i := q[j]][j := q[i]]
  }

  /** The root of a heap is an earliest job. */
  lemma {:induction false} RootIsEarliest(q: seq<LiveJob>, k: nat)
    requires IsHeap(q) && k < |q|
    ensures q[0].nextTry <= q[k].nextTry
    decreases k
  {
    if k > 0 {
      assert Ordered(q, k);
      RootIsEarliest(q, Parent(k));
    }
  }

  /** A heap but for the job at `hole`, which may be earlier than its parent. */
  ghost predicate HeapAbove(q: seq<LiveJob>, hole: int)
    reads q
  {
    && (forall i | 0 < i < |q| && i != hole :: Ordered(q, i))
    && (forall i | 0 < i < |q| && hole > 0 && Parent(i) == hole && hole < |q| ::
          q[Parent(hole)].nextTry <= q[i].nextTry)
  }

  /** A heap but for the job at `hole`, which may be later than its children. */
  ghost predicate HeapBelow(q: seq<LiveJob>, hole: int)
    reads q
  {
    && (forall i | 0 < i < |q| && Parent(i) != hole :: Ordered(q, i))
    && (forall i | 0 < i < |q| && 0 < hole < |q| && Parent(i) == hole ::
          q[Parent(hole)].nextTry <= q[i].nextTry)
  }

  method Up(q0: seq<LiveJob>, j0: nat) returns (q: seq<LiveJob>)
    requires j0 < |q0| && HeapAbove(q0, j0)
    ensures IsHeap(q) && multiset(q) == multiset(q0)
  {
    q := q0;
    var j := j0;
    while j > 0 && q[j].nextTry < q[Parent(j)].nextTry
      invariant 0 <= j < |q| && HeapAbove(q, j) && multiset(q) == multiset(q0)
      decreases j
    {
      UpStep(q, j);
      q := Swap(q, j, Parent(j));
      j := Parent(j);
    }
  }

  lemma UpStep(q: seq<LiveJob>, j: int)
    requires 0 < j < |q| && HeapAbove(q, j) && q[j].nextTry < q[Parent(j)].nextTry
    ensures HeapAbove(Swap(q, j, Parent(j)), Parent(j))
  {
    var r := Swap(q, j, Parent(j));
    var p := Parent(j);
    assert p > 0 ==> Ordered(q, p);
    forall i | 0 < i < |r| && i != p ensures Ordered(r, i) {
      assert i != j ==> Ordered(q, i);
    }
    forall i | 0 < i < |r| && p > 0 && Parent(i) == p ensures r[Parent(p)].nextTry <= r[i].nextTry {
      assert i != j ==> Ordered(q, i);
    }
  }

  method Down(q0: seq<LiveJob>, i0: nat) returns (q: seq<LiveJob>)
    requires HeapBelow(q0, i0)
    ensures IsHeap(q) && multiset(q) == multiset(q0)
  {
    q := q0;
    var i := i0;
    while 2 * i + 1 < |q|
      invariant HeapBelow(q, i) && multiset(q) == multiset(q0) && |q| == |q0|
      decreases |q| - i
    {
      var j := 2 * i + 1;
      if j + 1 < |q| && q[j + 1].nextTry < q[j].nextTry {
        j := j + 1;
      }
      if q[i].nextTry <= q[j].nextTry {
        DownDone(q, i);
        return;
      }
      DownStep(q, i, j);
      q := Swap(q, i, j);
      i := j;
    }
    DownDone(q, i);
  }

  lemma DownDone(q: seq<LiveJob>, i: nat)
    requires HeapBelow(q, i)
    requires 2 * i + 1 < |q| ==> q[i].nextTry <= q[2 * i + 1].nextTry
    requires 2 * i + 2 < |q| ==> q[i].nextTry <= q[2 * i + 2].nextTry
    ensures IsHeap(q)
  {
    forall k | 0 < k < |q| ensures Ordered(q, k) {
      assert Parent(k) == i ==> k == 2 * i + 1 || k == 2 * i + 2;
    }
  }

  lemma DownStep(q: seq<LiveJob>, i: nat, j: nat)
    requires (j == 2 * i + 1 || j == 2 * i + 2) && j < |q| && HeapBelow(q, i)
    requires q[j].nextTry < q[i].nextTry
    requires 2 * i + 1 < |q| ==> q[j].nextTry <= q[2 * i + 1].nextTry
    requires 2 * i + 2 < |q| ==> q[j].nextTry <= q[2 * i + 2].nextTry
    ensures HeapBelow(Swap(q, i, j), j)
  {
    var r := Swap(q, i, j);
    forall k | 0 < k < |r| && Parent(k) != j ensures Ordered(r, k) {
      if Parent(k) == i {
        assert k == 2 * i + 1 || k == 2 * i + 2;
      } else {
        assert Ordered(q, k);
      }
    }
    forall k | 0 < k < |r| && Parent(k) == j ensures r[Parent(j)].nextTry <= r[k].nextTry {
      assert Parent(j) == i && Ordered(q, k);
    }
  }

  lemma AppendMakesHole(q: seq<LiveJob>, job: LiveJob)
    requires IsHeap(q)
    ensures HeapAbove(q + [job], |q|)
  {
    var r := q + [job];
    forall i | 0 < i < |q| ensures Ordered(r, i) {
      assert Ordered(q, i);
    }
  }

  lemma RemovalMakesHole(q: seq<LiveJob>)
    requires IsHeap(q) && |q| > 0
    ensures HeapBelow(Swap(q, 0, |q| - 1)[..|q| - 1], 0)
  {
    var n := |q| - 1;
    var r := Swap(q, 0, n);
    forall i | 0 < i < n && Parent(i) != 0 ensures Ordered(r[..n], i) {
      assert Ordered(q, i);
      assert r[i] == q[i] && r[Parent(i)] == q[Parent(i)];
    }
  }

  lemma RemovalKeepsJobs(q: seq<LiveJob>)
    requires |q| > 0
    ensures multiset(Swap(q, 0, |q| - 1)[..|q| - 1]) + multiset{q[0]} == multiset(q)
  {
    var r := Swap(q, 0, |q| - 1);
    assert r == r[..|q| - 1] + [q[0]];
  }

  /** The jobs popped are due, in order and none later than a job left, and no due
      job is left unless the limit is reached. */
  ghost predicate EarliestDue(popped: seq<LiveJob>, left: seq<LiveJob>, limit: nat, now: nat)
    reads popped, left
  {
    && |popped| <= limit
    && (forall x | x in popped :: x.nextTry <= now)
    && (forall x | x in left && x.nextTry <= now :: |popped| == limit)
    && (forall i, j | 0 <= i < j < |popped| :: popped[i].nextTry <= popped[j].nextTry)
    && (forall x, y | x in popped && y in left :: x.nextTry <= y.nextTry)
  }

  class Queue {
    var heap: seq<LiveJob>
    var lastId: nat

    ghost predicate Valid()
      reads this, heap
    {
      IsHeap(heap) && NoRepeats(heap)
    }

    constructor ()
      ensures Valid() && heap == []
    {
      heap := [];
      lastId := 0;
    }

    /** heap.Push: append, then move up. */
    method Insert(job: LiveJob)
      requires Valid() && job !in heap
      modifies this`heap
      ensures Valid() && multiset(heap) == old(multiset(heap)) + multiset{job}
    {
      var q := heap + [job];
      AppendMakesHole(heap, job);
      heap := Up(q, |q| - 1);
      SameMultisetSameMembers(heap, q);
    }

    /** heap.Pop: the root, replaced by the last job, which moves down. */
    method RemoveRoot() returns (job: LiveJob)
      requires Valid() && |heap| > 0
      modifies this`heap
      ensures Valid()
      ensures job == old(heap)[0] && job !in heap
      ensures multiset(heap) + multiset{job} == old(multiset(heap))
    {
      RemovalMakesHole(heap);
      RemovalKeepsJobs(heap);
      job := heap[0];
      var rest := Swap(heap, 0, |heap| - 1)[..|heap| - 1];
      var q := Down(rest, 0);
      RemovedIsGone(heap, q, job);
      heap := q;
    }

    method Push(incoming: Incoming, now: nat) returns (job: LiveJob)
      requires Valid()
      modifies this
      ensures Valid() && fresh(job)
      ensures multiset(heap) == old(multiset(heap)) + multiset{job}
      ensures job.id == old(lastId) + 1 == lastId && job.content == incoming.content
      ensures job.nextTry == now + incoming.nextDelay
      ensures job.retryCount == incoming.retryCount && job.failCount == 0
    {
      lastId := lastId + 1;
      job := new LiveJob(lastId, now, incoming);
      Insert(job);
    }

    /** Takes the earliest due jobs, as many as there are up to the limit. */
    method Pop(limit: nat, now: nat) returns (popped: seq<LiveJob>)
      requires Valid()
      modifies this`heap
      ensures Valid()
      ensures old(multiset(heap)) == multiset(heap) + multiset(popped)
      ensures NoRepeats(popped) && forall x | x in popped :: x !in heap
      ensures |popped| == var due := |DueJobs(old(heap), now)|; if limit <= due then limit else due
      ensures EarliestDue(popped, heap, limit, now)
    {
      popped := [];
      for i := 0 to limit
        invariant Valid() && |popped| == i
        invariant Taken(old(heap), heap, popped, now)
      {
        if |heap| == 0 || heap[0].nextTry > now {
          NothingDue(heap, now);
          break;
        }
        ghost var before := heap;
        var job := RemoveRoot();
        TakeRoot(before, heap, job, now);
        TakeOneMore(old(heap), before, heap, popped, job, now);
        popped := popped + [job];
      }
    }

    /** A retry of a job in flight: although `next` reads the very job that is
        being overwritten, each count is read before it is written. */
    method Update(job: LiveJob, next: NextInfo, now: nat)
      requires Valid() && job !in heap && next.job == job && job.retryCount > 0
      modifies this`heap, job
      ensures Valid()
      ensures multiset(heap) == old(multiset(heap)) + multiset{job}
      ensures job.retryCount == old(job.retryCount) - 1
      ensures job.failCount == old(job.failCount) + 1
      ensures job.content.retryDelay <= 9223372036 ==> job.nextTry == now + 1000 * job.content.retryDelay
    {
      if job.content.retryDelay <= 9223372036 {
        NextDelayExact(job.content.retryDelay);
      }
      assert forall i | 0 < i < |heap| :: Ordered(heap, i);
      job.nextTry := now + next.Delay();
      job.retryCount := next.RetryCount();
      job.failCount := next.FailCount();
      assert forall i | 0 < i < |heap| :: Ordered(heap, i);
      Insert(job);
    }
  }

  lemma SameMultisetSameMembers(a: seq<LiveJob>, b: seq<LiveJob>)
    requires multiset(a) == multiset(b)
    ensures forall x :: x in a <==> x in b
  {
    assert forall x :: x in a <==> x in multiset(a);
    assert forall x :: x in b <==> x in multiset(b);
  }

  lemma RemovedIsGone(before: seq<LiveJob>, after: seq<LiveJob>, job: LiveJob)
    requires NoRepeats(before) && job in before
    requires multiset(after) + multiset{job} == multiset(before)
    ensures job !in after && NoRepeats(after)
    ensures forall x | x in after :: x in before
  {
    assert multiset(before)[job] == 1;
    forall x | x in after ensures x in before && multiset(after)[x] == 1 {
      assert x in multiset(after);
      assert x in multiset(before);
    }
    assert job in after ==> job in multiset(after);
  }

  lemma NothingDue(q: seq<LiveJob>, now: nat)
    requires IsHeap(q) && (|q| == 0 || q[0].nextTry > now)
    ensures DueJobs(q, now) == {} && forall x | x in q :: x.nextTry > now
  {
    forall x | x in q ensures x.nextTry > now {
      var k :| 0 <= k < |q| && q[k] == x;
      RootIsEarliest(q, k);
    }
  }

  lemma TakeRoot(before: seq<LiveJob>, after: seq<LiveJob>, job: LiveJob, now: nat)
    requires IsHeap(before) && NoRepeats(before) && |before| > 0 && job == before[0] && job.nextTry <= now
    requires multiset(after) + multiset{job} == multiset(before)
    ensures |DueJobs(before, now)| == |DueJobs(after, now)| + 1
    ensures forall y | y in after :: job.nextTry <= y.nextTry
    ensures forall y | y in after :: y in before
  {
    RemovedIsGone(before, after, job);
    forall x | x in before ensures x == job || x in after {
      assert x in multiset(before);
      assert x != job ==> x in multiset(after);
    }
    forall y | y in after ensures job.nextTry <= y.nextTry {
      var k :| 0 <= k < |before| && before[k] == y;
      RootIsEarliest(before, k);
    }
    assert DueJobs(before, now) == DueJobs(after, now) + {job};
  }

  /** `popped` is a correct answer so far: the earliest due jobs of `start`, in
      order, with `heap` left. */
  ghost predicate Taken(start: seq<LiveJob>, heap: seq<LiveJob>, popped: seq<LiveJob>, now: nat)
    reads start, heap, popped
  {
    && multiset(start) == multiset(heap) + multiset(popped)
    && |popped| + |DueJobs(heap, now)| == |DueJobs(start, now)|
    && NoRepeats(popped)
    && (forall x | x in popped :: x.nextTry <= now && x !in heap)
    && (forall i, j | 0 <= i < j < |popped| :: popped[i].nextTry <= popped[j].nextTry)
    && (forall x, y | x in popped && y in heap :: x.nextTry <= y.nextTry)
  }

  lemma TakeOneMore(start: seq<LiveJob>, before: seq<LiveJob>, after: seq<LiveJob>,
                    popped: seq<LiveJob>, job: LiveJob, now: nat)
    requires Taken(start, before, popped, now) && job in before && job !in after && job.nextTry <= now
    requires multiset(after) + multiset{job} == multiset(before)
    requires |DueJobs(before, now)| == |DueJobs(after, now)| + 1
    requires forall y | y in after :: job.nextTry <= y.nextTry && y in before
    ensures Taken(start, after, popped + [job], now)
  {
    assert job !in popped && job !in multiset(popped);
    assert multiset(popped + [job]) == multiset(popped) + multiset{job};
  }
}
