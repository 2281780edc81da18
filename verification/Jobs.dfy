/** Jobs, results and the decision taken when a worker reports a result. */
module Jobs {
  import opened GoInt

  datatype Option<+T> = None | Some(value: T)

  /** What a job carries besides its schedule: never changed after a push. */
  datatype Content = Content(
    category: string, url: string, payload: string,
    timeout: nat, retryDelay: nat, failureUrl: string)

  datatype Incoming = Incoming(content: Content, nextDelay: nat, retryCount: nat)

  /** A job as a dispatcher holds it: a snapshot of a stored job. */
  datatype Job = Job(
    id: nat, nextTry: nat, createdAt: nat, retry: nat, fail: nat, content: Content)
  {
    /** The value of the X-Attempt header of a request. */
    function Attempt(): nat { fail + 1 }
  }

  datatype Result = Result(status: string, code: int, message: string) {
    predicate IsSuccess() { status == "success" }
    predicate IsPermanentFailure() { status == "permanent-failure" }
  }

  /** The three branches of completing a job. */
  datatype Outcome = Succeeded | GaveUp | Retried

  function OutcomeOf(retryCount: nat, res: Result): Outcome {
    if res.IsSuccess() then Succeeded
    else if res.IsPermanentFailure() || retryCount == 0 then GaveUp
    else Retried
  }

  /** Which of the statuses a worker reports leads where: a success and a permanent
      failure end a job, any other status is a failure that is retried as long as
      there are retries. */
  lemma OutcomeByStatus(retryCount: nat, code: int, message: string)
    ensures OutcomeOf(retryCount, Result("success", code, message)) == Succeeded
    ensures OutcomeOf(retryCount, Result("permanent-failure", code, message)) == GaveUp
    ensures forall status | status != "success" && status != "permanent-failure" ::
              OutcomeOf(retryCount, Result(status, code, message)) == if retryCount == 0 then GaveUp else Retried
  {
    assert "success"[0] == 's' && "permanent-failure"[0] == 'p';
  }

  /** The delay in milliseconds before a retry, computed through a
      nanosecond duration of 64 bits. */
  function NextDelay(retryDelay: nat): nat {
    WrapUint64(TruncDiv(WrapInt64(WrapInt64(retryDelay) * 1_000_000_000), 1_000_000))
  }

  /** The conversion is exact for every delay the retry_delay column can hold
      (32 bits unsigned), and up to 9223372036 seconds in general; beyond that only
      in one stretch of delays whose wrap-around happens to cancel out. */
  lemma NextDelayExactIff(retryDelay: nat)
    requires retryDelay < TWO_64
    ensures NextDelay(retryDelay) == 1000 * retryDelay <==>
            retryDelay <= 9223372036 || TWO_64 - 9223372036854 <= 1000 * retryDelay < TWO_64
  {
    if retryDelay <= 9223372036 {
      NextDelayExact(retryDelay);
    } else if TWO_64 - 9223372036854 <= 1000 * retryDelay < TWO_64 {
      NextDelayCancels(retryDelay, 1000 * retryDelay - TWO_64);
    } else {
      NextDelayRange(retryDelay);
    }
  }

  lemma NextDelayExact(retryDelay: nat)
    requires retryDelay <= 9223372036
    ensures NextDelay(retryDelay) == 1000 * retryDelay
  {
    assert IsInt64(retryDelay * 1_000_000_000);
  }

  lemma NextDelayCancels(retryDelay: nat, q: int)
    requires -9223372036854 <= q < 0 && 1000 * retryDelay == TWO_64 + q
    ensures NextDelay(retryDelay) == 1000 * retryDelay
  {
    NanosCancel(retryDelay, q);
    MillisOfNanos(q);
    Wraps(-1, TWO_64 + q);
  }

  lemma NanosCancel(retryDelay: nat, q: int)
    requires -9223372036854 <= q < 0 && 1000 * retryDelay == TWO_64 + q
    ensures WrapInt64(WrapInt64(retryDelay) * 1_000_000_000) == 1_000_000 * q
  {
    assert WrapInt64(retryDelay) == retryDelay;
    Wraps(1_000_000, 1_000_000 * q);
  }

  lemma MillisOfNanos(q: int)
    requires q < 0
    ensures TruncDiv(1_000_000 * q, 1_000_000) == q
  {
  }

  lemma NextDelayRange(retryDelay: nat)
    ensures NextDelay(retryDelay) <= 9223372036854 || TWO_64 - 9223372036854 <= NextDelay(retryDelay) < TWO_64
  {
    var nanos := WrapInt64(WrapInt64(retryDelay) * 1_000_000_000);
    assert -9223372036854 <= TruncDiv(nanos, 1_000_000) <= 9223372036854;
  }
}
