/** Dispatch statistics in Redis: five-minute, hourly and daily tumbling buckets
    with times to live. */
module Buckets {
  import opened Jobs

  datatype Counters = Counters(total: nat, success: nat, fail: nat, permanentFail: nat)

  /** The fields of a bucket. */
  datatype Field = Total | Success | Fail | PermanentFail

  function Get(c: Counters, f: Field): nat {
    match f
    case Total => c.total
    case Success => c.success
    case Fail => c.fail
    case PermanentFail => c.permanentFail
  }

  /** Whose dispatches: target environment and organisation.  Each owner has
      buckets of its own. */
  datatype Owner = Owner(env: string, org: string)

  datatype Key =
    | FiveMinutes(hour: nat, minute: nat)
    | Hour(hour: nat)
    | Day(day: nat)

  function TimeToLive(k: Key): nat {
    match k
    case FiveMinutes(_, _) => 7200 // two hours
    case Hour(_) => 90000 // twenty-five hours
    case Day(_) => 604800 // seven days
  }

  /** The first second of the window of a bucket, and its length. */
  function Start(k: Key): nat {
    match k
    case FiveMinutes(hour, minute) => hour * 3600 + minute * 60
    case Hour(hour) => hour * 3600
    case Day(day) => day * 86400
  }

  function Length(k: Key): nat {
    match k
    case FiveMinutes(_, _) => 300
    case Hour(_) => 3600
    case Day(_) => 86400
  }

  /** A moment as a clock shows it: seconds, and the numbers of the minute in the
      hour, of the hour and of the day that its keys are made of. */
  datatype Moment = Moment(seconds: nat, minute: nat, hour: nat, day: nat)

  /** The clock does not shift: hours and days follow from the seconds, counted
      from some midnight. */
  predicate Steady(m: Moment) {
    m.minute == m.seconds / 60 % 60 && m.hour == m.seconds / 3600 && m.day == m.seconds / 86400
  }

  datatype Event = Event(at: Moment, isSuccess: bool, isPermanentFail: bool)

  function KeysOf(e: Event): seq<Key> {
    [FiveMinutes(e.at.hour, e.at.minute - e.at.minute % 5),
     Hour(e.at.hour),
     Day(e.at.day)]
  }

  /** The dispatch counts in bucket `k`. */
  predicate Covers(k: Key, e: Event) {
    match k
    case FiveMinutes(hour, minute) => hour == e.at.hour && minute == e.at.minute - e.at.minute % 5
    case Hour(hour) => hour == e.at.hour
    case Day(day) => day == e.at.day
  }

  /** The increments of one dispatch to a bucket. */
  function Bump(c: Counters, e: Event): Counters {
    if e.isSuccess then c.(total := c.total + 1, success := c.success + 1)
    else if e.isPermanentFail then
      c.(total := c.total + 1, fail := c.fail + 1, permanentFail := c.permanentFail + 1)
    else c.(total := c.total + 1, fail := c.fail + 1)
  }

  /** Whether a dispatch is one of those that a field counts. */
  predicate Counted(f: Field, e: Event) {
    match f
    case Total => true
    case Success => e.isSuccess
    case Fail => !e.isSuccess
    case PermanentFail => !e.isSuccess && e.isPermanentFail
  }

  lemma BumpCounts(c: Counters, e: Event, f: Field)
    ensures Get(Bump(c, e), f) == Get(c, f) + if Counted(f, e) then 1 else 0
  {
  }

  /** A dispatch that counts in a bucket falls into its window. */
  predicate InWindow(k: Key, e: Event) {
    Covers(k, e) ==> Start(k) <= e.at.seconds < Start(k) + Length(k)
  }

  lemma WindowsContain(e: Event, k: Key)
    requires Steady(e.at)
    ensures InWindow(k, e)
  {
    var now := e.at.seconds;
    assert now / 3600 == now / 60 / 60;
    assert now == 3600 * e.at.hour + 60 * e.at.minute + now % 60;
  }

  lemma OutlivesWindow(k: Key)
    ensures Length(k) <= TimeToLive(k)
  {
  }

  // ---------- Redis ----------

  datatype Bucket = Bucket(counters: Counters, expireAt: Option<nat>)

  predicate IsLive(b: Bucket, now: nat) {
    b.expireAt.None? || now < b.expireAt.value
  }

  /** The hash that a client sees; a missing or expired one reads as zeros. */
  function CountersAt(store: map<Key, Bucket>, k: Key, now: nat): Counters {
    if k in store && IsLive(store[k], now) then store[k].counters else Counters(0, 0, 0, 0)
  }

  function ValueAt(store: map<Key, Bucket>, k: Key, f: Field, now: nat): nat {
    Get(CountersAt(store, k, now), f)
  }

  /** Incrementing a live hash keeps its expiry; a missing one has none. */
  function Increment(store: map<Key, Bucket>, k: Key, e: Event): map<Key, Bucket> {
    var now := e.at.seconds;
    var expiry := if k in store && IsLive(store[k], now) then store[k].expireAt else None;
    store[k := Bucket(Bump(CountersAt(store, k, now), e), expiry)]
  }

  function Expire(store: map<Key, Bucket>, k: Key, now: nat): map<Key, Bucket> {
    if k !in store then store else store[k := store[k].(expireAt := Some(now + TimeToLive(k)))]
  }

  /** One more dispatch in one bucket, with a new time to live. */
  function Renewed(store: map<Key, Bucket>, k: Key, e: Event): Bucket {
    Bucket(Bump(CountersAt(store, k, e.at.seconds), e), Some(e.at.seconds + TimeToLive(k)))
  }

  /** The store after one dispatch. */
  function Record(store: map<Key, Bucket>, e: Event): map<Key, Bucket> {
    store[KeysOf(e)[0] := Renewed(store, KeysOf(e)[0], e)]
         [KeysOf(e)[1] := Renewed(store, KeysOf(e)[1], e)]
         [KeysOf(e)[2] := Renewed(store, KeysOf(e)[2], e)]
  }

  class Writer {
    var stores: map<Owner, map<Key, Bucket>>
    /** The sorted set of active subscribers: when each was last seen. */
    var active: map<Owner, nat>

    constructor ()
      ensures stores == map[] && active == map[]
    {
      stores, active := map[], map[];
    }

    function StoreOf(owner: Owner): map<Key, Bucket>
      reads this
    {
      if owner in stores then stores[owner] else map[]
    }

    method RecordDispatch(at: Moment, owner: Owner, isSuccess: bool, isPermanentFail: bool)
      modifies this
      ensures owner.env == "" || owner.org == "" ==> stores == old(stores) && active == old(active)
      ensures owner.env != "" && owner.org != "" ==>
                && stores == old(stores)[owner := Record(old(StoreOf(owner)), Event(at, isSuccess, isPermanentFail))]
                && active == old(active)[owner := at.seconds]
    {
      if owner.env == "" || owner.org == "" { return; }
      var e := Event(at, isSuccess, isPermanentFail);
      var store := IncrementAll(StoreOf(owner), KeysOf(e), e);
      store := ExpireAll(store, KeysOf(e), at.seconds);
      RecordIs(StoreOf(owner), e, store);
      stores := stores[owner := store];
      active := active[owner := at.seconds];
    }
  }

  method IncrementAll(before: map<Key, Bucket>, keys: seq<Key>, e: Event)
      returns (store: map<Key, Bucket>)
    requires forall i, j | 0 <= i < j < |keys| :: keys[i] != keys[j]
    ensures forall k :: k in store <==> k in before || k in keys
    ensures forall k | k in keys :: store[k].counters == Bump(CountersAt(before, k, e.at.seconds), e)
    ensures forall k | k in before && k !in keys :: store[k] == before[k]
  {
    store := before;
    for i := 0 to |keys|
      invariant forall k :: k in store <==> k in before || k in keys[..i]
      invariant forall k | k in keys[..i] :: store[k].counters == Bump(CountersAt(before, k, e.at.seconds), e)
      invariant forall k | k in before && k !in keys[..i] :: store[k] == before[k]
    {
      assert keys[i] !in keys[..i];
      assert keys[..i + 1] == keys[..i] + [keys[i]];
      store := Increment(store, keys[i], e);
    }
    assert keys[..|keys|] == keys;
  }

  method ExpireAll(before: map<Key, Bucket>, keys: seq<Key>, now: nat) returns (store: map<Key, Bucket>)
    requires forall k | k in keys :: k in before
    ensures forall k :: k in store <==> k in before
    ensures forall k | k in keys :: store[k] == Bucket(before[k].counters, Some(now + TimeToLive(k)))
    ensures forall k | k in store && k !in keys :: store[k] == before[k]
  {
    store := before;
    for i := 0 to |keys|
      invariant forall k :: k in store <==> k in before
      invariant forall k | k in keys[..i] :: store[k] == Bucket(before[k].counters, Some(now + TimeToLive(k)))
      invariant forall k | k in store && k !in keys[..i] :: store[k] == before[k]
    {
      assert keys[..i + 1] == keys[..i] + [keys[i]];
      store := Expire(store, keys[i], now);
    }
    assert keys[..|keys|] == keys;
  }

  lemma RecordIs(before: map<Key, Bucket>, e: Event, after: map<Key, Bucket>)
    requires forall k :: k in after <==> k in before || k in KeysOf(e)
    requires forall k | k in KeysOf(e) :: after[k] == Renewed(before, k, e)
    requires forall k | k in before && k !in KeysOf(e) :: after[k] == before[k]
    ensures after == Record(before, e)
  {
    assert after.Keys == Record(before, e).Keys;
  }

  // ---------- Runs ----------

  ghost predicate AllSteady(trace: seq<Event>) {
    forall i | 0 <= i < |trace| :: Steady(trace[i].at)
  }

  /** What the dispatches of a trace leave behind. */
  function StoreAfter(trace: seq<Event>): map<Key, Bucket>
    decreases |trace|
  {
    if trace == [] then map[] else Record(StoreAfter(trace[..|trace| - 1]), trace[|trace| - 1])
  }

  /** The dispatches of a trace that a field of a bucket is to count. */
  function Tally(trace: seq<Event>, k: Key, f: Field): nat
    decreases |trace|
  {
    if trace == [] then 0 else
    var last := trace[|trace| - 1];
    Tally(trace[..|trace| - 1], k, f) + if Covers(k, last) && Counted(f, last) then 1 else 0
  }

  /** When bucket `k` was last written. */
  function LastWrite(trace: seq<Event>, k: Key): Option<nat>
    decreases |trace|
  {
    if trace == [] then None else
    var last := trace[|trace| - 1];
    if Covers(k, last) then Some(last.at.seconds) else LastWrite(trace[..|trace| - 1], k)
  }

  /** The field holds `n`, and the bucket lives for its time to live from its last
      write, which was in its window. */
  predicate Holds(store: map<Key, Bucket>, k: Key, f: Field, n: nat, last: Option<nat>) {
    if k in store then
      && Get(store[k].counters, f) == n
      && last.Some? && Start(k) <= last.value
      && store[k].expireAt == Some(last.value + TimeToLive(k))
    else n == 0 && last.None?
  }

  lemma RecordHolds(before: map<Key, Bucket>, e: Event, k: Key, f: Field, n: nat, last: Option<nat>)
    requires Holds(before, k, f, n, last) && InWindow(k, e)
    ensures Holds(Record(before, e), k, f, n + (if Covers(k, e) && Counted(f, e) then 1 else 0),
                  if Covers(k, e) then Some(e.at.seconds) else last)
  {
    OutlivesWindow(k);
    BumpCounts(CountersAt(before, k, e.at.seconds), e, f);
  }

  lemma {:induction false} WindowedBucketHolds(trace: seq<Event>, k: Key, f: Field)
    requires forall i | 0 <= i < |trace| :: InWindow(k, trace[i])
    ensures Holds(StoreAfter(trace), k, f, Tally(trace, k, f), LastWrite(trace, k))
    decreases |trace|
  {
    if trace != [] {
      var last, prev := trace[|trace| - 1], trace[..|trace| - 1];
      WindowedBucketHolds(prev, k, f);
      RecordHolds(StoreAfter(prev), last, k, f, Tally(prev, k, f), LastWrite(prev, k));
    }
  }

  /** A bucket written holds exactly its dispatches. */
  lemma BucketHolds(trace: seq<Event>, k: Key, f: Field)
    requires AllSteady(trace)
    ensures Holds(StoreAfter(trace), k, f, Tally(trace, k, f), LastWrite(trace, k))
  {
    forall i | 0 <= i < |trace| ensures InWindow(k, trace[i]) {
      WindowsContain(trace[i], k);
    }
    WindowedBucketHolds(trace, k, f);
  }

  /** In every run and at any moment each field of a bucket shows exactly its
      dispatches until the time to live after the last of them is over, and zero
      from then on; that is at least the time to live from the start of the
      window. */
  lemma BucketIsExact(trace: seq<Event>, k: Key, f: Field, now: nat)
    requires AllSteady(trace)
    ensures ValueAt(StoreAfter(trace), k, f, now)
            == if LastWrite(trace, k).Some? && now < LastWrite(trace, k).value + TimeToLive(k)
               then Tally(trace, k, f) else 0
    ensures now < Start(k) + TimeToLive(k) ==> ValueAt(StoreAfter(trace), k, f, now) == Tally(trace, k, f)
  {
    BucketHolds(trace, k, f);
  }

  /** How long a bucket is readable: after its last dispatch its counts show for two
      hours if it is one of five minutes, for twenty-five hours if it is one of an
      hour, and for seven days if it is one of a day; and not a second longer. */
  lemma ReadableFor(trace: seq<Event>, k: Key, f: Field, now: nat)
    requires AllSteady(trace) && LastWrite(trace, k).Some?
    ensures var hours := match k case FiveMinutes(_, _) => 2 case Hour(_) => 25 case Day(_) => 7 * 24;
            ValueAt(StoreAfter(trace), k, f, now)
            == if now < LastWrite(trace, k).value + hours * 3600 then Tally(trace, k, f) else 0
  {
    BucketIsExact(trace, k, f, now);
  }

  /** In every run, whatever the clock does, each bucket splits its total into
      successes and failures, and permanent failures are failures. */
  lemma BucketSums(trace: seq<Event>, k: Key, now: nat)
    ensures var c := CountersAt(StoreAfter(trace), k, now);
            c.total == c.success + c.fail && c.permanentFail <= c.fail
  {
    var total, success, fail, permanentFail := StoreAddsUp(trace, k);
  }

  /** The four fields of a bucket, if it exists. */
  predicate Fields(store: map<Key, Bucket>, k: Key, total: nat, success: nat, fail: nat, permanentFail: nat) {
    k in store ==>
      && Get(store[k].counters, Total) == total && Get(store[k].counters, Success) == success
      && Get(store[k].counters, Fail) == fail && Get(store[k].counters, PermanentFail) == permanentFail
  }

  lemma {:induction false} StoreAddsUp(trace: seq<Event>, k: Key)
      returns (total: nat, success: nat, fail: nat, permanentFail: nat)
    ensures Fields(StoreAfter(trace), k, total, success, fail, permanentFail)
    ensures total == success + fail && permanentFail <= fail
    decreases |trace|
  {
    total, success, fail, permanentFail := 0, 0, 0, 0;
    if trace != [] {
      var e, before := trace[|trace| - 1], StoreAfter(trace[..|trace| - 1]);
      total, success, fail, permanentFail := StoreAddsUp(trace[..|trace| - 1], k);
      if Covers(k, e) {
        if k !in before || !IsLive(before[k], e.at.seconds) {
          total, success, fail, permanentFail := 0, 0, 0, 0;
        }
        RecordFields(before, e, k, total, success, fail, permanentFail);
        total := total + 1;
        success := success + if Counted(Success, e) then 1 else 0;
        fail := fail + if Counted(Fail, e) then 1 else 0;
        permanentFail := permanentFail + if Counted(PermanentFail, e) then 1 else 0;
      }
    }
  }

  lemma RecordFields(before: map<Key, Bucket>, e: Event, k: Key,
                     total: nat, success: nat, fail: nat, permanentFail: nat)
    requires Covers(k, e)
    requires if k in before && IsLive(before[k], e.at.seconds)
             then Fields(before, k, total, success, fail, permanentFail)
             else total == success == fail == permanentFail == 0
    ensures Fields(Record(before, e), k, total + 1,
                   success + (if Counted(Success, e) then 1 else 0), fail + (if Counted(Fail, e) then 1 else 0),
                   permanentFail + if Counted(PermanentFail, e) then 1 else 0)
  {
    var c := CountersAt(before, k, e.at.seconds);
    BumpCounts(c, e, Total);
    BumpCounts(c, e, Success);
    BumpCounts(c, e, Fail);
    BumpCounts(c, e, PermanentFail);
  }

  // ---------- Nested windows ----------

  /** The i-th bucket inside an hour or a day. */
  function Inner(k: Key, i: nat): Key
    requires !k.FiveMinutes?
  {
    match k
    case Hour(hour) => FiveMinutes(hour, 5 * i)
    case Day(day) => Hour(24 * day + i)
  }

  function InnerCount(k: Key): nat {
    if k.Hour? then 12 else 24
  }

  /** The sum of the first `n` buckets inside, as they show at `now`. */
  function InnerSum(store: map<Key, Bucket>, k: Key, f: Field, n: nat, now: nat): nat
    requires !k.FiveMinutes?
    decreases n
  {
    if n == 0 then 0 else InnerSum(store, k, f, n - 1, now) + ValueAt(store, Inner(k, n - 1), f, now)
  }

  function InnerTally(trace: seq<Event>, k: Key, f: Field, n: nat): nat
    requires !k.FiveMinutes?
    decreases n
  {
    if n == 0 then 0 else InnerTally(trace, k, f, n - 1) + Tally(trace, Inner(k, n - 1), f)
  }

  /** Which inner bucket a dispatch of the window falls into. */
  function Slot(k: Key, e: Event): nat {
    if k.Hour? then e.at.minute / 5 else e.at.hour % 24
  }

  /** A dispatch of the window counts in exactly one inner bucket, that of its slot. */
  predicate InSlot(k: Key, e: Event, i: nat, slot: nat)
    requires !k.FiveMinutes?
  {
    Covers(Inner(k, i), e) <==> Covers(k, e) && i == slot
  }

  predicate AllInSlot(k: Key, e: Event, n: nat, slot: nat)
    requires !k.FiveMinutes?
  {
    forall i | 0 <= i < n :: InSlot(k, e, i, slot)
  }

  lemma SlotIs(k: Key, e: Event, i: nat)
    requires !k.FiveMinutes? && i < InnerCount(k) && Steady(e.at)
    ensures InSlot(k, e, i, Slot(k, e))
    ensures Slot(k, e) < InnerCount(k)
  {
    assert e.at.minute - e.at.minute % 5 == 5 * (e.at.minute / 5);
    assert e.at.day == e.at.hour / 24;
    assert 24 * (e.at.hour / 24) + e.at.hour % 24 == e.at.hour;
  }

  lemma {:induction false} InnerTallyStep(trace: seq<Event>, k: Key, f: Field, n: nat, slot: nat)
    requires !k.FiveMinutes? && trace != []
    requires AllInSlot(k, trace[|trace| - 1], n, slot)
    ensures var last := trace[|trace| - 1];
            InnerTally(trace, k, f, n) == InnerTally(trace[..|trace| - 1], k, f, n)
              + if Covers(k, last) && Counted(f, last) && slot < n then 1 else 0
    decreases n
  {
    if n > 0 {
      InnerTallyStep(trace, k, f, n - 1, slot);
      assert InSlot(k, trace[|trace| - 1], n - 1, slot);
    }
  }

  lemma {:induction false} TallyIsInnerTally(trace: seq<Event>, k: Key, f: Field)
    requires !k.FiveMinutes? && AllSteady(trace)
    ensures Tally(trace, k, f) == InnerTally(trace, k, f, InnerCount(k))
    decreases |trace|
  {
    if trace == [] {
      EmptyInnerTally(k, f, InnerCount(k));
    } else {
      var last := trace[|trace| - 1];
      TallyIsInnerTally(trace[..|trace| - 1], k, f);
      forall i | 0 <= i < InnerCount(k) ensures InSlot(k, last, i, Slot(k, last)) {
        SlotIs(k, last, i);
      }
      SlotIs(k, last, 0);
      InnerTallyStep(trace, k, f, InnerCount(k), Slot(k, last));
    }
  }

  lemma {:induction false} EmptyInnerTally(k: Key, f: Field, n: nat)
    requires !k.FiveMinutes?
    ensures InnerTally([], k, f, n) == 0
    decreases n
  {
    if n > 0 {
      EmptyInnerTally(k, f, n - 1);
    }
  }

  lemma InnerOutlives(k: Key, i: nat)
    requires !k.FiveMinutes?
    ensures Start(k) + Length(k) <= Start(Inner(k, i)) + TimeToLive(Inner(k, i))
  {
  }

  lemma {:induction false} InnerSumIsTally(trace: seq<Event>, k: Key, f: Field, n: nat, now: nat)
    requires !k.FiveMinutes? && n <= InnerCount(k) && AllSteady(trace)
    requires now < Start(k) + Length(k)
    ensures InnerSum(StoreAfter(trace), k, f, n, now) == InnerTally(trace, k, f, n)
    decreases n
  {
    if n > 0 {
      InnerSumIsTally(trace, k, f, n - 1, now);
      InnerOutlives(k, n - 1);
      BucketIsExact(trace, Inner(k, n - 1), f, now);
    }
  }

  /** In every run, at any moment within an hour each hourly counter is the sum of
      its five-minute buckets still alive, and within a day each daily counter is
      the sum of its hourly buckets, because inner buckets outlive the enclosing
      window. */
  lemma WindowIsSumOfInner(trace: seq<Event>, k: Key, f: Field, now: nat)
    requires !k.FiveMinutes? && AllSteady(trace)
    requires Start(k) <= now < Start(k) + Length(k)
    ensures ValueAt(StoreAfter(trace), k, f, now) == InnerSum(StoreAfter(trace), k, f, InnerCount(k), now)
  {
    OutlivesWindow(k);
    BucketIsExact(trace, k, f, now);
    TallyIsInnerTally(trace, k, f);
    InnerSumIsTally(trace, k, f, InnerCount(k), now);
  }
}
