/** Runs of a cluster of two nodes that show what a commit that fails, a recovery
    of a job somebody still works on, a stale completion, and a failing failure log
    lead to. */
module Failover {
  import opened Jobs
  import opened Store
  import opened Cluster
  import Election
  import Exclusive

  /** One more step at the end of a run. */
  lemma Then(steps: seq<Step>, step: Step) returns (longer: seq<Step>)
    requires Feasible(INITIAL, steps) && Enabled(After(INITIAL, steps), step)
    ensures longer == steps + [step] && Feasible(INITIAL, longer)
    ensures After(INITIAL, longer) == Do(After(INITIAL, steps), step)
  {
    longer := steps + [step];
    Extend(INITIAL, steps, step);
  }

  lemma {:induction false} Extend(s: State, steps: seq<Step>, step: Step)
    requires Feasible(s, steps) && Enabled(After(s, steps), step)
    ensures Feasible(s, steps + [step]) && After(s, steps + [step]) == Do(After(s, steps), step)
    decreases |steps|
  {
    if steps != [] {
      Extend(Do(s, steps[0]), steps[1..], step);
      assert (steps + [step])[1..] == steps[1..] + [step];
    } else {
      assert [step][1..] == [];
    }
  }

  // ---------- An election ----------

  /** A node without a session competes for a free lock and gets it. */
  predicate MayCampaign(e: Election.State, n: nat) {
    n in e.nodes && e.nodes[n] == BACKUP && e.lock.None?
  }

  const BACKUP := Election.Node(Election.Waiting, false, -1, None, None)

  function Contending(session: nat): Election.Node {
    Election.Node(Election.Contending, false, 0, Some(session), None)
  }

  function Primary(session: nat): Election.Node {
    Election.Node(Election.Activating, false, 0, Some(session), Some(session))
  }

  function WithSession(e: Election.State, n: nat, node: Election.Node): Election.State {
    e.(nodes := e.nodes[n := node], live := e.live + {e.nextSession}, nextSession := e.nextSession + 1)
  }

  function Campaigned(e: Election.State, n: nat): Election.State {
    WithSession(e, n, Primary(e.nextSession)).(lock := Some(e.nextSession))
  }

  lemma Connecting(steps: seq<Step>, n: nat) returns (longer: seq<Step>)
    requires Feasible(INITIAL, steps) && MayCampaign(After(INITIAL, steps).election, n)
    ensures Feasible(INITIAL, longer)
    ensures var s := After(INITIAL, steps);
            After(INITIAL, longer) == s.(election :=
              WithSession(s.election, n, BACKUP.(pc := Election.Asking, session := Some(s.election.nextSession))))
  {
    longer := Then(steps, Elect(Election.Begin(n)));
    longer := Then(longer, Elect(Election.Connect(n)));
  }

  lemma Asking(steps: seq<Step>, n: nat) returns (longer: seq<Step>)
    requires Feasible(INITIAL, steps) && MayCampaign(After(INITIAL, steps).election, n)
    ensures Feasible(INITIAL, longer)
    ensures var s := After(INITIAL, steps);
            After(INITIAL, longer)
            == s.(election := WithSession(s.election, n, Contending(s.election.nextSession)))
  {
    longer := Connecting(steps, n);
    longer := Then(longer, Elect(Election.Ask(n, true)));
    longer := Then(longer, Elect(Election.Clear(n)));
  }

  lemma Campaign(steps: seq<Step>, n: nat) returns (longer: seq<Step>)
    requires Feasible(INITIAL, steps) && MayCampaign(After(INITIAL, steps).election, n)
    ensures Feasible(INITIAL, longer)
    ensures var s := After(INITIAL, steps);
            After(INITIAL, longer) == s.(election := Campaigned(s.election, n))
  {
    longer := Asking(steps, n);
    longer := Then(longer, Elect(Election.Grant(n)));
  }

  lemma Activate(steps: seq<Step>, n: nat) returns (longer: seq<Step>)
    requires Feasible(INITIAL, steps)
    requires n in After(INITIAL, steps).election.nodes && After(INITIAL, steps).election.nodes[n].pc.Activating?
    ensures Feasible(INITIAL, longer)
    ensures var s := After(INITIAL, steps);
            After(INITIAL, longer) == s.(election := s.election.(nodes :=
              s.election.nodes[n := s.election.nodes[n].(active := 1, pc := Election.Waiting)]))
  {
    longer := Then(steps, Elect(Election.Activate(n)));
  }

  // ---------- The first primary hands out a job ----------

  /** The only job of these runs, pushed at time 0. */
  function TheJob(c: Content, retries: nat): Job {
    Job(1, 0, 0, retries, 0, c)
  }

  function Stored(c: Content, retries: nat, grabber: Option<nat>): Db {
    Db(map[1 := Row(if grabber.Some? then Grabbed else Claimed, grabber, 0, 0, retries, 0, c)], 2)
  }

  function Handed(c: Content, retries: nat, times: nat, recoveries: nat): Ledger {
    Ledger(map[1 := Incoming(c, 0, retries)], map[], [],
           if times == 0 then map[] else map[1 := times], map[],
           if recoveries == 0 then map[] else map[1 := recoveries], map[])
  }

  /** Two nodes over a new database. */
  lemma Joined() returns (steps: seq<Step>)
    ensures Feasible(INITIAL, steps)
    ensures After(INITIAL, steps)
            == INITIAL.(members := map[0 := FRESH, 1 := FRESH],
                        election := Election.State(map[0 := BACKUP, 1 := BACKUP], None, {}, 1))
  {
    steps := Then([], Join(0));
    steps := Then(steps, Join(1));
  }

  const FIRST := FRESH.(conn := Some(1))

  lemma Opened(c: Content, retries: nat) returns (steps: seq<Step>)
    ensures Feasible(INITIAL, steps)
    ensures After(INITIAL, steps)
            == State(Stored(c, retries, None), map[0 := FIRST, 1 := FRESH],
                     Election.State(map[0 := BACKUP, 1 := BACKUP], None, {1}, 2), Handed(c, retries, 0, 0))
  {
    steps := Joined();
    steps := Then(steps, Push(0, Incoming(c, 0, retries)));
    steps := Then(steps, Open(0));
  }

  const FIRST_ELECTED := Election.State(
    map[0 := Primary(2).(pc := Election.Waiting, active := 1), 1 := BACKUP], Some(2), {1, 2}, 3)

  lemma Elected(c: Content, retries: nat) returns (steps: seq<Step>)
    ensures Feasible(INITIAL, steps)
    ensures After(INITIAL, steps)
            == State(Stored(c, retries, None), map[0 := FIRST, 1 := FRESH], FIRST_ELECTED, Handed(c, retries, 0, 0))
  {
    steps := Opened(c, retries);
    steps := Campaign(steps, 0);
    steps := Activate(steps, 0);
    assert After(INITIAL, steps).election == FIRST_ELECTED;
  }

  /** An idle primary selects the job. */
  lemma Select(steps: seq<Step>, n: nat, c: Content, retries: nat) returns (longer: seq<Step>)
    requires Feasible(INITIAL, steps) && After(INITIAL, steps).db == Stored(c, retries, None)
    requires var s := After(INITIAL, steps);
             && n in s.members && s.members[n].popping.Idle? && s.members[n].conn.Some?
             && n in s.election.nodes && s.election.nodes[n].active == 1
    ensures Feasible(INITIAL, longer)
    ensures var s := After(INITIAL, steps);
            After(INITIAL, longer) == Put(s, n, s.members[n].(popping := Selected({1})))
  {
    longer := Then(steps, CheckActive(n));
    assert Due(Stored(c, retries, None), 0) == {1};
    longer := Then(longer, Preselect(n, 0, 1, [1]));
    var s := After(INITIAL, steps);
    assert After(INITIAL, longer).members[n].popping.ids == {1};
    assert s.members[n := s.members[n].(popping := Checked)][n := s.members[n].(popping := Selected({1}))]
        == s.members[n := s.members[n].(popping := Selected({1}))];
  }

  lemma LaunchIs(s: State, n: nat, c: Content, retries: nat)
    requires n in s.members && s.members[n].popping == Selected({1}) && s.members[n].conn.Some?
    requires s.db == Stored(c, retries, None)
    ensures var m := s.members[n]; var t := DoLaunch(s, n, true);
            && t.db == Stored(c, retries, m.conn) && t.election == s.election
            && t.members == s.members[n := m.(popping := Idle, held := m.held + multiset{TheJob(c, retries)})]
            && t.ledger == s.ledger.(handed := Tally(s.ledger.handed, {1}))
  {
    var got := Grabbable(s.db, {1});
    assert got == {1};
    CopiesIs(s.db, c, retries);
  }

  lemma UncommittedLaunchIs(s: State, n: nat, c: Content, retries: nat)
    requires n in s.members && s.members[n].popping == Selected({1}) && s.members[n].conn.Some?
    requires s.db == Stored(c, retries, None)
    ensures var m := s.members[n]; var t := DoLaunch(s, n, false);
            && t.db == s.db && t.election == s.election
            && t.members == s.members[n := m.(popping := Idle, held := m.held + multiset{TheJob(c, retries)})]
  {
    var got := Grabbable(s.db, {1});
    assert got == {1};
    CopiesIs(s.db, c, retries);
  }

  lemma CopiesIs(db: Db, c: Content, retries: nat)
    requires db == Stored(c, retries, None)
    ensures Copies(db, {1}) == multiset{TheJob(c, retries)}
  {
    assert (set id | id in {1} :: CopyOf(id, db.rows[id])) == {CopyOf(1, db.rows[1])};
  }

  function HoldingIt(m: Member, c: Content, retries: nat): Member {
    m.(held := multiset{TheJob(c, retries)})
  }

  /** The first primary works on the job. */
  lemma HandedOut(c: Content, retries: nat) returns (steps: seq<Step>)
    ensures Feasible(INITIAL, steps)
    ensures After(INITIAL, steps)
            == State(Stored(c, retries, Some(1)), map[0 := HoldingIt(FIRST, c, retries), 1 := FRESH],
                     FIRST_ELECTED, Handed(c, retries, 1, 0))
  {
    steps := Elected(c, retries);
    steps := Select(steps, 0, c, retries);
    LaunchIs(After(INITIAL, steps), 0, c, retries);
    steps := Then(steps, Launch(0, true));
    assert After(INITIAL, steps).ledger.handed == map[1 := 1];
    assert FIRST.held + multiset{TheJob(c, retries)} == multiset{TheJob(c, retries)};
    assert After(INITIAL, steps).members == map[0 := HoldingIt(FIRST, c, retries), 1 := FRESH];
  }

  /** A launch whose commit fails is not noticed: the node pops the same job once
      more and works on it twice. */
  lemma HandedTwice(c: Content, retries: nat) returns (steps: seq<Step>)
    ensures Feasible(INITIAL, steps)
    ensures 1 in After(INITIAL, steps).db.rows
    ensures Exclusive.Holding(After(INITIAL, steps), 0, TheJob(c, retries)) == 2
  {
    steps := Elected(c, retries);
    steps := Select(steps, 0, c, retries);
    UncommittedLaunchIs(After(INITIAL, steps), 0, c, retries);
    steps := Then(steps, Launch(0, false));
    steps := Select(steps, 0, c, retries);
    LaunchIs(After(INITIAL, steps), 0, c, retries);
    steps := Then(steps, Launch(0, true));
  }

  // ---------- The second primary recovers it ----------

  const SECOND := FRESH.(conn := Some(3))

  /** The first primary loses its session and the second one gets the lock. */
  function Contested(): Election.State {
    Election.State(map[0 := Primary(2).(pc := Election.Waiting, active := 1), 1 := Primary(4)], Some(4), {1, 3, 4}, 5)
  }

  lemma SessionLost(c: Content, retries: nat) returns (steps: seq<Step>)
    ensures Feasible(INITIAL, steps)
    ensures After(INITIAL, steps)
            == State(Stored(c, retries, Some(1)), map[0 := HoldingIt(FIRST, c, retries), 1 := SECOND],
                     FIRST_ELECTED.(lock := None, live := {1, 3}, nextSession := 4), Handed(c, retries, 1, 0))
  {
    steps := HandedOut(c, retries);
    steps := Then(steps, Elect(Election.Die(2)));
    steps := Then(steps, Open(1));
    assert After(INITIAL, steps).election.live == {1, 3};
  }

  lemma Deposed(c: Content, retries: nat) returns (steps: seq<Step>)
    ensures Feasible(INITIAL, steps)
    ensures After(INITIAL, steps)
            == State(Stored(c, retries, Some(1)), map[0 := HoldingIt(FIRST, c, retries), 1 := SECOND],
                     Contested(), Handed(c, retries, 1, 0))
  {
    steps := SessionLost(c, retries);
    steps := Campaign(steps, 1);
    assert After(INITIAL, steps).election == Contested();
  }

  lemma Picked(c: Content, retries: nat) returns (steps: seq<Step>)
    ensures Feasible(INITIAL, steps)
    ensures After(INITIAL, steps)
            == State(Stored(c, retries, Some(1)), map[0 := HoldingIt(FIRST, c, retries), 1 := SECOND.(picked := {1})],
                     Contested(), Handed(c, retries, 1, 0))
  {
    steps := Deposed(c, retries);
    assert Orphans(Stored(c, retries, Some(1)), 3) == {1};
    steps := Then(steps, PickOrphans(1, {1}));
  }

  /** The second primary has recovered the job that the first one works on. */
  lemma Recovered(c: Content, retries: nat) returns (steps: seq<Step>)
    ensures Feasible(INITIAL, steps)
    ensures After(INITIAL, steps)
            == State(Stored(c, retries, None), map[0 := HoldingIt(FIRST, c, retries), 1 := SECOND],
                     Contested(), Handed(c, retries, 1, 1))
  {
    steps := Picked(c, retries);
    steps := Then(steps, RecoverPicked(1));
    assert After(INITIAL, steps).ledger.recovered == map[1 := 1];
    assert After(INITIAL, steps).db.rows == Stored(c, retries, None).rows;
    assert After(INITIAL, steps).members == map[0 := HoldingIt(FIRST, c, retries), 1 := SECOND];
  }

  /** ... and has selected it to hand it out. */
  lemma SelectedAgain(c: Content, retries: nat) returns (steps: seq<Step>)
    ensures Feasible(INITIAL, steps)
    ensures var s := After(INITIAL, steps);
            && s.db == Stored(c, retries, None) && s.ledger == Handed(c, retries, 1, 1)
            && s.members == map[0 := HoldingIt(FIRST, c, retries), 1 := SECOND.(popping := Selected({1}))]
  {
    steps := Recovered(c, retries);
    steps := Activate(steps, 1);
    steps := Select(steps, 1, c, retries);
  }

  /** The recovery of a job that is still being worked on makes two nodes work on
      it: the condition of Exclusive.OneHolder is needed. */
  lemma TwoHolders(c: Content, retries: nat) returns (steps: seq<Step>)
    ensures Feasible(INITIAL, steps)
    ensures var s := After(INITIAL, steps);
            && 1 in s.db.rows
            && Exclusive.Holding(s, 0, TheJob(c, retries)) == 1
            && Exclusive.Holding(s, 1, TheJob(c, retries)) == 1
  {
    steps := SelectedAgain(c, retries);
    LaunchIs(After(INITIAL, steps), 1, c, retries);
    steps := Then(steps, Launch(1, true));
  }

  /** When the first node reports a failure before the second one has locked the
      job, the second one hands it out although it is not due: it selected the
      job at time 0 and holds it with a later time. */
  lemma EarlyLaunch(c: Content, retries: nat, result: Result) returns (steps: seq<Step>)
    requires OutcomeOf(retries, result).Retried? && NextDelay(c.retryDelay) > 0
    ensures Feasible(INITIAL, steps)
    ensures Exclusive.Holding(After(INITIAL, steps), 1, Job(1, NextDelay(c.retryDelay), 0, retries - 1, 1, c)) == 1
  {
    steps := SelectedAgain(c, retries);
    steps := Then(steps, Complete(0, TheJob(c, retries), result, 0, true));
    var s := After(INITIAL, steps);
    var job := Job(1, NextDelay(c.retryDelay), 0, retries - 1, 1, c);
    assert s.db.rows[1] == Row(Claimed, None, job.nextTry, 0, job.retry, 1, c);
    assert Grabbable(s.db, {1}) == {1};
    assert (set id | id in {1} :: CopyOf(id, s.db.rows[id])) == {job};
    steps := Then(steps, Launch(1, true));
  }

  /** A job without retries fails while the failure log does not work: it is gone
      and nothing tells of it. */
  lemma Vanished(c: Content, result: Result) returns (steps: seq<Step>)
    requires OutcomeOf(0, result).GaveUp?
    ensures Feasible(INITIAL, steps)
    ensures var s := After(INITIAL, steps);
            && 1 in s.ledger.pushed && 1 !in s.db.rows && s.ledger.log == []
            && 1 in s.ledger.removed && GivenUp(s.ledger.removed[1])
  {
    steps := HandedOut(c, 0);
    steps := Then(steps, Complete(0, TheJob(c, 0), result, 0, false));
    steps := Then(steps, Expunge(0, Verdict(TheJob(c, 0), result, false)));
  }
}
