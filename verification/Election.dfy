/** Election of the primary node by a MySQL named lock.  Every node runs an
    activator; the lock belongs to a database session and is only ever released
    by the death of that session. */
module Election {
  import opened Jobs

  /** Where the activator of a node stands. */
  datatype Pc =
    | Waiting     // before the next round
    | Asking      // about to ask whether its session holds the lock
    | Deposed     // it does not: about to clear `active`
    | Contending  // in GET_LOCK
    | Activating  // got the lock: recovering orphan jobs
    | Exiting     // told to stop: about to clear `active`
    | Closing     // about to close its connection
    | Ended
    | Crashed

  /** `active` is -1 before the first round, then 0 (backup) or 1 (primary).
      `acquired` is the session of the last successful GET_LOCK. */
  datatype Node = Node(
    pc: Pc, stopped: bool, active: int, session: Option<nat>, acquired: Option<nat>)

  datatype State = State(
    nodes: map<nat, Node>, lock: Option<nat>, live: set<nat>, nextSession: nat)

  datatype Step =
    | Start(n: nat)
    | Begin(n: nat)
    | Connect(n: nat)
    | Ask(n: nat, answered: bool)
    | Clear(n: nat)
    | Grant(n: nat)
    | TimeOut(n: nat)
    | Fail(n: nat, granted: bool, cancelled: bool)
    | Activate(n: nat)
    | Stop(n: nat)
    | Retire(n: nat)
    | Disconnect(n: nat)
    | Lose(n: nat)
    | Crash(n: nat)
    | Die(session: nat)

  const INITIAL := State(map[], None, {}, 1)

  /** GET_LOCK succeeds when nobody else has the lock. */
  predicate Grantable(s: State, n: nat)
    requires n in s.nodes
  {
    && s.nodes[n].session.Some? && s.nodes[n].session.value in s.live
    && (s.lock.None? || s.lock == s.nodes[n].session)
  }

  predicate Enabled(s: State, e: Step) {
    match e
    case Start(n) => n !in s.nodes
    case Die(x) => x in s.live
    case Begin(n) => n in s.nodes && s.nodes[n].pc.Waiting?
    case Connect(n) =>
      n in s.nodes && (s.nodes[n].pc.Asking? || s.nodes[n].pc.Contending?) && s.nodes[n].session.None?
    case Ask(n, _) => n in s.nodes && s.nodes[n].pc.Asking?
    case Clear(n) => n in s.nodes && s.nodes[n].pc.Deposed?
    case Grant(n) => n in s.nodes && s.nodes[n].pc.Contending? && Grantable(s, n)
    case TimeOut(n) =>
      n in s.nodes && s.nodes[n].pc.Contending? && s.lock.Some? && s.lock != s.nodes[n].session
    case Fail(n, granted, cancelled) =>
      && n in s.nodes && s.nodes[n].pc.Contending?
      && (granted ==> Grantable(s, n)) && (cancelled ==> s.nodes[n].stopped)
    case Activate(n) => n in s.nodes && s.nodes[n].pc.Activating?
    case Stop(n) => n in s.nodes
    case Retire(n) => n in s.nodes && s.nodes[n].pc.Exiting?
    case Disconnect(n) => n in s.nodes && s.nodes[n].pc.Closing?
    case Lose(n) => n in s.nodes
    case Crash(n) => n in s.nodes
  }

  /** The answer to `IS_USED_LOCK(...) = CONNECTION_ID()`. */
  predicate HasLock(s: State, n: nat)
    requires n in s.nodes
  {
    s.nodes[n].session.Some? && s.nodes[n].session.value in s.live && s.lock == s.nodes[n].session
  }

  function Do(s: State, e: Step): State
    requires Enabled(s, e)
  {
    match e
    case Start(n) => s.(nodes := s.nodes[n := Node(Waiting, false, -1, None, None)])
    case Die(x) => s.(live := s.live - {x}, lock := if s.lock == Some(x) then None else s.lock)
    case Begin(n) => Put(s, n, s.nodes[n].(pc := if s.nodes[n].stopped then Exiting else Asking))
    case Connect(n) =>
      var t := Put(s, n, s.nodes[n].(session := Some(s.nextSession)));
      t.(live := s.live + {s.nextSession}, nextSession := s.nextSession + 1)
    case Ask(n, answered) =>
      if answered && HasLock(s, n) then Put(s, n, s.nodes[n].(active := 1, pc := Waiting))
      else Put(s, n, s.nodes[n].(pc := Deposed))
    case Clear(n) => Put(s, n, s.nodes[n].(active := 0, pc := Contending))
    case Grant(n) =>
      var x := s.nodes[n].session;
      Put(s, n, s.nodes[n].(pc := Activating, acquired := x)).(lock := x)
    case TimeOut(n) => Put(s, n, s.nodes[n].(pc := Waiting))
    case Fail(n, granted, cancelled) =>
      var node := if cancelled then s.nodes[n].(pc := Exiting)
                  else s.nodes[n].(pc := Waiting, session := None);
      Put(s, n, node).(lock := if granted then s.nodes[n].session else s.lock)
    case Activate(n) => Put(s, n, s.nodes[n].(active := 1, pc := Waiting))
    case Stop(n) => Put(s, n, s.nodes[n].(stopped := true))
    case Retire(n) => Put(s, n, s.nodes[n].(active := 0, pc := Closing))
    case Disconnect(n) => Put(s, n, s.nodes[n].(session := None, pc := Ended))
    case Lose(n) => Put(s, n, s.nodes[n].(session := None))
    case Crash(n) => Put(s, n, s.nodes[n].(pc := Crashed, active := 0, session := None))
  }

  function Put(s: State, n: nat, node: Node): State {
    s.(nodes := s.nodes[n := node])
  }

  // ---------- Invariant ----------

  predicate Uses(node: Node, x: nat) {
    node.session == Some(x) || node.acquired == Some(x)
  }

  predicate HoldsOrDied(s: State, node: Node) {
    node.acquired.Some? && (s.lock == node.acquired || node.acquired.value !in s.live)
  }

  ghost predicate NodeOk(s: State, node: Node) {
    && -1 <= node.active <= 1
    && (node.session.Some? ==> node.session.value < s.nextSession)
    && (node.acquired.Some? ==> node.acquired.value < s.nextSession)
    && (node.active == 1 || node.pc.Activating? ==> HoldsOrDied(s, node))
    && (node.pc.Contending? || node.pc.Closing? || node.pc.Ended? || node.pc.Crashed? ==> node.active == 0)
    && (node.pc.Activating? ==> node.session.None? || node.session == node.acquired)
    && ((node.pc.Waiting? || node.pc.Asking?) && node.session.Some? && s.lock == node.session ==>
          node.active == 1 && node.acquired == node.session)
  }

  /** A node exits only when it was told to, and it closes its session. */
  predicate ExitOk(node: Node) {
    && (node.pc.Ended? || node.pc.Crashed? ==> node.session.None?)
    && (node.pc.Exiting? || node.pc.Closing? || node.pc.Ended? ==> node.stopped)
  }

  lemma StepKeepsExitOk(s: State, e: Step, n: nat)
    requires Enabled(s, e) && n in Do(s, e).nodes && (n in s.nodes ==> ExitOk(s.nodes[n]))
    ensures ExitOk(Do(s, e).nodes[n])
  {
  }

  ghost predicate Inv(s: State) {
    && (forall x | x in s.live :: x < s.nextSession)
    && (s.lock.Some? ==> s.lock.value in s.live)
    && (forall n | n in s.nodes :: NodeOk(s, s.nodes[n]))
    && (forall n | n in s.nodes :: ExitOk(s.nodes[n]))
    && (forall n, m, x | n in s.nodes && m in s.nodes && Uses(s.nodes[n], x) && Uses(s.nodes[m], x) :: n == m)
  }

  lemma StepKeepsInv(s: State, e: Step)
    requires Inv(s) && Enabled(s, e)
    ensures Inv(Do(s, e))
    ensures s.nextSession <= Do(s, e).nextSession
  {
    var t := Do(s, e);
    forall n | n in t.nodes ensures ExitOk(t.nodes[n]) { StepKeepsExitOk(s, e, n); }
    forall n | n in t.nodes ensures NodeOk(t, t.nodes[n]) {
      if !e.Die? && e.n == n {
        OwnNodeOk(s, e);
      } else {
        OtherNodeOk(s, e, n);
      }
    }
    forall n, m, x | n in t.nodes && m in t.nodes && Uses(t.nodes[n], x) && Uses(t.nodes[m], x)
      ensures n == m
    {
      UsedBefore(s, e, n, x);
      UsedBefore(s, e, m, x);
    }
    LockIsLive(s, e);
  }

  lemma OwnNodeOk(s: State, e: Step)
    requires Inv(s) && Enabled(s, e) && !e.Die?
    ensures NodeOk(Do(s, e), Do(s, e).nodes[e.n])
  {
    if e.n in s.nodes { assert NodeOk(s, s.nodes[e.n]); }
    if e.Grant? || e.Fail? {
      LockStepOk(s, e);
    } else {
      PlainStepOk(s, e);
    }
  }

  lemma LockStepOk(s: State, e: Step)
    requires Inv(s) && Enabled(s, e) && (e.Grant? || e.Fail?) && NodeOk(s, s.nodes[e.n])
    ensures NodeOk(Do(s, e), Do(s, e).nodes[e.n])
  {
  }

  lemma PlainStepOk(s: State, e: Step)
    requires Enabled(s, e) && !e.Die? && !e.Grant? && !e.Fail? && (e.n in s.nodes ==> NodeOk(s, s.nodes[e.n]))
    requires s.lock.Some? ==> s.lock.value < s.nextSession
    ensures NodeOk(Do(s, e), Do(s, e).nodes[e.n])
  {
  }

  lemma OtherNodeOk(s: State, e: Step, n: nat)
    requires Inv(s) && Enabled(s, e) && n in s.nodes && (e.Die? || e.n != n)
    ensures NodeOk(Do(s, e), Do(s, e).nodes[n])
  {
    assert NodeOk(s, s.nodes[n]);
    var t := Do(s, e);
    if s.lock != t.lock && t.lock.Some? {
      assert Uses(s.nodes[e.n], t.lock.value);
    }
  }

  lemma UsedBefore(s: State, e: Step, n: nat, x: nat)
    requires Enabled(s, e) && n in Do(s, e).nodes && Uses(Do(s, e).nodes[n], x)
    ensures (n in s.nodes && Uses(s.nodes[n], x)) || (e == Connect(n) && x == s.nextSession)
  {
  }

  lemma LockIsLive(s: State, e: Step)
    requires Inv(s) && Enabled(s, e)
    ensures Do(s, e).lock.Some? ==> Do(s, e).lock.value in Do(s, e).live
    ensures forall x | x in Do(s, e).live :: x < Do(s, e).nextSession
  {
  }

  /** A session opened for another purpose takes an id like any other. */
  lemma ConnectElsewhere(s: State)
    requires Inv(s)
    ensures Inv(s.(live := s.live + {s.nextSession}, nextSession := s.nextSession + 1))
  {
    var t := s.(live := s.live + {s.nextSession}, nextSession := s.nextSession + 1);
    assert forall n | n in s.nodes :: NodeOk(s, s.nodes[n]);
    assert forall n | n in t.nodes :: NodeOk(t, t.nodes[n]);
  }

  // ---------- Single primary ----------

  ghost predicate LivePrimary(s: State, n: nat) {
    n in s.nodes && s.nodes[n].active == 1 && s.nodes[n].acquired.Some? && s.nodes[n].acquired.value in s.live
  }

  /** An active node whose acquiring session is alive holds the lock, so there
      is at most one. */
  lemma SinglePrimary(s: State, n: nat, m: nat)
    requires Inv(s) && LivePrimary(s, n) && LivePrimary(s, m)
    ensures n == m && s.lock == s.nodes[n].acquired
  {
    assert Uses(s.nodes[n], s.lock.value) && Uses(s.nodes[m], s.lock.value);
  }

  /** A node turns active only by finishing a recovery: asking for the lock
      never activates anything that was not active before. */
  lemma OnlyRecoveryActivates(s: State, e: Step, n: nat)
    requires Inv(s) && Enabled(s, e) && n in Do(s, e).nodes && Do(s, e).nodes[n].active == 1
    ensures (n in s.nodes && s.nodes[n].active == 1) || e == Activate(n)
  {
    assert n in s.nodes ==> NodeOk(s, s.nodes[n]);
  }

  /** The lock changes hands only after the death of the session that had it,
      so a node still active then has lost its own session. */
  lemma HandOver(s: State, e: Step, n: nat, m: nat)
    requires Inv(s) && Enabled(s, e) && e == Grant(m) && n != m
    requires n in s.nodes && s.nodes[n].active == 1
    ensures s.nodes[n].acquired.Some? && s.nodes[n].acquired.value !in s.live
  {
    assert NodeOk(s, s.nodes[n]);
    if s.lock == s.nodes[n].acquired {
      assert Uses(s.nodes[n], s.lock.value) && Uses(s.nodes[m], s.lock.value);
    }
  }

  /** A node gives up its session of its own accord only when it is inactive:
      before contending again, and when it has been told to stop. */
  lemma InactiveBeforeRelease(s: State, e: Step, n: nat)
    requires Inv(s) && Enabled(s, e) && n in s.nodes
    requires s.nodes[n].session.Some? && Do(s, e).nodes[n].session.None?
    ensures e == Lose(n) || e == Crash(n) || s.nodes[n].active == 0
  {
    assert NodeOk(s, s.nodes[n]);
  }

  /** The lock goes away only by the death of the session that holds it. */
  lemma ReleasedByDeath(s: State, e: Step)
    requires Enabled(s, e) && s.lock.Some? && Do(s, e).lock != s.lock
    ensures e == Die(s.lock.value)
  {
  }

  // ---------- Staying primary ----------

  /** A primary stops being one in three ways only: its activator found that its
      session does not hold the lock, or was told to stop, or the process died. */
  lemma DemotedBy(s: State, e: Step, n: nat)
    requires Inv(s) && Enabled(s, e) && n in s.nodes
    requires s.nodes[n].active == 1 && Do(s, e).nodes[n].active != 1
    ensures || (e == Clear(n) && s.nodes[n].pc.Deposed?)
            || (e == Retire(n) && s.nodes[n].stopped)
            || e == Crash(n)
  {
    assert NodeOk(s, s.nodes[n]) && ExitOk(s.nodes[n]);
  }

  /** It finds so only if it got no answer, or if it has no live session, or if the
      lock is not its own. */
  lemma DeposedBy(s: State, e: Step, n: nat)
    requires Enabled(s, e) && n in s.nodes
    requires !s.nodes[n].pc.Deposed? && Do(s, e).nodes[n].pc.Deposed?
    ensures e.Ask? && e.n == n
    ensures || !e.answered
            || s.nodes[n].session.None?
            || s.nodes[n].session.value !in s.live
            || s.lock != s.nodes[n].session
  {
  }

  // ---------- Stopping ----------

  predicate Feasible(s: State, steps: seq<Step>)
    decreases |steps|
  {
    steps == [] || (Enabled(s, steps[0]) && Feasible(Do(s, steps[0]), steps[1..]))
  }

  function After(s: State, steps: seq<Step>): State
    requires Feasible(s, steps)
    decreases |steps|
  {
    if steps == [] then s else After(Do(s, steps[0]), steps[1..])
  }

  /** A step by which the activator of node `n` gets on; opening a connection is
      part of the query that needs it. */
  predicate IsOwn(e: Step, n: nat) {
    match e
    case Begin(m) => m == n
    case Ask(m, _) => m == n
    case Clear(m) => m == n
    case Grant(m) => m == n
    case TimeOut(m) => m == n
    case Fail(m, _, _) => m == n
    case Activate(m) => m == n
    case Retire(m) => m == n
    case Disconnect(m) => m == n
    case _ => false
  }

  function OwnSteps(steps: seq<Step>, n: nat): nat
    decreases |steps|
  {
    if steps == [] then 0 else OwnSteps(steps[1..], n) + if IsOwn(steps[0], n) then 1 else 0
  }

  /** How many steps a node that was told to stop takes at most. */
  function StopDistance(pc: Pc): nat {
    match pc
    case Asking => 7
    case Deposed => 6
    case Contending => 5
    case Activating => 4
    case Waiting => 3
    case Exiting => 2
    case Closing => 1
    case Ended => 0
    case Crashed => 0
  }

  lemma StopStep(s: State, e: Step, n: nat)
    requires Enabled(s, e) && n in s.nodes && s.nodes[n].stopped
    ensures n in Do(s, e).nodes && Do(s, e).nodes[n].stopped
    ensures StopDistance(Do(s, e).nodes[n].pc) + (if IsOwn(e, n) then 1 else 0) <= StopDistance(s.nodes[n].pc)
  {
  }

  lemma {:induction false} StopIsBounded(s: State, steps: seq<Step>, n: nat)
    requires Feasible(s, steps) && n in s.nodes && s.nodes[n].stopped
    ensures n in After(s, steps).nodes && After(s, steps).nodes[n].stopped
    ensures OwnSteps(steps, n) + StopDistance(After(s, steps).nodes[n].pc) <= StopDistance(s.nodes[n].pc)
    decreases |steps|
  {
    if steps != [] {
      StopStep(s, steps[0], n);
      StopIsBounded(Do(s, steps[0]), steps[1..], n);
    }
  }

  lemma {:induction false} RunKeepsInv(s: State, steps: seq<Step>)
    requires Inv(s) && Feasible(s, steps)
    ensures Inv(After(s, steps))
    decreases |steps|
  {
    if steps != [] {
      StepKeepsInv(s, steps[0]);
      RunKeepsInv(Do(s, steps[0]), steps[1..]);
    }
  }

  /** A node that was told to stop gets on by at most seven steps in any run, and it
      is through with them exactly when it has ended or crashed; then it is not
      active and has no session. */
  lemma StopEnds(s: State, steps: seq<Step>, n: nat)
    requires Inv(s) && Feasible(s, steps) && n in s.nodes && s.nodes[n].stopped
    ensures OwnSteps(steps, n) <= 7 && n in After(s, steps).nodes
    ensures var t := After(s, steps);
            var node := t.nodes[n];
            && ((forall e | IsOwn(e, n) :: !Enabled(t, e)) <==> node.pc.Ended? || node.pc.Crashed?)
            && (node.pc.Ended? || node.pc.Crashed? ==> node.active == 0 && node.session.None?)
  {
    StopIsBounded(s, steps, n);
    RunKeepsInv(s, steps);
    var t := After(s, steps);
    assert NodeOk(t, t.nodes[n]) && ExitOk(t.nodes[n]);
    if !t.nodes[n].pc.Ended? && !t.nodes[n].pc.Crashed? {
      var e := NextOwn(t, n);
    }
  }

  /** In particular after it is told so, wherever it stands. */
  lemma StopTakesEffect(s: State, n: nat, steps: seq<Step>)
    requires Inv(s) && Enabled(s, Stop(n)) && Feasible(Do(s, Stop(n)), steps)
    ensures OwnSteps(steps, n) <= 7 && n in After(Do(s, Stop(n)), steps).nodes
    ensures var t := After(Do(s, Stop(n)), steps);
            (forall e | IsOwn(e, n) :: !Enabled(t, e)) ==> t.nodes[n].active == 0 && t.nodes[n].session.None?
  {
    StepKeepsInv(s, Stop(n));
    StopEnds(Do(s, Stop(n)), steps, n);
  }

  lemma NextOwn(s: State, n: nat) returns (e: Step)
    requires n in s.nodes && !s.nodes[n].pc.Ended? && !s.nodes[n].pc.Crashed?
    ensures IsOwn(e, n) && Enabled(s, e)
  {
    match s.nodes[n].pc
    case Waiting => return Begin(n);
    case Asking => return Ask(n, false);
    case Deposed => return Clear(n);
    case Contending => return Fail(n, false, false);
    case Activating => return Activate(n);
    case Exiting => return Retire(n);
    case Closing => return Disconnect(n);
  }

  /** A node that was told to stop and is not in the middle of a round starts no
      other: it never asks for the lock, gets it or turns active again. */
  lemma {:induction false} NoRoundAfterStop(s: State, steps: seq<Step>, n: nat)
    requires Feasible(s, steps) && n in s.nodes && s.nodes[n].stopped && StopDistance(s.nodes[n].pc) <= 3
    ensures Grant(n) !in steps && Activate(n) !in steps
    ensures n in After(s, steps).nodes
    ensures s.nodes[n].active != 1 ==> After(s, steps).nodes[n].active != 1
    decreases |steps|
  {
    if steps != [] {
      StopStep(s, steps[0], n);
      NoRoundAfterStop(Do(s, steps[0]), steps[1..], n);
    }
  }
}
