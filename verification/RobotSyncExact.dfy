/** Exactly when a wake-up cannot raise, and exactly when a call of `WakeUpAll` keeps the
    barrier. Each condition is one on the state in which the call begins, and each failing
    half is shown by a schedule. */
module RobotSyncExact {
  import opened RobotSync
  import opened RobotSyncBarrier

  /** Every lock is held; a caller can ask each with `locked()`. */
  predicate AllHeld(s: State)
    requires Shaped(s)
  {
    forall r: nat :: r < s.n ==> s.locked[r]
  }

  // What some schedule within a call can reach

  ghost predicate Leads(s: State, acts: seq<Action>, t: State)
    requires Shaped(s)
  {
    Valid(s, acts) && (forall a :: a in acts ==> WithinCall(a)) && Exec(s, acts) == t
  }

  ghost predicate CanReach(s: State, t: State)
    requires Shaped(s)
  {
    exists acts :: Leads(s, acts, t)
  }

  lemma Stay(s: State)
    requires Shaped(s)
    ensures CanReach(s, s)
  {
    assert Leads(s, [], s);
  }

  lemma Then(s: State, m: State, t: State)
    requires Shaped(s) && Shaped(m) && CanReach(s, m) && CanReach(m, t)
    ensures CanReach(s, t)
  {
    var a :| Leads(s, a, m);
    var b :| Leads(m, b, t);
    ExecConcat(s, a, b);
    assert Leads(s, a + b, t);
  }

  lemma ThenStep(s: State, m: State, a: Action) returns (t: State)
    requires Shaped(s) && Shaped(m) && CanReach(s, m) && Enabled(m, a) && WithinCall(a)
    ensures t == Step(m, a) && CanReach(s, t)
  {
    t := Step(m, a);
    assert Valid(m, [a]) && Exec(m, [a]) == t;
    assert Leads(m, [a], t);
    Then(s, m, t);
  }

  lemma CallReachesIff(s: State, t: State)
    requires Shaped(s) && s.waker == Idle
    ensures (exists acts :: CallReaches(s, acts, t)) <==> CanReach(Step(s, CallWakeUpAll), t)
  {
    var s1 := Step(s, CallWakeUpAll);
    if CanReach(s1, t) {
      var acts :| Leads(s1, acts, t);
      assert CallReaches(s, acts, t);
    }
    if acts :| CallReaches(s, acts, t) {
      assert Leads(s1, acts, t);
    }
  }

  /** The coordinator polls until all flags are up and is about to release. */
  lemma ReachFirstRelease(s: State) returns (t: State)
    requires Inv(s) && s.run && s.waker == AllTest
    ensures CanReach(s, t) && Inv(t) && AllFlagged(t) && t.waker == AllRelease(0)
    ensures t.(isWait := s.isWait, robot := s.robot, curBit := s.curBit, seen := s.seen, waker := s.waker) == s
    ensures forall r: nat :: r < s.n ==>
      t.robot[r].returned == s.robot[r].returned && t.robot[r].released == s.robot[r].released
  {
    var enters := RaiseFlags(s, s.n);
    var m := Exec(s, enters);
    assert Leads(s, enters, m);
    t := Poll(s, m);
  }

  lemma Poll(s: State, m: State) returns (t: State)
    requires Shaped(s) && CanReach(s, m) && Inv(m) && m.run && AllFlagged(m) && m.waker == AllTest
    ensures CanReach(s, t) && Inv(t) && t.waker == AllRelease(0)
    ensures t.(curBit := m.curBit, seen := m.seen, waker := m.waker) == m
  {
    PollAlone(m, Rank(m));
    t := Exec(m, Lines(Rank(m)));
    RunInv(m, Lines(Rank(m)));
    assert Leads(m, Lines(Rank(m)), t);
    Then(s, m, t);
  }

  // Raising

  /** How often the call begun in `s0` has released robot `r` by now. */
  function Released(w: WakerPc, r: nat): nat {
    match w
    case Idle => 1
    case AllRelease(i) => if r < i then 1 else 0
    case _ => 0
  }

  /** A call begun with every lock held: the locks it has still to release are held, each
      one it has passed was released once, and it has counted no error. */
  ghost predicate CallSoFar(s0: State, s: State) {
    && Shaped(s0) && Shaped(s) && s.n == s0.n
    && (s.waker.Idle? || Polling(s.waker) || s.waker.AllRelease?)
    && s.errors == s0.errors && s.rounds == s0.rounds + (if s.waker.Idle? then 1 else 0)
    && (forall r: nat :: r < s.n ==> s.robot[r].released == s0.robot[r].released + Released(s.waker, r))
    && forall r: nat :: r < s.n && !s.waker.Idle? && Released(s.waker, r) == 0 ==> s.locked[r]
  }

  lemma CallGoesOn(s0: State, s: State, a: Action)
    requires CallSoFar(s0, s) && Enabled(s, a) && !a.CallWakeUp? && !a.CallWakeUpAll?
    ensures CallSoFar(s0, Step(s, a))
  {
    if a == Waker && s.waker.AllRelease? && s.waker.i < s.n {
      assert s.locked[s.waker.i];
    }
  }

  lemma {:induction false} CallRuns(s0: State, s: State, acts: seq<Action>)
    requires CallSoFar(s0, s) && Valid(s, acts)
    requires forall a :: a in acts ==> !a.CallWakeUp? && !a.CallWakeUpAll?
    ensures CallSoFar(s0, Exec(s, acts))
    decreases |acts|
  {
    if acts != [] {
      CallGoesOn(s0, s, acts[0]);
      CallRuns(s0, Step(s, acts[0]), acts[1..]);
    }
  }

  /** A call begun with every lock held, in every interleaving, `CleanUp` at any time
      included: it raises at no line, and releases every lock exactly once. */
  lemma HeldCall(s: State, acts: seq<Action>)
    requires Shaped(s) && AllHeld(s) && s.waker == Idle
    requires Valid(Step(s, CallWakeUpAll), acts)
    requires forall a :: a in acts ==> !a.CallWakeUp? && !a.CallWakeUpAll?
    ensures CallSoFar(s, Exec(Step(s, CallWakeUpAll), acts))
  {
    CallRuns(s, Step(s, CallWakeUpAll), acts);
  }

  /** The releases go on until one hits a free lock. */
  lemma {:induction false} ReleaseUntilFree(s: State, m: State, q: nat) returns (t: State)
    requires Shaped(s) && Shaped(m) && CanReach(s, m)
    requires m.waker.AllRelease? && m.waker.i <= q < m.n && !m.locked[q]
    ensures CanReach(s, t) && t.errors == m.errors + 1
    decreases q - m.waker.i
  {
    t := ThenStep(s, m, Waker);
    if m.locked[m.waker.i] {
      t := ReleaseUntilFree(s, t, q);
    }
  }

  /** Exactly when a call of `WakeUpAll` cannot raise, whatever the other threads do short
      of `CleanUp`: every lock is held when it begins. */
  lemma NeverRaisesIff(s: State)
    requires Inv(s) && s.run && s.waker == Idle
    ensures (forall acts, t :: CallReaches(s, acts, t) ==> t.errors == s.errors) <==> AllHeld(s)
  {
    var s1 := Step(s, CallWakeUpAll);
    if AllHeld(s) {
      forall acts, t | CallReaches(s, acts, t) ensures t.errors == s.errors {
        HeldCall(s, acts);
      }
    } else {
      var q: nat :| q < s.n && !s.locked[q];
      StepInv(s, CallWakeUpAll);
      var m := ReachFirstRelease(s1);
      var t := ReleaseUntilFree(s1, m, q);
      CallReachesIff(s, t);
    }
  }

  /** A lock can be held by a robot that has not returned, so this asks for less than
      `SimultaneityIff` does. */
  lemma HeldIsNotReady()
    ensures exists acts :: Valid(Init(1), acts) && AllHeld(Exec(Init(1), acts)) && !Ready(Exec(Init(1), acts))
  {
    var s := Init(1);
    var acts := Extend(s, [], Enter(0));
    acts := Extend(s, acts, Acquire(0));
    assert !ReadyRobot(Exec(s, acts), 0);
  }

  lemma ReadyIsHeld(s: State)
    requires Inv(s) && Ready(s)
    ensures AllHeld(s)
  {
    forall r: nat | r < s.n ensures s.locked[r] {
      assert ReadyRobot(s, r) && RobotOk(s, r);
    }
  }

  // The same for one robot

  /** Lines of a call of `WakeUp(r)` begun with lock `r` held. */
  predicate OneSoFar(s0: State, s: State, r: nat) {
    && Shaped(s) && s.n == s0.n && r < s.n && s.errors == s0.errors
    && (s.waker.Idle? || s.waker == OneTest(r) || s.waker == OneCheck(r) || s.waker == OneRelease(r))
    && (!s.waker.Idle? ==> s.locked[r])
  }

  lemma {:induction false} OneRuns(s0: State, s: State, r: nat, acts: seq<Action>)
    requires OneSoFar(s0, s, r) && Valid(s, acts) && forall a :: a in acts ==> WithinCall(a)
    ensures OneSoFar(s0, Exec(s, acts), r)
    decreases |acts|
  {
    if acts != [] {
      assert WithinCall(acts[0]);
      OneRuns(s0, Step(s, acts[0]), r, acts[1..]);
    }
  }

  lemma ReachOneError(s: State, r: nat) returns (t: State)
    requires Inv(s) && s.run && s.waker == OneTest(r) && (r >= s.n || !s.locked[r])
    ensures CanReach(s, t) && t.errors == s.errors + 1
  {
    Stay(s);
    t := s;
    if r < s.n {
      assert RobotOk(s, r);
      if s.robot[r].pc == Outside { t := ThenStep(s, t, Enter(r)); }
    }
    t := ThenStep(s, t, Waker);
    t := ThenStep(s, t, Waker);
    if r < s.n {
      t := ThenStep(s, t, Waker);
    }
  }

  /** Exactly when a call of `WakeUp(r)` cannot raise: there is a robot `r`, and its lock is
      held when the call begins. */
  lemma WakeUpNeverRaisesIff(s: State, r: nat)
    requires Inv(s) && s.run && s.waker == Idle
    ensures (forall t :: CanReach(Step(s, CallWakeUp(r)), t) ==> t.errors == s.errors)
      <==> r < s.n && s.locked[r]
  {
    var s1 := Step(s, CallWakeUp(r));
    if r < s.n && s.locked[r] {
      forall t | CanReach(s1, t) ensures t.errors == s.errors {
        var acts :| Leads(s1, acts, t);
        OneRuns(s, s1, r, acts);
      }
    } else {
      StepInv(s, CallWakeUp(r));
      var t := ReachOneError(s1, r);
    }
  }

  // The barrier

  /** Some robot has returned from a `Wait`, not its free first one, that another has not
      entered. */
  predicate Overtaken(t: State, r: nat, q: nat)
    requires Shaped(t) && r < t.n && q < t.n
  {
    t.robot[r].returned >= 2 && t.robot[q].entered < t.robot[r].returned
  }

  ghost predicate BarrierBroken(t: State)
    requires Shaped(t)
  {
    exists r: nat, q: nat :: r < t.n && q < t.n && Overtaken(t, r, q)
  }

  lemma NotBroken(t: State)
    requires BarrierInv(t)
    ensures !BarrierBroken(t)
  {
    forall r: nat, q: nat | r < t.n && q < t.n ensures !Overtaken(t, r, q) {
      BarrierHolds(t, r, q, t.robot[r].returned);
    }
  }

  lemma {:induction false} BarrierWithin(s: State, acts: seq<Action>)
    requires BarrierInv(s) && Valid(s, acts) && forall a :: a in acts ==> WithinCall(a)
    ensures BarrierInv(Exec(s, acts))
    decreases |acts|
  {
    if acts != [] {
      BarrierStep(s, acts[0]);
      BarrierWithin(Step(s, acts[0]), acts[1..]);
    }
  }

  /** Every robot below `k` that is about to acquire a free lock does. */
  lemma {:induction false} TakeFreeLocks(s: State, m: State, k: nat) returns (t: State)
    requires Shaped(s) && CanReach(s, m) && Inv(m) && AllFlagged(m) && k <= m.n
    requires forall r: nat :: r < m.n ==> m.robot[r].returned >= m.robot[r].released
    ensures CanReach(s, t) && Inv(t) && t.(locked := m.locked, robot := m.robot) == m
    ensures forall r: nat :: r < k ==> t.locked[r]
    ensures forall r: nat :: k <= r < m.n ==> t.locked[r] == m.locked[r] && t.robot[r] == m.robot[r]
    ensures forall r: nat :: r < m.n ==>
      && t.robot[r].entered == m.robot[r].entered && t.robot[r].returned == m.robot[r].returned
      && t.robot[r].released == m.robot[r].released
    decreases k
  {
    t := m;
    if k > 0 {
      t := TakeFreeLocks(s, m, k - 1);
      assert RobotOk(t, k - 1);
      if !t.locked[k - 1] {
        StepInv(t, Acquire(k - 1));
        t := ThenStep(s, t, Acquire(k - 1));
      }
    }
  }

  /** All releases that are left. */
  lemma {:induction false} ReleaseRest(s: State, m: State) returns (t: State)
    requires Shaped(s) && CanReach(s, m) && Inv(m) && m.waker.AllRelease?
    requires forall r: nat :: m.waker.i <= r < m.n ==> m.locked[r]
    ensures CanReach(s, t) && Inv(t) && t.isWait == m.isWait
    ensures forall r: nat :: r < m.n && r < m.waker.i ==> t.locked[r] == m.locked[r] && t.robot[r] == m.robot[r]
    ensures forall r: nat :: m.waker.i <= r < m.n ==>
      !t.locked[r] && t.robot[r] == m.robot[r].(released := m.robot[r].released + 1)
    decreases m.n - m.waker.i
  {
    t := m;
    if m.waker.i < m.n {
      StepInv(m, Waker);
      var next := ThenStep(s, m, Waker);
      t := ReleaseRest(s, next);
    }
  }

  /** A robot inside `Wait` whose lock was just released goes on until it has returned once
      more than it has been released. */
  lemma Overtake(s: State, m: State, r: nat) returns (t: State)
    requires Shaped(s) && CanReach(s, m) && Inv(m) && r < m.n && !m.locked[r] && m.robot[r].pc != Outside
    ensures CanReach(s, t) && Shaped(t) && t.n == m.n
    ensures t.robot[r].returned == m.robot[r].released + 1
    ensures forall q: nat :: q < m.n && q != r ==> t.robot[q] == m.robot[q]
  {
    assert RobotOk(m, r);
    t := m;
    if t.robot[r].pc == AtClear {
      t := ThenStep(s, t, Leave(r));
      t := ThenStep(s, t, Enter(r));
    }
    t := ThenStep(s, t, Acquire(r));
    t := ThenStep(s, t, Leave(r));
  }

  /** Between calls a robot that is not ready has returned as often as it was released. */
  lemma NotReadyBehind(s: State, q: nat)
    requires BarrierInv(s) && s.waker == Idle && q < s.n && !ReadyRobot(s, q)
    ensures s.robot[q].returned == s.robot[q].released == s.rounds
  {
    assert RobotOk(s, q) && CountsOk(s, q);
  }

  /** The schedule in which robot `r` overtakes robot `q`, which is not ready. */
  lemma ReachBroken(s: State, r: nat, q: nat) returns (t: State)
    requires BarrierInv(s) && s.waker == Idle && r < s.n && q < s.n && r != q && !ReadyRobot(s, q)
    ensures CanReach(Step(s, CallWakeUpAll), t) && Shaped(t) && t.n == s.n && Overtaken(t, r, q)
  {
    var s1 := Step(s, CallWakeUpAll);
    StepInv(s, CallWakeUpAll);
    NotReadyBehind(s, q);
    forall p: nat | p < s.n
      ensures s1.robot[p].returned >= s1.robot[p].released == s.rounds
    {
      assert CountsOk(s, p);
    }
    var m := ReachFirstRelease(s1);
    m := TakeFreeLocks(s1, m, m.n);
    assert RobotOk(m, q) && RobotOk(m, r);
    m := ReleaseRest(s1, m);
    assert RobotOk(m, r) && RobotOk(m, q);
    t := Overtake(s1, m, r);
  }

  /** Exactly when a call of `WakeUpAll` keeps the barrier for two robots or more, between
      disciplined calls: it begins with every robot past its first `Wait` and back from all
      releases. (One robot has nobody to overtake.) */
  lemma KeepsBarrierIff(s: State)
    requires BarrierInv(s) && s.waker == Idle && s.n >= 2
    ensures (forall acts, t :: CallReaches(s, acts, t) ==> !BarrierBroken(t)) <==> Ready(s)
  {
    if Ready(s) {
      forall acts, t | CallReaches(s, acts, t) ensures !BarrierBroken(t) {
        BarrierStep(s, CallWakeUpAll);
        BarrierWithin(Step(s, CallWakeUpAll), acts);
        NotBroken(t);
      }
    } else {
      var q: nat :| q < s.n && !ReadyRobot(s, q);
      var r: nat := if q == 0 then 1 else 0;
      var t := ReachBroken(s, r, q);
      CallReachesIff(s, t);
      assert BarrierBroken(t);
    }
  }

  /** So after every disciplined run, the discipline is exactly what the next call needs. */
  lemma NextCallKeepsBarrierIff(n: nat, run: seq<Action>)
    requires n >= 2 && Valid(Init(n), run) && DisciplinedRun(Init(n), run) && Exec(Init(n), run).waker == Idle
    ensures var s := Exec(Init(n), run);
      (forall acts, t :: CallReaches(s, acts, t) ==> !BarrierBroken(t)) <==> Ready(s)
  {
    BarrierReachable(n, run);
    KeepsBarrierIff(Exec(Init(n), run));
  }

  /** One robot is never overtaken. */
  lemma OneRobotKeepsBarrier(n: nat, acts: seq<Action>)
    requires n <= 1 && Valid(Init(n), acts)
    ensures !BarrierBroken(Exec(Init(n), acts))
  {
    InitInv(n);
    RunInv(Init(n), acts);
    var t := Exec(Init(n), acts);
    forall r: nat, q: nat | r < t.n && q < t.n ensures !Overtaken(t, r, q) {
      assert RobotOk(t, r) && RobotOk(t, q);
    }
  }
}
