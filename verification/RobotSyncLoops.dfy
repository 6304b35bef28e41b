/** What the theorems on runs say of the loops themselves: a call of `WakeUpAll` on the
    object, under any schedule of the other threads, begun with every lock held. */
module RobotSyncLoops {
  import opened RobotSync
  import opened RobotSyncBarrier
  import opened RobotSyncExact
  import opened RobotSyncObject
  import opened RobotSyncProgress

  /** Any stretch of such a call, `CleanUp` included. */
  lemma WholeCall(call: Call, trace: seq<Action>)
    requires call.who == Coordinator && call.first == CallWakeUpAll
    requires Shaped(call.start) && AllHeld(call.start) && call.start.waker == Idle
    requires Valid(call.start, trace) && OnlyCall(call, trace)
    ensures CallSoFar(call.start, Exec(call.start, trace))
  {
    var rest := trace[1..];
    forall a | a in rest ensures !a.CallWakeUp? && !a.CallWakeUpAll? {
      var k :| 0 <= k < |rest| && rest[k] == a;
      assert trace[k + 1] == a;
    }
    HeldCall(call.start, rest);
  }

  /** `WakeUpAll` called with every lock held, as it is once every robot is ready: under
      every schedule it does not raise, and if it returns it has released every lock exactly
      once. */
  method WakeUpAllWhenHeld(sync: CRobotSync, env: seq<seq<Action>>) returns (outcome: Outcome)
    requires Inv(sync.View()) && AllHeld(sync.View()) && sync.waker == Idle
    modifies sync
    ensures Inv(sync.View())
    ensures outcome != Raised
    ensures outcome == Returned ==>
      forall r: nat :: r < sync.nRobot ==> sync.robot[r].released == old(sync.robot)[r].released + 1
  {
    ghost var call := Call(sync.View(), Coordinator, CallWakeUpAll);
    ghost var trace;
    outcome, trace := sync.WakeUpAll(env);
    RunInv(call.start, trace);
    WholeCall(call, trace);
  }

  /** The steps of a call's run after its first are no beginnings of calls. */
  lemma RestOfTrace(call: Call, trace: seq<Action>, k: nat)
    requires call.who == Coordinator && OnlyCall(call, trace) && 1 <= k <= |trace|
    ensures NoNewCall(trace[k..])
  {
    forall a | a in trace[k..] ensures !a.CallWakeUp? && !a.CallWakeUpAll? {
      var i :| 0 <= i < |trace| - k && trace[k..][i] == a;
      assert trace[k + i] == a;
    }
  }

  /** `WakeUpAll` called after `CleanUp`: a schedule of n+3 lines or more does not cut it off;
      so it returns or raises, and with every lock held it returns. */
  method WakeUpAllAfterCleanUp(sync: CRobotSync, env: seq<seq<Action>>) returns (outcome: Outcome)
    requires Inv(sync.View()) && !sync.nIsRun && sync.waker == Idle && |env| >= sync.nRobot + 3
    modifies sync
    ensures outcome != CutOff
    ensures old(AllHeld(sync.View())) ==> outcome == Returned
  {
    ghost var call := Call(sync.View(), Coordinator, CallWakeUpAll);
    ghost var trace;
    outcome, trace := sync.WakeUpAll(env);
    StepInv(call.start, CallWakeUpAll);
    RestOfTrace(call, trace, 1);
    CleanUpEndsCall(Step(call.start, CallWakeUpAll), trace[1..]);
    if AllHeld(call.start) {
      WholeCall(call, trace);
    }
  }

  /** `CleanUp` during the call: at most 3n+3 of its lines come after it. */
  method WakeUpAllCleanedUp(sync: CRobotSync, env: seq<seq<Action>>)
    returns (outcome: Outcome, ghost trace: seq<Action>)
    requires Inv(sync.View()) && sync.waker == Idle
    modifies sync
    ensures forall k :: 0 <= k < |trace| && trace[k] == CleanUp ==>
      CoordinatorLines(trace[k + 1..]) <= 3 * sync.nRobot + 3
    ensures outcome == CutOff ==> CoordinatorLines(trace) == |env|
  {
    ghost var call := Call(sync.View(), Coordinator, CallWakeUpAll);
    outcome, trace := sync.WakeUpAll(env);
    forall k | 0 <= k < |trace| && trace[k] == CleanUp
      ensures CoordinatorLines(trace[k + 1..]) <= 3 * sync.nRobot + 3
    {
      LinesAfterCleanUp(call, trace, k);
    }
  }

  lemma {:induction false} ValidSplit(s: State, a: seq<Action>, b: seq<Action>)
    requires Shaped(s) && Valid(s, a + b)
    ensures Valid(s, a) && Valid(Exec(s, a), b) && Exec(s, a + b) == Exec(Exec(s, a), b)
    decreases |a|
  {
    if a == [] {
      assert a + b == b;
    } else {
      assert (a + b)[1..] == a[1..] + b;
      ValidSplit(Step(s, a[0]), a[1..], b);
    }
  }

  lemma LinesAfterCleanUp(call: Call, trace: seq<Action>, k: nat)
    requires Inv(call.start) && call.start.waker == Idle && call.who == Coordinator && call.first == CallWakeUpAll
    requires Valid(call.start, trace) && OnlyCall(call, trace) && k < |trace| && trace[k] == CleanUp
    ensures CoordinatorLines(trace[k + 1..]) <= 3 * call.start.n + 3
  {
    var before, after := trace[..k + 1], trace[k + 1..];
    assert trace == before + after;
    ValidSplit(call.start, before, after);
    RunInv(call.start, before);
    RunningUntilCleanUp(call.start, before);
    assert before[k] == CleanUp;
    RestOfTrace(call, trace, k + 1);
    RestOfTrace(call, before, 1);
    StaysInCall(Step(call.start, CallWakeUpAll), before[1..]);
    CleanUpEndsCall(Exec(call.start, before), after);
  }

  /** A call of `WakeUpAll` stays one until it ends. */
  lemma {:induction false} StaysInCall(s: State, acts: seq<Action>)
    requires Shaped(s) && (s.waker.Idle? || Polling(s.waker) || s.waker.AllRelease?)
    requires Valid(s, acts) && NoNewCall(acts)
    ensures var w := Exec(s, acts).waker; w.Idle? || Polling(w) || w.AllRelease?
    decreases |acts|
  {
    if acts != [] {
      assert !acts[0].CallWakeUp?;
      StaysInCall(Step(s, acts[0]), acts[1..]);
    }
  }

  /** `WakeUp(r)` called with the flag of robot `r` down waits for it: unless robot `r` enters
      `Wait`, or `CleanUp` is called, it is cut off still polling and has released nothing. */
  method WakeUpWaitsForFlag(sync: CRobotSync, r: nat, env: seq<seq<Action>>)
    returns (outcome: Outcome, ghost trace: seq<Action>)
    requires Inv(sync.View()) && sync.nIsRun && sync.waker == Idle && r < sync.nRobot && !sync.bIsWait[r]
    modifies sync
    ensures CleanUp !in trace && Enter(r) !in trace ==>
      && outcome == CutOff && |sync.robot| == sync.nRobot
      && forall q: nat :: q < sync.nRobot ==> sync.robot[q].released == old(sync.robot)[q].released
  {
    ghost var call := Call(sync.View(), Coordinator, CallWakeUp(r));
    outcome, trace := sync.WakeUp(r, env);
    if CleanUp !in trace && Enter(r) !in trace {
      assert forall a :: a in trace[1..] ==> a in trace;
      WakeUpWaits(Step(call.start, CallWakeUp(r)), r, trace[1..]);
    }
  }

  /** `WakeUp(r)` for a blocked robot returns within three lines, having released its lock
      once and no other. */
  method WakeUpReleasesOne(sync: CRobotSync, r: nat, env: seq<seq<Action>>)
    returns (outcome: Outcome, ghost trace: seq<Action>)
    requires Inv(sync.View()) && sync.nIsRun && sync.waker == Idle && r < sync.nRobot && |env| >= 3
    requires sync.robot[r].pc == AtAcquire && sync.lock[r]
    modifies sync
    ensures CleanUp !in trace ==>
      && outcome == Returned && |sync.robot| == sync.nRobot
      && forall q: nat :: q < sync.nRobot ==>
        sync.robot[q].released == old(sync.robot)[q].released + (if q == r then 1 else 0)
  {
    ghost var call := Call(sync.View(), Coordinator, CallWakeUp(r));
    assert RobotOk(sync.View(), r);
    outcome, trace := sync.WakeUp(r, env);
    if CleanUp !in trace {
      assert forall a :: a in trace[1..] ==> a in trace;
      RestOfTrace(call, trace, 1);
      WakeUpWakes(Step(call.start, CallWakeUp(r)), r, trace[1..]);
    }
  }

  /** `WakeUp` called after `CleanUp` returns at once and has released nothing. */
  method WakeUpAfterCleanUp(sync: CRobotSync, r: nat, env: seq<seq<Action>>) returns (outcome: Outcome)
    requires Inv(sync.View()) && !sync.nIsRun && sync.waker == Idle && |env| >= 1
    modifies sync
    ensures outcome == Returned && |sync.robot| == sync.nRobot
    ensures forall q: nat :: q < sync.nRobot ==> sync.robot[q].released == old(sync.robot)[q].released
  {
    ghost var call := Call(sync.View(), Coordinator, CallWakeUp(r));
    ghost var trace;
    outcome, trace := sync.WakeUp(r, env);
    RestOfTrace(call, trace, 1);
    CleanUpEndsWakeUp(Step(call.start, CallWakeUp(r)), trace[1..]);
  }

  /** `WakeUpAll` called with the flag of some robot down waits for it likewise. */
  method WakeUpAllWaitsForFlag(sync: CRobotSync, r: nat, env: seq<seq<Action>>)
    returns (outcome: Outcome, ghost trace: seq<Action>)
    requires Inv(sync.View()) && sync.nIsRun && sync.waker == Idle && r < sync.nRobot && !sync.bIsWait[r]
    modifies sync
    ensures CleanUp !in trace && Enter(r) !in trace ==>
      && outcome == CutOff && |sync.robot| == sync.nRobot
      && forall q: nat :: q < sync.nRobot ==> sync.robot[q].released == old(sync.robot)[q].released
  {
    ghost var call := Call(sync.View(), Coordinator, CallWakeUpAll);
    outcome, trace := sync.WakeUpAll(env);
    if CleanUp !in trace && Enter(r) !in trace {
      assert forall a :: a in trace[1..] ==> a in trace;
      StepInv(call.start, CallWakeUpAll);
      WakeUpAllWaits(Step(call.start, CallWakeUpAll), r, trace[1..]);
    }
  }
}
