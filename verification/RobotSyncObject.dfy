/** The object itself, with its fields and its polling loops. Its methods run against a
    schedule: `env[t]` lists the lines other threads try to run before this thread's
    t-th line, and a call still running when the schedule ends is cut off there. Each
    method is shown to be a run of the step system, line for line, so everything proved
    of runs holds of the loops under every schedule. */
module RobotSyncObject {
  import opened Bits
  import opened RobotSync

  datatype Outcome = Returned | Raised | CutOff

  datatype Thread = Coordinator | Waiter(r: nat)

  predicate Runs(who: Thread, a: Action) {
    match who
    case Coordinator => a.CallWakeUp? || a.CallWakeUpAll? || a.Waker?
    case Waiter(r) => a == Enter(r) || a == Acquire(r) || a == Leave(r)
  }

  predicate Begins(who: Thread, a: Action) {
    match who
    case Coordinator => a.CallWakeUp? || a.CallWakeUpAll?
    case Waiter(r) => a == Enter(r)
  }

  /** A call in progress: the state it began in, its thread, and its first line. */
  datatype Call = Call(start: State, who: Thread, first: Action)

  ghost predicate OnlyCall(call: Call, trace: seq<Action>) {
    trace != [] && trace[0] == call.first && forall k :: 1 <= k < |trace| ==> !Begins(call.who, trace[k])
  }

  /** The first line of a call. */
  lemma Begin(call: Call) returns (trace: seq<Action>)
    requires Shaped(call.start) && Enabled(call.start, call.first)
    ensures trace == [call.first] && OnlyCall(call, trace)
    ensures Valid(call.start, trace) && Exec(call.start, trace) == Step(call.start, call.first)
    ensures CoordinatorLines(trace) == if call.first == Waker then 1 else 0
  {
    trace := Extend(call.start, [], call.first);
  }

  /** One line more, which begins no other call of this thread. */
  lemma Grow(call: Call, trace: seq<Action>, a: Action) returns (longer: seq<Action>)
    requires Shaped(call.start) && Valid(call.start, trace) && Enabled(Exec(call.start, trace), a)
    requires OnlyCall(call, trace) && !Begins(call.who, a)
    ensures longer == trace + [a] && OnlyCall(call, longer)
    ensures Valid(call.start, longer) && Exec(call.start, longer) == Step(Exec(call.start, trace), a)
    ensures CoordinatorLines(longer) == CoordinatorLines(trace) + (if a == Waker then 1 else 0)
  {
    longer := Extend(call.start, trace, a);
    LinesConcat(trace, [a]);
  }

  /** What other threads cannot change: the coordinator's place and counts, or a waiter's
      place and counts short of the releases of its lock. */
  predicate Kept(who: Thread, s: State, t: State)
    requires Shaped(s) && Shaped(t) && s.n == t.n
  {
    match who
    case Coordinator =>
      t.waker == s.waker && t.curBit == s.curBit && t.seen == s.seen
      && t.rounds == s.rounds && t.errors == s.errors
    case Waiter(r) => r < s.n ==> t.robot[r].(released := s.robot[r].released) == s.robot[r]
  }

  lemma OthersKeep(who: Thread, s: State, a: Action)
    requires Shaped(s) && Enabled(s, a) && !Runs(who, a)
    ensures Kept(who, s, Step(s, a))
  {
  }

  class CRobotSync {
    const nRobot: nat
    var nIsRun: bool
    var nWaitBit: nat
    var nCurBit: nat
    var bIsWait: seq<bool>
    var lock: seq<bool>      // true while held

    // Not in the program: where its threads are, and what happened so far. They are fields
    // because a schedule is played out by what its threads can do next.
    var robot: seq<Robot>
    var waker: WakerPc
    var seen: set<nat>
    var rounds: nat
    var errors: nat

    function View(): State
      reads this
    {
      State(nRobot, nIsRun, nWaitBit, nCurBit, bIsWait, lock, robot, waker, seen, rounds, errors)
    }

    /** The object is where `trace` leads from the state the call began in, and the call
        is the only one its thread has begun since. */
    ghost predicate After(call: Call, trace: seq<Action>)
      reads this
    {
      && Shaped(call.start) && Valid(call.start, trace) && View() == Exec(call.start, trace)
      && OnlyCall(call, trace)
    }

    constructor (r: nat)
      ensures View() == Init(r)
    {
      nRobot := r;
      nIsRun := true;
      nCurBit := 0;
      waker, seen, rounds, errors := Idle, {}, 0, 0;
      robot := seq(r, i => Robot(Outside, 0, 0, 0, 0));
      var bits, flags, locks := 0, [], [];
      for i := 0 to r
        invariant bits == Pow2(i) - 1
        invariant flags == seq(i, _ => false) && locks == seq(i, _ => false)
      {
        locks := locks + [false];
        flags := flags + [false];
        NextOnes(i);
        bits := Or(bits, Pow2(i));
      }
      nWaitBit, bIsWait, lock := bits, flags, locks;
    }

    method CleanUpNow()
      requires Shaped(View())
      modifies this`nIsRun
      ensures View() == Step(old(View()), CleanUp)
    {
      if nIsRun {
        nIsRun := false;
      }
    }

    // The schedule

    method Apply(a: Action)
      requires Shaped(View()) && Enabled(View(), a)
      modifies this
      ensures View() == Step(old(View()), a)
    {
      var t := Step(View(), a);
      nIsRun, nCurBit, bIsWait, lock := t.run, t.curBit, t.isWait, t.locked;
      robot, waker, seen, rounds, errors := t.robot, t.waker, t.seen, t.rounds, t.errors;
    }

    /** Other threads run the lines of `batch` they can, in order; `who` runs none. */
    method Others(who: Thread, batch: seq<Action>, ghost call: Call, ghost trace: seq<Action>)
      returns (ghost longer: seq<Action>)
      requires After(call, trace) && call.who == who
      modifies this
      ensures After(call, longer)
      ensures Kept(call.who, old(View()), View())
      ensures exists extra :: longer == trace + extra && forall a :: a in extra ==> a in batch && !Runs(call.who, a)
      ensures who == Coordinator ==> CoordinatorLines(longer) == CoordinatorLines(trace)
    {
      longer := trace;
      ghost var extra := [];
      for i := 0 to |batch|
        invariant After(call, longer)
        invariant Kept(call.who, old(View()), View())
        invariant who == Coordinator ==> CoordinatorLines(longer) == CoordinatorLines(trace)
        invariant longer == trace + extra && forall a :: a in extra ==> a in batch && !Runs(call.who, a)
      {
        if !Runs(who, batch[i]) && Enabled(View(), batch[i]) {
          longer := Grow(call, longer, batch[i]);
          extra := extra + [batch[i]];
          OthersKeep(who, View(), batch[i]);
          Apply(batch[i]);
        }
      }
    }

    // Wait

    method RaiseFlag(r: nat)
      requires Shaped(View()) && Enabled(View(), Enter(r))
      modifies this
      ensures View() == Step(old(View()), Enter(r))
    {
      bIsWait := bIsWait[r := true];
      robot := robot[r := robot[r].(pc := AtAcquire, entered := robot[r].entered + 1)];
    }

    method TakeLock(r: nat)
      requires Shaped(View()) && Enabled(View(), Acquire(r))
      modifies this
      ensures View() == Step(old(View()), Acquire(r))
    {
      lock := lock[r := true];
      robot := robot[r := robot[r].(pc := AtClear, acquired := robot[r].acquired + 1)];
    }

    method LowerFlag(r: nat)
      requires Shaped(View()) && Enabled(View(), Leave(r))
      modifies this
      ensures View() == Step(old(View()), Leave(r))
    {
      bIsWait := bIsWait[r := false];
      robot := robot[r := robot[r].(pc := Outside, returned := robot[r].returned + 1)];
    }

    /** `self.lock[r].acquire()`, on line 48: blocks for as long as the lock is held. */
    method AcquireLock(r: nat, env: seq<seq<Action>>, ghost call: Call, ghost trace: seq<Action>)
      returns (done: bool, t: nat, ghost longer: seq<Action>)
      requires After(call, trace) && call.who == Waiter(r) && r < nRobot && robot[r].pc == AtAcquire
      modifies this
      ensures After(call, longer) && t <= |env|
      ensures var b := old(robot[r]);
        if done then robot[r] == b.(pc := AtClear, acquired := b.acquired + 1, released := robot[r].released)
        else robot[r] == b.(released := robot[r].released)
    {
      t, longer := 0, trace;
      while true
        invariant After(call, longer) && t <= |env|
        invariant robot[r] == old(robot[r]).(released := robot[r].released)
        decreases |env| - t
      {
        if t == |env| { return false, t, longer; }
        longer := Others(Waiter(r), env[t], call, longer);
        t := t + 1;
        if !lock[r] { break; }
      }
      longer := Grow(call, longer, Acquire(r));
      TakeLock(r);
      done := true;
    }

    method Wait(r: nat, env: seq<seq<Action>>) returns (outcome: Outcome, ghost trace: seq<Action>)
      requires Shaped(View()) && r < nRobot && robot[r].pc == Outside
      modifies this
      ensures After(Call(old(View()), Waiter(r), Enter(r)), trace)
      ensures outcome != Raised
      ensures outcome == Returned ==>
        robot[r].returned == old(robot[r].returned) + 1 && robot[r].acquired == old(robot[r].acquired) + 1
        && robot[r].pc == Outside
      ensures outcome == CutOff ==> robot[r].returned == old(robot[r].returned) && robot[r].pc != Outside
    {
      ghost var call := Call(View(), Waiter(r), Enter(r));
      trace := Begin(call);
      RaiseFlag(r);
      var done, t := true, 0;
      done, t, trace := AcquireLock(r, env, call, trace);
      if !done || t == |env| { return CutOff, trace; }
      trace := Others(Waiter(r), env[t], call, trace);
      trace := Grow(call, trace, Leave(r));
      LowerFlag(r);
      return Returned, trace;
    }

    // The coordinator's lines, each after its turn of the schedule

    /** Nothing but the coordinator's place and what the line itself says has moved. */
    twostate predicate Counts(raised: nat, returned: nat)
      reads this
    {
      errors == old(errors) + raised && rounds == old(rounds) + returned
    }

    /** `while self.nIsRun`, on line 53 or 63. */
    method TestRun(batch: seq<Action>, ghost call: Call, ghost trace: seq<Action>)
      returns (go: bool, ghost longer: seq<Action>)
      requires After(call, trace) && call.who == Coordinator && (waker.OneTest? || waker == AllTest)
      modifies this
      ensures After(call, longer) && Counts(0, 0)
      ensures old(waker).OneTest? ==> waker == if go then OneCheck(old(waker).r) else Idle
      ensures old(waker).AllTest? ==> waker == if go then AllCheck(0) else AllRelease(0)
      ensures CoordinatorLines(longer) == CoordinatorLines(trace) + 1
      ensures go == nIsRun
    {
      longer := Others(Coordinator, batch, call, trace);
      longer := Grow(call, longer, Waker);
      go := nIsRun;
      if go {
        waker := if waker.OneTest? then OneCheck(waker.r) else AllCheck(0);
      } else {
        waker := if waker.OneTest? then Idle else AllRelease(0);
      }
    }

    /** `if True == self.bIsWait[i]`, on line 65. */
    method TestFlag(i: nat, batch: seq<Action>, ghost call: Call, ghost trace: seq<Action>)
      returns (up: bool, ghost longer: seq<Action>)
      requires After(call, trace) && call.who == Coordinator && waker == AllCheck(i) && i < nRobot
      modifies this
      ensures After(call, longer) && Counts(0, 0)
      ensures waker == if up then AllMark(i) else AllCheck(i + 1)
      ensures CoordinatorLines(longer) == CoordinatorLines(trace) + 1
      ensures Shaped(View()) && up == bIsWait[i]
    {
      longer := Others(Coordinator, batch, call, trace);
      longer := Grow(call, longer, Waker);
      up := bIsWait[i];
      if up {
        seen, waker := seen + {i}, AllMark(i);
      } else {
        waker := AllCheck(i + 1);
      }
    }

    /** `self.nCurBit |= 0x1<<i`, on line 66. */
    method Mark(i: nat, batch: seq<Action>, ghost call: Call, ghost trace: seq<Action>)
      returns (ghost longer: seq<Action>)
      requires After(call, trace) && call.who == Coordinator && waker == AllMark(i)
      modifies this
      ensures After(call, longer) && Counts(0, 0)
      ensures waker == AllCheck(i + 1)
      ensures CoordinatorLines(longer) == CoordinatorLines(trace) + 1
      ensures nCurBit == Or(old(nCurBit), Pow2(i))
    {
      longer := Others(Coordinator, batch, call, trace);
      longer := Grow(call, longer, Waker);
      nCurBit := Or(nCurBit, Pow2(i));
      waker := AllCheck(i + 1);
    }

    /** `if self.nWaitBit == self.nCurBit`, on line 67. */
    method Compare(batch: seq<Action>, ghost call: Call, ghost trace: seq<Action>)
      returns (all: bool, ghost longer: seq<Action>)
      requires After(call, trace) && call.who == Coordinator && waker == AllCheck(nRobot)
      modifies this
      ensures After(call, longer) && Counts(0, 0)
      ensures waker == if all then AllRelease(0) else AllTest
      ensures CoordinatorLines(longer) == CoordinatorLines(trace) + 1
      ensures all == (nWaitBit == nCurBit)
    {
      longer := Others(Coordinator, batch, call, trace);
      longer := Grow(call, longer, Waker);
      all := nWaitBit == nCurBit;
      waker := if all then AllRelease(0) else AllTest;
    }

    method DropLock(r: nat, next: WakerPc) returns (ok: bool)
      requires Shaped(View()) && r < nRobot
      modifies this
      ensures ok == old(lock[r]) && View() == Release(old(View()), r, next)
    {
      ok := lock[r];
      if ok {
        lock := lock[r := false];
        robot := robot[r := robot[r].(released := robot[r].released + 1)];
        waker := next;
      } else {
        errors := errors + 1;
        waker := Idle;
      }
    }

    /** `self.lock[r].release()`, on line 55 or 70. */
    method ReleaseLock(r: nat, batch: seq<Action>, ghost call: Call, ghost trace: seq<Action>)
      returns (ok: bool, ghost longer: seq<Action>)
      requires After(call, trace) && call.who == Coordinator && r < nRobot
      requires waker == OneRelease(r) || waker == AllRelease(r)
      modifies this
      ensures After(call, longer) && Counts(if ok then 0 else 1, 0)
      ensures waker == if ok && old(waker).AllRelease? then AllRelease(r + 1) else Idle
      ensures CoordinatorLines(longer) == CoordinatorLines(trace) + 1
    {
      longer := Others(Coordinator, batch, call, trace);
      longer := Grow(call, longer, Waker);
      ok := DropLock(r, if waker.OneRelease? then Idle else AllRelease(r + 1));
    }

    /** `if True == self.bIsWait[r]` in `WakeUp`, on line 54; an `r` out of range raises. */
    method TestOneFlag(r: nat, batch: seq<Action>, ghost call: Call, ghost trace: seq<Action>)
      returns (up: bool, ghost longer: seq<Action>)
      requires After(call, trace) && call.who == Coordinator && waker == OneCheck(r)
      modifies this
      ensures After(call, longer) && Counts(if r < nRobot then 0 else 1, 0)
      ensures Shaped(View()) && up == (r < nRobot && bIsWait[r])
      ensures waker == if up then OneRelease(r) else if r < nRobot then OneTest(r) else Idle
      ensures CoordinatorLines(longer) == CoordinatorLines(trace) + 1
    {
      longer := Others(Coordinator, batch, call, trace);
      longer := Grow(call, longer, Waker);
      if r >= nRobot {
        up, waker, errors := false, Idle, errors + 1;
      } else {
        up := bIsWait[r];
        waker := if up then OneRelease(r) else OneTest(r);
      }
    }

    // The calls

    method WakeUp(r: nat, env: seq<seq<Action>>) returns (outcome: Outcome, ghost trace: seq<Action>)
      requires Shaped(View()) && waker == Idle
      modifies this
      ensures After(Call(old(View()), Coordinator, CallWakeUp(r)), trace)
      ensures outcome == CutOff <==> waker != Idle
      ensures Counts(if outcome == Raised then 1 else 0, 0)
      ensures outcome == CutOff ==> CoordinatorLines(trace) == |env|
    {
      ghost var call := Call(View(), Coordinator, CallWakeUp(r));
      trace := Begin(call);
      waker := OneTest(r);
      var t, go, up, ok := 0, true, false, true;
      while true
        invariant After(call, trace) && t <= |env| && CoordinatorLines(trace) == t
        invariant waker == OneTest(r) && Counts(0, 0)
        decreases |env| - t
      {
        if t == |env| { return CutOff, trace; }
        go, trace := TestRun(env[t], call, trace);
        t := t + 1;
        if !go { return Returned, trace; }
        if t == |env| { return CutOff, trace; }
        up, trace := TestOneFlag(r, env[t], call, trace);
        t := t + 1;
        if r >= nRobot { return Raised, trace; }
        if up { break; }
      }
      if t == |env| { return CutOff, trace; }
      ok, trace := ReleaseLock(r, env[t], call, trace);
      return if ok then Returned else Raised, trace;
    }

    /** One scan of the flags and the comparison after it, lines 64-67. */
    method Scan(env: seq<seq<Action>>, from: nat, ghost call: Call, ghost trace: seq<Action>)
      returns (done: bool, t: nat, ghost longer: seq<Action>)
      requires After(call, trace) && call.who == Coordinator && waker == AllCheck(0) && from <= |env|
      modifies this
      ensures After(call, longer) && Counts(0, 0) && from <= t <= |env|
      ensures if done then waker == AllTest || waker == AllRelease(0) else waker != Idle
      ensures CoordinatorLines(longer) - t == CoordinatorLines(trace) - from
      ensures !done ==> t == |env|
    {
      t, longer := from, trace;
      var up, all := false, false;
      for i := 0 to nRobot
        invariant After(call, longer) && from <= t <= |env|
        invariant CoordinatorLines(longer) - t == CoordinatorLines(trace) - from
        invariant waker == AllCheck(i) && Counts(0, 0)
      {
        if t == |env| { return false, t, longer; }
        up, longer := TestFlag(i, env[t], call, longer);
        t := t + 1;
        if up {
          if t == |env| { return false, t, longer; }
          longer := Mark(i, env[t], call, longer);
          t := t + 1;
        }
      }
      if t == |env| { return false, t, longer; }
      all, longer := Compare(env[t], call, longer);
      t := t + 1;
      done := true;
    }

    /** The releases, lines 69-71; a release of a free lock raises and ends the call. */
    method ReleaseAll(env: seq<seq<Action>>, from: nat, ghost call: Call, ghost trace: seq<Action>)
      returns (outcome: Outcome, ghost longer: seq<Action>)
      requires After(call, trace) && call.who == Coordinator && waker == AllRelease(0) && from <= |env|
      modifies this
      ensures After(call, longer)
      ensures outcome == CutOff <==> waker != Idle
      ensures Counts(if outcome == Raised then 1 else 0, if outcome == Returned then 1 else 0)
      ensures outcome == CutOff ==> CoordinatorLines(longer) - |env| == CoordinatorLines(trace) - from
    {
      longer := trace;
      var t: nat, ok := from, true;
      for i := 0 to nRobot
        invariant After(call, longer) && t <= |env|
        invariant CoordinatorLines(longer) - t == CoordinatorLines(trace) - from
        invariant waker == AllRelease(i) && Counts(0, 0)
      {
        if t == |env| { return CutOff, longer; }
        ok, longer := ReleaseLock(i, env[t], call, longer);
        t := t + 1;
        if !ok { return Raised, longer; }
      }
      if t == |env| { return CutOff, longer; }
      longer := Others(Coordinator, env[t], call, longer);
      longer := Grow(call, longer, Waker);
      waker, rounds := Idle, rounds + 1;
      return Returned, longer;
    }

    method WakeUpAll(env: seq<seq<Action>>) returns (outcome: Outcome, ghost trace: seq<Action>)
      requires Shaped(View()) && waker == Idle
      modifies this
      ensures After(Call(old(View()), Coordinator, CallWakeUpAll), trace)
      ensures outcome == CutOff <==> waker != Idle
      ensures Counts(if outcome == Raised then 1 else 0, if outcome == Returned then 1 else 0)
      ensures outcome == CutOff ==> CoordinatorLines(trace) == |env|
    {
      ghost var call := Call(View(), Coordinator, CallWakeUpAll);
      trace := Begin(call);
      nCurBit, seen, waker := 0, {}, AllTest;
      var t, go, done := 0, true, true;
      while true
        invariant After(call, trace) && t <= |env| && CoordinatorLines(trace) == t
        invariant waker == AllTest && Counts(0, 0)
        decreases |env| - t
      {
        if t == |env| { return CutOff, trace; }
        go, trace := TestRun(env[t], call, trace);
        t := t + 1;
        if !go { break; }
        done, t, trace := Scan(env, t, call, trace);
        if !done { return CutOff, trace; }
        if waker == AllRelease(0) { break; }
      }
      outcome, trace := ReleaseAll(env, t, call, trace);
    }
  }
}
