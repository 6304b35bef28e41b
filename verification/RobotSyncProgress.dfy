/** How far the coordinator's calls get: how `CleanUp` ends them, under every schedule and
    whatever the flags, and that `WakeUp` waits for its robot. Progress is counted in lines
    of the coordinator. */
module RobotSyncProgress {
  import opened Bits
  import opened RobotSync
  import opened RobotSyncBarrier

  // WakeUpAll after CleanUp

  /** The most lines from here to the first release once `nIsRun` is down: the rest of the
      scan, its comparison, and one test. */
  function ScanLeft(n: nat, w: WakerPc): int
    requires Polling(w)
  {
    match w
    case AllTest => 1
    case AllCheck(i) => 2 * (n - i) + 2
    case AllMark(i) => 2 * (n - i) + 1
  }

  /** Once `nIsRun` is down a call that polls is about to release within the lines left of
      its scan, at most 2n+2, under every schedule and whatever the flags. */
  lemma {:induction false} CleanUpEndsPolling(s: State, acts: seq<Action>) returns (before: seq<Action>)
    requires Inv(s) && !s.run && Polling(s.waker) && Valid(s, acts)
    requires CoordinatorLines(acts) >= ScanLeft(s.n, s.waker)
    ensures 1 <= ScanLeft(s.n, s.waker) <= 2 * s.n + 2
    ensures before <= acts && Valid(s, before) && Exec(s, before).waker == AllRelease(0)
    ensures CoordinatorLines(before) <= ScanLeft(s.n, s.waker)
    decreases |acts|
  {
    var t := Step(s, acts[0]);
    StepInv(s, acts[0]);
    if acts[0] == Waker && t.waker == AllRelease(0) {
      before := [Waker];
    } else {
      var rest := CleanUpEndsPolling(t, acts[1..]);
      before := [acts[0]] + rest;
      assert before[1..] == rest;
    }
  }

  /** The most lines from here to the end of the call. */
  function LinesLeft(n: nat, w: WakerPc): int
    requires w.Idle? || Polling(w) || w.AllRelease?
  {
    match w
    case Idle => 0
    case AllRelease(i) => if i <= n then n - i + 1 else 1
    case _ => ScanLeft(n, w) + n + 1
  }

  /** Once `nIsRun` is down a call of `WakeUpAll` ends, by returning or by raising, within
      the lines left, at most 3n+3, under every schedule. */
  lemma {:induction false} CleanUpEndsCall(s: State, acts: seq<Action>)
    requires Inv(s) && !s.run && (s.waker.Idle? || Polling(s.waker) || s.waker.AllRelease?)
    requires Valid(s, acts) && NoNewCall(acts)
    ensures LinesLeft(s.n, s.waker) <= 3 * s.n + 3
    ensures CoordinatorLines(acts) <= LinesLeft(s.n, s.waker)
    ensures CoordinatorLines(acts) == LinesLeft(s.n, s.waker) ==> Exec(s, acts).waker == Idle
    decreases |acts|
  {
    if acts != [] {
      StepInv(s, acts[0]);
      CleanUpEndsCall(Step(s, acts[0]), acts[1..]);
    }
  }

  /** `WakeUpAll` waits for every robot: as long as the flag of one stays down, no schedule
      lets the call go on to its releases, or return. */
  lemma {:induction false} WakeUpAllWaits(s: State, r: nat, acts: seq<Action>)
    requires Inv(s) && s.run && r < s.n && !s.isWait[r] && r !in s.seen && Polling(s.waker)
    requires Valid(s, acts) && CleanUp !in acts && Enter(r) !in acts
    ensures var t := Exec(s, acts);
      && Polling(t.waker) && t.errors == s.errors
      && forall q: nat :: q < s.n ==> t.robot[q].released == s.robot[q].released
    decreases |acts|
  {
    if acts != [] {
      assert acts[0] != CleanUp && acts[0] != Enter(r);
      StepInv(s, acts[0]);
      if acts[0] == Waker && s.waker.AllCheck? {
        FullMask(s.curBit, s.seen, s.n);
      }
      WakeUpAllWaits(Step(s, acts[0]), r, acts[1..]);
    }
  }

  // WakeUp

  /** With `nIsRun` down a call of `WakeUp` that is about to test it returns there: one line
      more, no release and no error. */
  lemma {:induction false} CleanUpEndsWakeUp(s: State, acts: seq<Action>)
    requires Shaped(s) && !s.run && (s.waker.OneTest? || s.waker.Idle?) && Valid(s, acts) && NoNewCall(acts)
    ensures var t := Exec(s, acts);
      && CoordinatorLines(acts) <= (if s.waker.Idle? then 0 else 1)
      && (t.waker == if CoordinatorLines(acts) == 1 then Idle else s.waker)
      && t.errors == s.errors
      && forall q: nat :: q < s.n ==> t.robot[q].released == s.robot[q].released
    decreases |acts|
  {
    if acts != [] {
      assert !acts[0].CallWakeUp? && !acts[0].CallWakeUpAll?;
      CleanUpEndsWakeUp(Step(s, acts[0]), acts[1..]);
    }
  }

  /** `WakeUp(r)` waits for its robot: as long as the flag of robot `r` is down, no schedule
      lets the call return or release anything. */
  lemma {:induction false} WakeUpWaits(s: State, r: nat, acts: seq<Action>)
    requires Shaped(s) && s.run && r < s.n && !s.isWait[r] && (s.waker == OneTest(r) || s.waker == OneCheck(r))
    requires Valid(s, acts) && CleanUp !in acts && Enter(r) !in acts
    ensures var t := Exec(s, acts);
      && (t.waker == OneTest(r) || t.waker == OneCheck(r)) && t.errors == s.errors
      && forall q: nat :: q < s.n ==> t.robot[q].released == s.robot[q].released
    decreases |acts|
  {
    if acts != [] {
      assert acts[0] != CleanUp && acts[0] != Enter(r);
      WakeUpWaits(Step(s, acts[0]), r, acts[1..]);
    }
  }

  /** How many lines a call of `WakeUp` for a blocked robot has done. */
  function WakeUpDone(w: WakerPc): nat {
    match w
    case OneTest(_) => 0
    case OneCheck(_) => 1
    case OneRelease(_) => 2
    case _ => 3
  }

  /** With robot `r` blocked, `WakeUp(r)` releases its lock, no other, and exactly once, by
      its third line, and returns; under every schedule short of `CleanUp`. */
  lemma {:induction false} WakeUpWakes(s: State, r: nat, acts: seq<Action>)
    requires Shaped(s) && s.run && r < s.n
    requires s.waker == OneTest(r) || s.waker == OneCheck(r) || s.waker == OneRelease(r) || s.waker == Idle
    requires s.waker != Idle ==> s.isWait[r] && s.robot[r].pc == AtAcquire && s.locked[r]
    requires Valid(s, acts) && NoNewCall(acts) && CleanUp !in acts
    ensures var t, lines := Exec(s, acts), CoordinatorLines(acts);
      && WakeUpDone(s.waker) + lines <= 3 && t.errors == s.errors
      && (t.waker == Idle <==> WakeUpDone(s.waker) + lines == 3)
      && forall q: nat :: q < s.n ==>
        t.robot[q].released == s.robot[q].released + (if q == r && s.waker != Idle && t.waker == Idle then 1 else 0)
    decreases |acts|
  {
    if acts != [] {
      assert acts[0] != CleanUp && !acts[0].CallWakeUp? && !acts[0].CallWakeUpAll?;
      WakeUpWakes(Step(s, acts[0]), r, acts[1..]);
    }
  }
}
