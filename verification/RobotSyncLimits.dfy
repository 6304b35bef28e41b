/** Concrete runs that show the hypotheses of the barrier theorems are needed. Locks start
    free, and a robot's flag stays up between its release and its return from `Wait`; a
    call that reads such a stale flag wakes a robot that is not waiting. */
module RobotSyncLimits {
  import opened RobotSync
  import opened RobotSyncBarrier

  predicate OnlyWakeUpAll(acts: seq<Action>) {
    forall a :: a in acts ==> !a.CleanUp? && !a.CallWakeUp?
  }

  /** Robot `r` enters `Wait` and passes its lock, which is free. */
  lemma Pass(s: State, acts: seq<Action>, r: nat) returns (longer: seq<Action>)
    requires Shaped(s) && Valid(s, acts) && r < s.n
    requires Exec(s, acts).robot[r].pc == Outside && !Exec(s, acts).locked[r]
    ensures longer == acts + [Enter(r), Acquire(r)] && Valid(s, longer)
    ensures var m := Exec(s, acts);
      var b := m.robot[r];
      Exec(s, longer) == m.(isWait := m.isWait[r := true], locked := m.locked[r := true],
        robot := m.robot[r := b.(pc := AtClear, entered := b.entered + 1, acquired := b.acquired + 1)])
  {
    longer := Extend(s, acts, Enter(r));
    longer := Extend(s, longer, Acquire(r));
  }

  /** With every flag up, the coordinator polls until it is about to release. */
  lemma PollUntilRelease(s: State, acts: seq<Action>) returns (longer: seq<Action>)
    requires Inv(s) && Valid(s, acts) && OnlyWakeUpAll(acts)
    requires var m := Exec(s, acts); m.run && m.waker == AllTest && AllFlagged(m)
    ensures Valid(s, longer) && OnlyWakeUpAll(longer)
    ensures var m, t := Exec(s, acts), Exec(s, longer);
      t.waker == AllRelease(0) && t.(curBit := m.curBit, seen := m.seen, waker := m.waker) == m
  {
    var m := Exec(s, acts);
    RunInv(s, acts);
    PollAlone(m, Rank(m));
    ExecConcat(s, acts, Lines(Rank(m)));
    longer := acts + Lines(Rank(m));
  }

  /** Two robots raise their flags and pass their free locks; then `WakeUpAll` is called
      and polls until it is about to release. */
  lemma PassedButFlagged() returns (acts: seq<Action>)
    ensures Valid(Init(2), acts) && OnlyWakeUpAll(acts)
    ensures var t := Exec(Init(2), acts);
      && t.waker == AllRelease(0) && t.locked == [true, true]
      && t.robot == [Robot(AtClear, 1, 1, 0, 0), Robot(AtClear, 1, 1, 0, 0)]
  {
    var s := Init(2);
    InitInv(2);
    acts := Pass(s, [], 0);
    acts := Pass(s, acts, 1);
    acts := Extend(s, acts, CallWakeUpAll);
    acts := PollUntilRelease(s, acts);
  }

  /** The call frees the lock of robot 0, which returns from its first `Wait`. */
  lemma FreedTooEarly() returns (acts: seq<Action>)
    ensures Valid(Init(2), acts) && OnlyWakeUpAll(acts)
    ensures var t := Exec(Init(2), acts);
      t.locked == [false, true] && t.robot == [Robot(Outside, 1, 1, 1, 1), Robot(AtClear, 1, 1, 0, 0)]
  {
    acts := PassedButFlagged();
    acts := Extend(Init(2), acts, Waker);
    acts := Extend(Init(2), acts, Leave(0));
  }

  /** Robot 0 now returns from its second `Wait` although robot 1 has not entered its
      second. */
  lemma StaleFlagsBreakTheBarrier()
    ensures exists acts: seq<Action> ::
      && Valid(Init(2), acts)
      && OnlyWakeUpAll(acts)
      && var t := Exec(Init(2), acts);
         t.robot[0].returned == 2 && t.robot[1].entered == 1
  {
    var acts := FreedTooEarly();
    acts := Pass(Init(2), acts, 0);
    acts := Extend(Init(2), acts, Leave(0));
  }

  /** A robot that has raised its flag but not yet taken its free lock is released all
      the same: the release raises, and the call ends without returning. */
  lemma StaleFlagMakesAReleaseFail()
    ensures exists acts: seq<Action> ::
      && Valid(Init(1), acts)
      && OnlyWakeUpAll(acts)
      && Exec(Init(1), acts).errors == 1
  {
    var s := Init(1);
    InitInv(1);
    var acts := Extend(s, [], Enter(0));
    acts := Extend(s, acts, CallWakeUpAll);
    acts := PollUntilRelease(s, acts);
    acts := Extend(s, acts, Waker);
  }
}
