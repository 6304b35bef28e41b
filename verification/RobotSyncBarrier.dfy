/** What `WakeUpAll` guarantees to robots that use `Wait` as a barrier, over whole runs and
    for any number of robots and rounds, and when it guarantees it. */
module RobotSyncBarrier {
  import opened Bits
  import opened RobotSync

  /** Robot `r` is past its first `Wait`, which its initially free lock lets straight
      through, and every release of its lock has been consumed by a `Wait` that returned. */
  predicate ReadyRobot(s: State, r: nat)
    requires Shaped(s) && r < s.n
  {
    s.robot[r].returned == s.robot[r].released + 1
  }

  ghost predicate Ready(s: State)
    requires Shaped(s)
  {
    forall r: nat :: r < s.n ==> ReadyRobot(s, r)
  }

  /** Every robot has its flag up and is stopped at a held lock. */
  ghost predicate AllBlocked(s: State)
    requires Shaped(s)
  {
    forall r: nat :: r < s.n ==> s.isWait[r] && s.robot[r].pc == AtAcquire && s.locked[r]
  }

  predicate Polling(w: WakerPc) {
    w.AllTest? || w.AllCheck? || w.AllMark?
  }

  /** A step of one `WakeUpAll` call and the robots beside it. */
  predicate WithinCall(a: Action) {
    a.Enter? || a.Acquire? || a.Leave? || a.Waker?
  }

  // One call

  /** While a call begun in a ready state polls, every robot stays ready and one that was
      seen is stopped; while it releases, that still holds of the robots to come. */
  ghost predicate CallOk(s: State)
    requires Shaped(s)
  {
    && (Polling(s.waker) ==>
          forall r: nat :: r < s.n ==> ReadyRobot(s, r) && (r in s.seen ==> s.robot[r].pc == AtAcquire))
    && (s.waker.AllRelease? ==>
          forall r: nat :: s.waker.i <= r < s.n ==> ReadyRobot(s, r) && s.robot[r].pc == AtAcquire)
  }

  lemma CallStep(s: State, a: Action)
    requires Inv(s) && s.run && CallOk(s) && Enabled(s, a)
    requires WithinCall(a) && !s.waker.OneTest? && !s.waker.OneCheck? && !s.waker.OneRelease?
    ensures CallOk(Step(s, a))
  {
    match a
    case Enter(r) => assert RobotOk(s, r);
    case Acquire(r) => assert RobotOk(s, r);
    case Leave(r) => assert RobotOk(s, r);
    case CallWakeUp(_) =>
    case CallWakeUpAll =>
    case CleanUp =>
    case Waker =>
      if s.waker.AllCheck? {
        var i := s.waker.i;
        if i >= s.n {
          FullMask(s.curBit, s.seen, s.n);
        } else if s.isWait[i] {
          assert RobotOk(s, i);
        }
      }
  }

  lemma {:induction false} CallRun(s: State, acts: seq<Action>)
    requires Inv(s) && s.run && CallOk(s) && Valid(s, acts)
    requires s.waker.Idle? || Polling(s.waker) || s.waker.AllRelease?
    requires forall a :: a in acts ==> WithinCall(a)
    ensures Inv(Exec(s, acts)) && CallOk(Exec(s, acts))
    decreases |acts|
  {
    if acts != [] {
      StepInv(s, acts[0]);
      CallStep(s, acts[0]);
      CallRun(Step(s, acts[0]), acts[1..]);
    }
  }

  lemma ReadyAndStoppedIsBlocked(s: State)
    requires Inv(s) && Ready(s) && forall r: nat :: r < s.n ==> s.robot[r].pc == AtAcquire
    ensures AllBlocked(s)
  {
    forall r: nat | r < s.n ensures s.isWait[r] && s.locked[r] {
      assert RobotOk(s, r) && ReadyRobot(s, r);
    }
  }

  // The polling loop ends

  predicate AllFlagged(s: State)
    requires Shaped(s)
  {
    forall r: nat :: r < s.n ==> s.isWait[r]
  }

  ghost predicate MissingBelow(s: State, i: nat) {
    exists k: nat :: k < i && k !in s.seen
  }

  /** The number of coordinator lines left until the first release when every flag is and
      stays up: what is left of this scan, and one whole scan more if a robot already
      passed over has not been seen. */
  ghost function Rank(s: State): nat
    requires MaskOk(s) && (Polling(s.waker) || s.waker.AllRelease?)
  {
    match s.waker
    case AllTest => 2 * s.n + 2
    case AllCheck(i) => 2 * (s.n - i) + 1 + (if MissingBelow(s, i) then 2 * s.n + 2 else 0)
    case AllMark(i) => 2 * (s.n - i) + (if MissingBelow(s, i) then 2 * s.n + 2 else 0)
    case AllRelease(i) => 0
  }

  lemma PollStep(s: State)
    requires Inv(s) && s.run && AllFlagged(s) && Polling(s.waker)
    ensures var t := Step(s, Waker);
      && Inv(t) && t.(curBit := s.curBit, seen := s.seen, waker := s.waker) == s
      && (Polling(t.waker) || t.waker == AllRelease(0))
      && Rank(t) == Rank(s) - 1
  {
    StepInv(s, Waker);
    if s.waker.AllCheck? {
      var i := s.waker.i;
      if i >= s.n {
        FullMask(s.curBit, s.seen, s.n);
      } else {
        var t := Step(s, Waker);
        assert t.seen == s.seen + {i};
        assert forall k: nat :: k < i ==> (k in t.seen <==> k in s.seen);
      }
    } else if s.waker.AllMark? {
      var i, t := s.waker.i, Step(s, Waker);
      assert t.seen == s.seen && i in s.seen;
      assert MissingBelow(s, i) <==> MissingBelow(t, i + 1);
    }
  }

  function Lines(k: nat): (acts: seq<Action>)
    ensures |acts| == k && forall a :: a in acts ==> a == Waker
  {
    seq(k, i => Waker)
  }

  /** With every flag up, the coordinator running alone leaves the polling loop after
      exactly `Rank` lines; from the loop's head that is one complete scan. */
  lemma {:induction false} PollAlone(s: State, k: nat)
    requires Inv(s) && s.run && AllFlagged(s)
    requires Polling(s.waker) || s.waker == AllRelease(0)
    requires k == Rank(s)
    ensures Valid(s, Lines(k)) && Exec(s, Lines(k)).waker == AllRelease(0)
    ensures Exec(s, Lines(k)).(curBit := s.curBit, seen := s.seen, waker := s.waker) == s
    decreases k
  {
    if Polling(s.waker) {
      PollStep(s);
      assert Lines(k)[1..] == Lines(k - 1);
      PollAlone(Step(s, Waker), k - 1);
    }
  }

  /** The same in every interleaving once all robots are blocked: whatever the schedule,
      short of `CleanUp`, after `Rank(s)` steps `WakeUpAll` is about to release. In
      particular a poll that begins its scan then makes it its last. */
  lemma {:induction false} BlockedRobotsAreReleased(s: State, acts: seq<Action>)
    requires Inv(s) && s.run && AllBlocked(s)
    requires Polling(s.waker) || s.waker == AllRelease(0)
    requires Valid(s, acts) && CleanUp !in acts && |acts| == Rank(s)
    ensures s.waker == AllTest ==> |acts| == 2 * s.n + 2
    ensures Exec(s, acts).waker == AllRelease(0) && AllBlocked(Exec(s, acts))
    decreases |acts|
  {
    if Polling(s.waker) {
      assert acts[0] == Waker;
      PollStep(s);
      BlockedRobotsAreReleased(Step(s, Waker), acts[1..]);
    }
  }

  // Exactly when a call releases only blocked robots

  lemma {:induction false} RaiseFlags(s: State, k: nat) returns (acts: seq<Action>)
    requires Inv(s) && k <= s.n
    ensures Valid(s, acts) && forall a :: a in acts ==> a.Enter?
    ensures var t := Exec(s, acts);
      && Inv(t) && t.(isWait := s.isWait, robot := s.robot) == s
      && (forall r: nat :: r < k ==> t.isWait[r])
      && (forall r: nat :: r < s.n ==>
            t.robot[r].returned == s.robot[r].returned && t.robot[r].released == s.robot[r].released)
    decreases k
  {
    if k == 0 {
      acts := [];
    } else {
      var before := RaiseFlags(s, k - 1);
      var m := Exec(s, before);
      assert RobotOk(m, k - 1);
      if m.robot[k - 1].pc == Outside {
        StepInv(m, Enter(k - 1));
        ExecConcat(s, before, [Enter(k - 1)]);
        acts := before + [Enter(k - 1)];
      } else {
        acts := before;
      }
    }
  }

  /** The state a call of `WakeUpAll` begun in `s` is in after `acts`. */
  ghost predicate CallReaches(s: State, acts: seq<Action>, t: State)
    requires Shaped(s) && s.waker == Idle
  {
    && (forall a :: a in acts ==> WithinCall(a))
    && Valid(Step(s, CallWakeUpAll), acts)
    && t == Exec(Step(s, CallWakeUpAll), acts)
  }

  /** Simultaneity, both ways: a call of `WakeUpAll` is certain to find every robot flagged
      and blocked on a held lock when it makes its first release exactly when it is begun
      with every robot past its free first `Wait` and back from every earlier wake-up. */
  lemma SimultaneityIff(s: State)
    requires Inv(s) && s.run && s.waker == Idle
    ensures (forall acts, t :: CallReaches(s, acts, t) && t.waker == AllRelease(0) ==> AllBlocked(t))
      <==> Ready(s)
  {
    var s1 := Step(s, CallWakeUpAll);
    StepInv(s, CallWakeUpAll);
    if Ready(s) {
      assert CallOk(s1) by {
        forall r: nat | r < s.n ensures ReadyRobot(s1, r) { assert ReadyRobot(s, r); }
      }
      forall acts, t | CallReaches(s, acts, t) && t.waker == AllRelease(0)
        ensures AllBlocked(t)
      {
        CallRun(s1, acts);
        ReadyAndStoppedIsBlocked(t);
      }
    } else {
      var q: nat :| q < s.n && !ReadyRobot(s, q);
      var enters := RaiseFlags(s1, s.n);
      var s2 := Exec(s1, enters);
      PollAlone(s2, Rank(s2));
      var acts := enters + Lines(Rank(s2));
      ExecConcat(s1, enters, Lines(Rank(s2)));
      var t := Exec(s1, acts);
      assert CallReaches(s, acts, t);
      RunInv(s1, acts);
      assert RobotOk(t, q);
      assert !AllBlocked(t);
    }
  }

  // Whole runs

  /** Only `WakeUpAll` is used, it is never cleaned up, and each call of it begins with
      every robot ready. */
  ghost predicate DisciplinedRun(s: State, acts: seq<Action>)
    requires Shaped(s) && Valid(s, acts)
    decreases |acts|
  {
    acts == [] || (
      && !acts[0].CleanUp? && !acts[0].CallWakeUp?
      && (acts[0].CallWakeUpAll? ==> Ready(s))
      && DisciplinedRun(Step(s, acts[0]), acts[1..]))
  }

  /** Robot `r`'s counts against the number `c` of calls that have returned: between calls
      its lock has been released `c` times; during the releases of the next call those
      already done stand at `c + 1`. */
  predicate CountsOk(s: State, r: nat)
    requires Shaped(s) && r < s.n
  {
    var b, c := s.robot[r], s.rounds;
    match s.waker
    case Idle => b.released == c && b.returned >= c && (c > 0 ==> b.entered >= c + 1)
    case AllTest => b.released == c
    case AllCheck(_) => b.released == c
    case AllMark(_) => b.released == c
    case AllRelease(i) =>
      if r < i then b.released == c + 1 && b.returned >= c + 1 && b.entered >= c + 2
      else b.released == c
    case OneTest(_) => false
    case OneCheck(_) => false
    case OneRelease(_) => false
  }

  ghost predicate BarrierInv(s: State) {
    && Inv(s) && s.run && s.errors == 0 && CallOk(s)
    && (s.waker.Idle? || Polling(s.waker) || s.waker.AllRelease?)
    && forall r: nat :: r < s.n ==> CountsOk(s, r)
  }

  lemma CountsStep(s: State, a: Action, r: nat)
    requires BarrierInv(s) && Enabled(s, a) && r < s.n
    requires WithinCall(a) || (a == CallWakeUpAll && Ready(s))
    ensures CountsOk(Step(s, a), r)
  {
    assert CountsOk(s, r) && RobotOk(s, r);
    if a == Waker && s.waker.AllRelease? && s.waker.i < s.n {
      assert ReadyRobot(s, s.waker.i) && RobotOk(s, s.waker.i);
    }
  }

  lemma BarrierStep(s: State, a: Action)
    requires BarrierInv(s) && Enabled(s, a)
    requires WithinCall(a) || (a == CallWakeUpAll && Ready(s))
    ensures BarrierInv(Step(s, a))
  {
    var t := Step(s, a);
    StepInv(s, a);
    forall r: nat | r < s.n ensures CountsOk(t, r) { CountsStep(s, a, r); }
    if a == CallWakeUpAll {
      forall r: nat | r < s.n ensures ReadyRobot(t, r) { assert ReadyRobot(s, r); }
    } else {
      CallStep(s, a);
      if a == Waker && s.waker.AllRelease? && s.waker.i < s.n {
        assert ReadyRobot(s, s.waker.i) && RobotOk(s, s.waker.i);
      }
    }
  }

  lemma {:induction false} BarrierRun(s: State, acts: seq<Action>)
    requires BarrierInv(s) && Valid(s, acts) && DisciplinedRun(s, acts)
    ensures BarrierInv(Exec(s, acts))
    decreases |acts|
  {
    if acts != [] {
      BarrierStep(s, acts[0]);
      BarrierRun(Step(s, acts[0]), acts[1..]);
    }
  }

  lemma BarrierReachable(n: nat, acts: seq<Action>)
    requires Valid(Init(n), acts) && DisciplinedRun(Init(n), acts)
    ensures BarrierInv(Exec(Init(n), acts))
  {
    InitInv(n);
    BarrierRun(Init(n), acts);
  }

  lemma BarrierHolds(t: State, r: nat, q: nat, k: nat)
    requires BarrierInv(t) && r < t.n && q < t.n
    ensures k >= 2 && t.robot[r].returned >= k ==> t.robot[q].entered >= k
    ensures t.robot[r].returned <= t.robot[q].returned + 1
  {
    assert RobotOk(t, r) && RobotOk(t, q) && CountsOk(t, r) && CountsOk(t, q);
    assert Polling(t.waker) ==> ReadyRobot(t, r) && ReadyRobot(t, q);
    assert t.waker.AllRelease? && t.waker.i <= r ==> ReadyRobot(t, r);
    assert t.waker.AllRelease? && t.waker.i <= q ==> ReadyRobot(t, q);
  }

  /** The barrier, in every disciplined run of any number of robots and rounds: after the
      free first one, no robot returns from its k-th `Wait` before every robot has entered
      its k-th, and the numbers of returned `Wait`s never differ by more than one. */
  lemma Barrier(n: nat, acts: seq<Action>, r: nat, q: nat, k: nat)
    requires Valid(Init(n), acts) && DisciplinedRun(Init(n), acts)
    requires r < n && q < n && k >= 2
    ensures var t := Exec(Init(n), acts);
      && (t.robot[r].returned >= k ==> t.robot[q].entered >= k)
      && t.robot[r].returned <= t.robot[q].returned + 1
  {
    BarrierReachable(n, acts);
    BarrierHolds(Exec(Init(n), acts), r, q, k);
  }

  /** In every disciplined run: at the first release of a call all robots are blocked on
      held locks, no release of the run hits a free lock, and each call that has returned
      released every lock exactly once. */
  lemma Simultaneity(n: nat, acts: seq<Action>, r: nat)
    requires Valid(Init(n), acts) && DisciplinedRun(Init(n), acts) && r < n
    ensures var t := Exec(Init(n), acts);
      && (t.waker == AllRelease(0) ==> AllBlocked(t))
      && (t.waker.AllRelease? && t.waker.i < n ==> t.locked[t.waker.i])
      && t.errors == 0
      && t.robot[r].released == t.rounds + (if t.waker.AllRelease? && r < t.waker.i then 1 else 0)
  {
    BarrierReachable(n, acts);
    var t := Exec(Init(n), acts);
    assert CountsOk(t, r);
    if t.waker == AllRelease(0) {
      ReadyAndStoppedIsBlocked(t);
    }
    if t.waker.AllRelease? && t.waker.i < n {
      assert ReadyRobot(t, t.waker.i) && RobotOk(t, t.waker.i);
    }
  }
}
