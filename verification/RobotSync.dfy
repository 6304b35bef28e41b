/** The rendezvous of `CRobotSync` as a step system: one waiter thread per robot, one
    coordinator thread, and `CleanUp` from anywhere. A step is one source line that
    reads or writes shared state. Several facts the program does not store are kept as
    history: how often each robot entered and left `Wait`, how often its lock was
    acquired and released, and which robots the current `WakeUpAll` has seen. */
module RobotSync {
  import opened Bits

  /** Where robot `r` is in `Wait(r)`: outside, about to acquire (line 48), or past the
      acquire and about to lower its flag (line 49). */
  datatype WaiterPc = Outside | AtAcquire | AtClear

  /** Where the coordinator is: outside, in `WakeUp(r)` (lines 53, 54, 55), or in
      `WakeUpAll` (lines 63, 65, 66, 70). `AllCheck(n)` is the comparison on line 67 and
      `AllRelease(n)` the return on line 71, with `n` the number of robots. */
  datatype WakerPc =
    | Idle
    | OneTest(r: nat) | OneCheck(r: nat) | OneRelease(r: nat)
    | AllTest | AllCheck(i: nat) | AllMark(i: nat) | AllRelease(i: nat)

  datatype Robot = Robot(pc: WaiterPc, entered: nat, acquired: nat, returned: nat, released: nat)

  datatype State = State(
    n: nat, run: bool, waitBit: nat, curBit: nat, isWait: seq<bool>, locked: seq<bool>,
    robot: seq<Robot>, waker: WakerPc, seen: set<nat>, rounds: nat, errors: nat)

  datatype Action =
    | Enter(r: nat)          // line 47 of Wait
    | Acquire(r: nat)        // line 48
    | Leave(r: nat)          // line 49 and the return
    | CallWakeUp(r: nat)
    | CallWakeUpAll          // the call and line 62
    | Waker                  // the coordinator's next line
    | CleanUp

  function Init(n: nat): State {
    State(n, true, Pow2(n) - 1, 0, seq(n, i => false), seq(n, i => false),
          seq(n, i => Robot(Outside, 0, 0, 0, 0)), Idle, {}, 0, 0)
  }

  predicate Shaped(s: State) {
    |s.isWait| == |s.locked| == |s.robot| == s.n
  }

  /** A thread can take its next line. Only `acquire` on a held lock blocks. */
  predicate Enabled(s: State, a: Action)
    requires Shaped(s)
  {
    match a
    case Enter(r) => r < s.n && s.robot[r].pc == Outside
    case Acquire(r) => r < s.n && s.robot[r].pc == AtAcquire && !s.locked[r]
    case Leave(r) => r < s.n && s.robot[r].pc == AtClear
    case CallWakeUp(r) => s.waker == Idle
    case CallWakeUpAll => s.waker == Idle
    case Waker => s.waker != Idle
    case CleanUp => true
  }

  function Step(s: State, a: Action): (t: State)
    requires Shaped(s) && Enabled(s, a)
    ensures Shaped(t) && t.n == s.n && t.waitBit == s.waitBit
  {
    match a
    case Enter(r) =>
      var b := s.robot[r];
      s.(isWait := s.isWait[r := true],
         robot := s.robot[r := b.(pc := AtAcquire, entered := b.entered + 1)])
    case Acquire(r) =>
      var b := s.robot[r];
      s.(locked := s.locked[r := true],
         robot := s.robot[r := b.(pc := AtClear, acquired := b.acquired + 1)])
    case Leave(r) =>
      var b := s.robot[r];
      s.(isWait := s.isWait[r := false],
         robot := s.robot[r := b.(pc := Outside, returned := b.returned + 1)])
    case CallWakeUp(r) => s.(waker := OneTest(r))
    case CallWakeUpAll => s.(curBit := 0, seen := {}, waker := AllTest)
    case CleanUp => s.(run := false)
    case Waker => WakerStep(s)
  }

  function WakerStep(s: State): (t: State)
    requires Shaped(s) && s.waker != Idle
    ensures Shaped(t) && t.n == s.n && t.waitBit == s.waitBit
  {
    match s.waker
    case OneTest(r) => if s.run then s.(waker := OneCheck(r)) else s.(waker := Idle)
    case OneCheck(r) =>
      if r >= s.n then s.(waker := Idle, errors := s.errors + 1)
      else if s.isWait[r] then s.(waker := OneRelease(r))
      else s.(waker := OneTest(r))
    case OneRelease(r) => if r < s.n then Release(s, r, Idle) else s.(waker := Idle)
    case AllTest => s.(waker := if s.run then AllCheck(0) else AllRelease(0))
    case AllCheck(i) =>
      if i >= s.n then s.(waker := if s.waitBit == s.curBit then AllRelease(0) else AllTest)
      else if s.isWait[i] then s.(waker := AllMark(i), seen := s.seen + {i})
      else s.(waker := AllCheck(i + 1))
    case AllMark(i) => s.(curBit := Or(s.curBit, Pow2(i)), waker := AllCheck(i + 1))
    case AllRelease(i) =>
      if i >= s.n then s.(waker := Idle, rounds := s.rounds + 1)
      else Release(s, i, AllRelease(i + 1))
  }

  /** `lock[r].release()`; on a free lock it raises and the coordinator's call ends there. */
  function Release(s: State, r: nat, next: WakerPc): (t: State)
    requires Shaped(s) && r < s.n
    ensures Shaped(t) && t.n == s.n && t.waitBit == s.waitBit
  {
    if s.locked[r] then
      var b := s.robot[r];
      s.(locked := s.locked[r := false],
         robot := s.robot[r := b.(released := b.released + 1)],
         waker := next)
    else
      s.(waker := Idle, errors := s.errors + 1)
  }

  // Runs

  ghost predicate Valid(s: State, acts: seq<Action>)
    requires Shaped(s)
    decreases |acts|
  {
    acts == [] || (Enabled(s, acts[0]) && Valid(Step(s, acts[0]), acts[1..]))
  }

  ghost function Exec(s: State, acts: seq<Action>): (t: State)
    requires Shaped(s) && Valid(s, acts)
    ensures Shaped(t) && t.n == s.n && t.waitBit == s.waitBit
    decreases |acts|
  {
    if acts == [] then s else Exec(Step(s, acts[0]), acts[1..])
  }

  lemma {:induction false} ExecConcat(s: State, a: seq<Action>, b: seq<Action>)
    requires Shaped(s) && Valid(s, a) && Valid(Exec(s, a), b)
    ensures Valid(s, a + b) && Exec(s, a + b) == Exec(Exec(s, a), b)
    decreases |a|
  {
    if a == [] {
      assert a + b == b;
    } else {
      assert (a + b)[1..] == a[1..] + b;
      ExecConcat(Step(s, a[0]), a[1..], b);
    }
  }

  lemma Extend(s: State, acts: seq<Action>, a: Action) returns (longer: seq<Action>)
    requires Shaped(s) && Valid(s, acts) && Enabled(Exec(s, acts), a)
    ensures longer == acts + [a]
    ensures Valid(s, longer) && Exec(s, longer) == Step(Exec(s, acts), a)
  {
    longer := acts + [a];
    ExecConcat(s, acts, [a]);
  }

  /** How many lines the coordinator ran. */
  function CoordinatorLines(acts: seq<Action>): nat {
    if acts == [] then 0 else (if acts[0] == Waker then 1 else 0) + CoordinatorLines(acts[1..])
  }

  lemma {:induction false} LinesConcat(a: seq<Action>, b: seq<Action>)
    ensures CoordinatorLines(a + b) == CoordinatorLines(a) + CoordinatorLines(b)
  {
    if a == [] {
      assert a + b == b;
    } else {
      assert (a + b)[1..] == a[1..] + b;
      LinesConcat(a[1..], b);
    }
  }

  /** No thread begins another wake-up. */
  predicate NoNewCall(acts: seq<Action>) {
    forall a :: a in acts ==> !a.CallWakeUp? && !a.CallWakeUpAll?
  }

  // What every interleaving keeps

  /** Per robot: its flag is up exactly while it is inside `Wait`, its counts agree with
      where it is, and every acquire but the one a held lock stands for was released. */
  predicate RobotOk(s: State, r: nat)
    requires Shaped(s) && r < s.n
  {
    var b := s.robot[r];
    && (s.isWait[r] <==> b.pc != Outside)
    && b.entered == b.acquired + (if b.pc == AtAcquire then 1 else 0)
    && b.acquired == b.returned + (if b.pc == AtClear then 1 else 0)
    && b.acquired == b.released + (if s.locked[r] then 1 else 0)
  }

  /** The mask under construction stands for the robots seen since the call began; at
      `AllMark(i)` robot `i` has been seen and its bit is about to be set. */
  ghost predicate MaskOk(s: State) {
    && (forall k: nat :: k in s.seen ==> k < s.n)
    && match s.waker
       case Idle => true
       case OneTest(r) => true
       case OneCheck(r) => true
       case OneRelease(r) => r < s.n
       case AllTest => MaskOf(s.curBit, s.seen)
       case AllCheck(i) => i <= s.n && MaskOf(s.curBit, s.seen)
       case AllMark(i) => i < s.n && i in s.seen && MaskOf(Or(s.curBit, Pow2(i)), s.seen)
       case AllRelease(i) =>
         i <= s.n && MaskOf(s.curBit, s.seen) && (s.curBit == s.waitBit || !s.run)
  }

  ghost predicate Inv(s: State) {
    && Shaped(s)
    && s.waitBit == Pow2(s.n) - 1
    && (forall r: nat :: r < s.n ==> RobotOk(s, r))
    && MaskOk(s)
  }

  lemma InitInv(n: nat)
    ensures Inv(Init(n))
  {
  }

  lemma StepInv(s: State, a: Action)
    requires Inv(s) && Enabled(s, a)
    ensures Inv(Step(s, a))
  {
    StepMaskOk(s, a);
    forall r: nat | r < s.n ensures RobotOk(Step(s, a), r) { StepRobotOk(s, a, r); }
  }

  lemma StepRobotOk(s: State, a: Action, r: nat)
    requires Shaped(s) && Enabled(s, a) && r < s.n && RobotOk(s, r)
    ensures RobotOk(Step(s, a), r)
  {
    match a
    case Enter(q) =>
    case Acquire(q) =>
    case Leave(q) =>
    case CallWakeUp(_) =>
    case CallWakeUpAll =>
    case CleanUp =>
    case Waker => WakerStepRobotOk(s, r);
  }

  lemma WakerStepRobotOk(s: State, r: nat)
    requires Shaped(s) && s.waker != Idle && r < s.n && RobotOk(s, r)
    ensures RobotOk(WakerStep(s), r)
  {
    if s.waker.OneRelease? && s.waker.r < s.n {
      ReleaseRobotOk(s, s.waker.r, Idle, r);
    } else if s.waker.AllRelease? && s.waker.i < s.n {
      ReleaseRobotOk(s, s.waker.i, AllRelease(s.waker.i + 1), r);
    }
  }

  lemma ReleaseRobotOk(s: State, q: nat, next: WakerPc, r: nat)
    requires Shaped(s) && q < s.n && r < s.n && RobotOk(s, r)
    ensures RobotOk(Release(s, q, next), r)
  {
    var t := Release(s, q, next);
    if q != r || !s.locked[q] {
      assert t.isWait[r] == s.isWait[r] && t.locked[r] == s.locked[r] && t.robot[r] == s.robot[r];
    }
  }

  lemma StepMaskOk(s: State, a: Action)
    requires Shaped(s) && MaskOk(s) && Enabled(s, a)
    ensures MaskOk(Step(s, a))
  {
    if a == CallWakeUpAll {
      EmptyMask();
    } else if a == Waker && s.waker.AllCheck? {
      var i := s.waker.i;
      if i < s.n && s.isWait[i] { AddToMask(s.curBit, s.seen, i); }
    }
  }

  lemma {:induction false} RunInv(s: State, acts: seq<Action>)
    requires Inv(s) && Valid(s, acts)
    ensures Inv(Exec(s, acts))
    decreases |acts|
  {
    if acts != [] {
      StepInv(s, acts[0]);
      RunInv(Step(s, acts[0]), acts[1..]);
    }
  }

  /** Conservation, in every run and with no hypothesis on timing: a robot's acquires are
      its releases plus its lock being held, so its (k+1)-th `Wait` has not returned
      before k releases. */
  lemma Conservation(n: nat, acts: seq<Action>, r: nat)
    requires Valid(Init(n), acts) && r < n
    ensures var t := Exec(Init(n), acts);
      && t.robot[r].acquired == t.robot[r].released + (if t.locked[r] then 1 else 0)
      && t.robot[r].returned <= t.robot[r].released + 1
      && t.robot[r].returned <= t.robot[r].acquired <= t.robot[r].entered <= t.robot[r].returned + 1
  {
    InitInv(n);
    RunInv(Init(n), acts);
    assert RobotOk(Exec(Init(n), acts), r);
  }

  /** The bitmask refines the set of robots seen, in every run: `nWaitBit` is 2^n - 1,
      whenever the coordinator compares, `nCurBit` is the mask of the robots this call
      has seen and the comparison succeeds exactly when it has seen them all; and the
      releases are reached otherwise only after `CleanUp`. */
  lemma MaskRefinesSet(n: nat, acts: seq<Action>)
    requires Valid(Init(n), acts)
    ensures var t := Exec(Init(n), acts);
      && t.waitBit == Pow2(n) - 1
      && (t.waker.AllCheck? ==>
            MaskOf(t.curBit, t.seen)
            && (t.curBit == t.waitBit <==> forall k: nat :: k in t.seen <==> k < n))
      && (t.waker.AllRelease? ==>
            (forall k: nat :: k in t.seen <==> k < n) || CleanUp in acts)
  {
    InitInv(n);
    RunInv(Init(n), acts);
    RunningUntilCleanUp(Init(n), acts);
    var t := Exec(Init(n), acts);
    if t.waker.AllCheck? || t.waker.AllRelease? {
      FullMask(t.curBit, t.seen, n);
    }
  }

  lemma {:induction false} RunningUntilCleanUp(s: State, acts: seq<Action>)
    requires Shaped(s) && Valid(s, acts)
    ensures Exec(s, acts).run <==> s.run && CleanUp !in acts
    decreases |acts|
  {
    if acts != [] {
      RunningUntilCleanUp(Step(s, acts[0]), acts[1..]);
    }
  }

  /** Within one `WakeUpAll` the mask loses no bit and the seen robots only grow, by at
      most one a step. */
  lemma SeenOnlyGrows(s: State, a: Action, k: nat)
    requires Inv(s) && Enabled(s, a) && a != CallWakeUpAll
    ensures s.seen <= Step(s, a).seen
    ensures Bit(s.curBit, k) ==> Bit(Step(s, a).curBit, k)
    ensures Step(s, a).seen != s.seen ==>
      exists i: nat :: i !in s.seen && i < s.n && s.isWait[i] && Step(s, a).seen == s.seen + {i}
  {
    if a == Waker && s.waker.AllMark? {
      OrBit(s.curBit, Pow2(s.waker.i), k);
    }
  }
}
