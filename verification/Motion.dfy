/** The module-level motion defaults, their setters, and `movej` and `movel` as far as the
    request they send. */
module Motion {
  import opened Values

  const DR_BASE := 0
  const DR_TOOL := 1
  const DR_WORLD := 2
  const DR_TC_USER_MIN := 101
  const DR_TC_USER_MAX := 200
  const DR_VELJ_DT_LEN := 6
  const DR_VELX_DT_LEN := 2

  datatype Defaults = Defaults(velj: seq<real>, accj: seq<real>, velx: seq<real>, accx: seq<real>, coord: int)

  const INITIAL := Defaults(Repeat(0.0, 6), Repeat(0.0, 6), [0.0, DR_COND_NONE], [0.0, DR_COND_NONE], DR_BASE)

  // The setters: what a successful call stores

  /** `set_velj(vel)` and `set_accj(acc)`; they differ in the error for a number that is
      not positive. */
  function JointDefault(a: Arg, notPositive: Error): Result<seq<real>> {
    if IsNumber(a) then
      if Number(a) <= 0.0 then Err(notPositive) else Ok(Repeat(Number(a), DR_VELJ_DT_LEN))
    else if a.List? && |a.items| == POINT_COUNT then
      if exists i :: 0 <= i < |a.items| && a.items[i] <= 0.0 then Err(ValueError) else Ok(a.items)
    else Err(TypeError)
  }

  /** `set_velx(vel1, vel2)` and `set_accx(acc1, acc2)` */
  function TaskDefault(a1: Arg, a2: Arg): Result<seq<real>> {
    if !IsNumber(a1) then Err(TypeError)
    else if Number(a1) <= 0.0 then Err(ValueError)
    else if !IsNumber(a2) then Err(TypeError)
    else if Number(a2) != DR_COND_NONE && Number(a2) <= 0.0 then Err(ValueError)
    else Ok([Number(a1), Number(a2)])
  }

  predicate CoordAllowed(c: int) {
    c == DR_BASE || c == DR_TOOL || c == DR_WORLD || DR_TC_USER_MIN <= c <= DR_TC_USER_MAX
  }

  /** `set_ref_coord(coord)`: once the value is accepted it is stored whatever the
      service answers. */
  function RefCoord(c: Arg): Result<int> {
    if !c.Int? then Err(TypeError) else if !CoordAllowed(c.i) then Err(ValueError) else Ok(c.i)
  }

  datatype Setter =
    | SetVelj(a: Arg)
    | SetAccj(a: Arg)
    | SetVelx(a1: Arg, a2: Arg)
    | SetAccx(a1: Arg, a2: Arg)
    | SetRefCoord(c: Arg)

  predicate Succeeds(call: Setter) {
    match call
    case SetVelj(a) => JointDefault(a, TypeError).Ok?
    case SetAccj(a) => JointDefault(a, ValueError).Ok?
    case SetVelx(a1, a2) => TaskDefault(a1, a2).Ok?
    case SetAccx(a1, a2) => TaskDefault(a1, a2).Ok?
    case SetRefCoord(c) => RefCoord(c).Ok?
  }

  /** The defaults after a setter call, which changes nothing if it fails. */
  function After(d: Defaults, call: Setter): Defaults {
    if !Succeeds(call) then d
    else match call
      case SetVelj(a) => d.(velj := JointDefault(a, TypeError).value)
      case SetAccj(a) => d.(accj := JointDefault(a, ValueError).value)
      case SetVelx(a1, a2) => d.(velx := TaskDefault(a1, a2).value)
      case SetAccx(a1, a2) => d.(accx := TaskDefault(a1, a2).value)
      case SetRefCoord(c) => d.(coord := c.i)
  }

  function AfterAll(d: Defaults, calls: seq<Setter>): Defaults {
    if calls == [] then d else After(AfterAll(d, calls[..|calls| - 1]), calls[|calls| - 1])
  }

  // The move commands

  predicate TimeIsOff(time: real) {
    time == 0.0 || time == DR_COND_NONE
  }

  /** `_check_valid_vel_acc_joint`: without a time, some velocity and some acceleration
      must not be zero. */
  predicate JointMotionGiven(vel: seq<real>, acc: seq<real>, time: real) {
    TimeIsOff(time) ==>
      (exists i :: 0 <= i < |vel| && vel[i] != 0.0) && (exists i :: 0 <= i < |acc| && acc[i] != 0.0)
  }

  predicate TaskPairGiven(v: seq<real>)
    requires |v| == 2
  {
    v[0] > 0.0 && (v[1] == DR_COND_NONE || v[1] > 0.0)
  }

  /** `_check_valid_vel_acc_task` */
  predicate TaskMotionGiven(vel: seq<real>, acc: seq<real>, time: real)
    requires |vel| == 2 && |acc| == 2
  {
    TimeIsOff(time) ==> TaskPairGiven(vel) && TaskPairGiven(acc)
  }

  predicate NoneNegative(s: seq<real>) {
    forall i :: 0 <= i < |s| ==> s[i] >= 0.0
  }

  predicate NoneNegativeButOff(s: seq<real>) {
    forall i :: 0 <= i < |s| ==> s[i] >= 0.0 || s[i] == DR_COND_NONE
  }

  function JointParam(a: Arg, default: seq<real>): (r: Result<seq<real>>)
    requires |default| == 6
    ensures r.Ok? ==> |r.value| == 6 && NoneNegative(r.value)
  {
    var s :- if a == Absent then Ok(default)
             else if IsNumber(a) then Ok(Repeat(Number(a), DR_VELJ_DT_LEN))
             else if a.List? && |a.items| == DR_VELJ_DT_LEN then Ok(a.items)
             else Err(TypeError);
    if NoneNegative(s) then Ok(s) else Err(ValueError)
  }

  function TaskParam(a: Arg, default: seq<real>): (r: Result<seq<real>>)
    requires |default| == 2
    ensures r.Ok? ==> |r.value| == 2 && NoneNegativeButOff(r.value)
  {
    var s :- if a == Absent then Ok(default)
             else if IsNumber(a) then Ok([Number(a), DR_COND_NONE])
             else if a.List? && |a.items| == DR_VELX_DT_LEN then Ok(a.items)
             else Err(TypeError);
    if NoneNegativeButOff(s) then Ok(s) else Err(ValueError)
  }

  function TimeParam(a: Arg): Result<real> {
    if a == Absent then Ok(0.0)
    else if !IsNumber(a) then Err(TypeError)
    else if Number(a) < 0.0 && Number(a) != DR_COND_NONE then Err(ValueError)
    else Ok(Number(a))
  }

  /** No blend state is ever switched on, so an absent radius is zero. */
  function RadiusParam(a: Arg): Result<real> {
    if a == Absent then Ok(0.0)
    else if !IsNumber(a) then Err(TypeError)
    else if Number(a) < 0.0 then Err(ValueError)
    else Ok(Number(a))
  }

  /** `mod` and `ra`: an `int`, and 0 or 1. */
  function FlagParam(a: Arg): Result<int> {
    if !a.Int? then Err(TypeError) else if a.i != 0 && a.i != 1 then Err(ValueError) else Ok(a.i)
  }

  function RefParam(a: Arg, coord: int): Result<int> {
    if a == Absent then (if coord < DR_BASE || coord > DR_TC_USER_MAX then Err(ValueError) else Ok(coord))
    else if !a.Int? then Err(TypeError)
    else if a.i < DR_BASE || a.i > DR_TC_USER_MAX then Err(ValueError)
    else Ok(a.i)
  }

  /** The arguments `movej` and `movel` share, long and short names; `ref` is `movel`'s. */
  datatype MoveArgs = MoveArgs(
    pos: Arg, vel: Arg, acc: Arg, time: Arg, radius: Arg, ref: Arg, mod: Arg, ra: Arg,
    v: Arg, a: Arg, t: Arg, r: Arg, async: bool)

  /** A call that gives the pose and leaves everything else out. */
  function OnlyPose(pos: Arg, async: bool): MoveArgs {
    MoveArgs(pos, Absent, Absent, Absent, Absent, Absent, Int(0), Int(0), Absent, Absent, Absent, Absent, async)
  }

  datatype JointRequest = JointRequest(
    pos: Pose, vel: real, acc: real, time: real, mode: int, radius: real, blendType: int, syncType: int)

  datatype LineRequest = LineRequest(
    pos: Pose, vel: seq<real>, acc: seq<real>, time: real, radius: real, ref: int,
    mode: int, blendType: int, syncType: int)

  predicate Shaped(d: Defaults) {
    |d.velj| == 6 && |d.accj| == 6 && |d.velx| == 2 && |d.accx| == 2
  }

  function SyncType(async: bool): int { if async then 1 else 0 }

  /** `_movej`, up to the request. Only the first velocity and acceleration are sent. */
  function MoveJ(d: Defaults, m: MoveArgs): Result<JointRequest>
    requires Shaped(d)
  {
    var pos :- GetPosj(m.pos);
    var vel :- JointParam(GetParam(m.vel, m.v), d.velj);
    var acc :- JointParam(GetParam(m.acc, m.a), d.accj);
    var time :- TimeParam(GetParam(m.time, m.t));
    if !JointMotionGiven(vel, acc, time) then Err(ValueError)
    else
      var radius :- RadiusParam(GetParam(m.radius, m.r));
      var mod :- FlagParam(m.mod);
      var ra :- FlagParam(m.ra);
      Ok(JointRequest(pos, vel[0], acc[0], time, mod, if m.async then 0.0 else radius, ra, SyncType(m.async)))
  }

  /** `_movel`, up to the request. */
  function MoveL(d: Defaults, m: MoveArgs): Result<LineRequest>
    requires Shaped(d)
  {
    var pos :- GetNormalPos(m.pos);
    var vel :- TaskParam(GetParam(m.vel, m.v), d.velx);
    var acc :- TaskParam(GetParam(m.acc, m.a), d.accx);
    var time :- TimeParam(GetParam(m.time, m.t));
    if !TaskMotionGiven(vel, acc, time) then Err(ValueError)
    else
      var radius :- RadiusParam(GetParam(m.radius, m.r));
      var ref :- RefParam(m.ref, d.coord);
      var mod :- FlagParam(m.mod);
      var ra :- FlagParam(m.ra);
      Ok(LineRequest(pos, vel, acc, time, if m.async then 0.0 else radius, ref, mod, ra, SyncType(m.async)))
  }

  // What is sent, and when

  /** `v` is the velocity or acceleration that the argument stands for. */
  predicate JointStandsFor(a: Arg, default: seq<real>, v: seq<real>) {
    && |v| == 6 && (forall i :: 0 <= i < 6 ==> v[i] >= 0.0)
    && match a
       case Absent => v == default
       case List(items) => v == items
       case _ => forall i :: 0 <= i < 6 ==> Denotes(a, v[i])
  }

  predicate TaskStandsFor(a: Arg, default: seq<real>, v: seq<real>) {
    && |v| == 2 && (forall i :: 0 <= i < 2 ==> v[i] >= 0.0 || v[i] == -10000.0)
    && match a
       case Absent => v == default
       case List(items) => v == items
       case _ => Denotes(a, v[0]) && v[1] == -10000.0
  }

  predicate NumberStandsFor(a: Arg, x: real) {
    if a == Absent then x == 0.0 else Denotes(a, x)
  }

  /** The radius given is not negative; an asynchronous call sends none. */
  ghost predicate RadiusSent(given: Arg, async: bool, radius: real) {
    exists x :: NumberStandsFor(given, x) && x >= 0.0 && radius == if async then 0.0 else x
  }

  /** The first of six velocities and of six accelerations are sent; without a time neither
      may be all zero. */
  ghost predicate JointMotionSent(d: Defaults, givenVel: Arg, givenAcc: Arg, q: JointRequest) {
    exists vel, acc ::
      && JointStandsFor(givenVel, d.velj, vel) && q.vel == vel[0]
      && JointStandsFor(givenAcc, d.accj, acc) && q.acc == acc[0]
      && (q.time == 0.0 || q.time == -10000.0 ==>
            (exists i :: 0 <= i < 6 && vel[i] != 0.0) && (exists i :: 0 <= i < 6 && acc[i] != 0.0))
  }

  /** The tail that the two requests share: radius, mode, what becomes of a motion under
      way, and whether to wait for the end. */
  ghost predicate CommonSent(m: MoveArgs, radius: real, mode: int, blendType: int, syncType: int) {
    && RadiusSent(if m.radius != Absent then m.radius else m.r, m.async, radius)
    && m.mod == Int(mode) && 0 <= mode <= 1
    && m.ra == Int(blendType) && 0 <= blendType <= 1
    && (syncType == 1 <==> m.async) && (syncType == 0 <==> !m.async)
  }

  ghost predicate JointSent(d: Defaults, m: MoveArgs, q: JointRequest) {
    && JointPose(m.pos, q.pos)
    && JointMotionSent(d, if m.vel != Absent then m.vel else m.v, if m.acc != Absent then m.acc else m.a, q)
    && NumberStandsFor(if m.time != Absent then m.time else m.t, q.time) && (q.time >= 0.0 || q.time == -10000.0)
    && CommonSent(m, q.radius, q.mode, q.blendType, q.syncType)
  }

  /** A first number that is positive, and a second that is positive or -10000. */
  predicate Acceptable(v: seq<real>) {
    |v| == 2 && v[0] > 0.0 && (v[1] == -10000.0 || v[1] > 0.0)
  }

  ghost predicate LineSent(d: Defaults, m: MoveArgs, q: LineRequest) {
    && (JointPose(m.pos, q.pos) || TaskPose(m.pos, q.pos))
    && TaskStandsFor(if m.vel != Absent then m.vel else m.v, d.velx, q.vel)
    && TaskStandsFor(if m.acc != Absent then m.acc else m.a, d.accx, q.acc)
    && (q.time == 0.0 || q.time == -10000.0 ==> Acceptable(q.vel) && Acceptable(q.acc))
    && NumberStandsFor(if m.time != Absent then m.time else m.t, q.time) && (q.time >= 0.0 || q.time == -10000.0)
    && 0 <= q.ref <= 200 && (if m.ref == Absent then q.ref == d.coord else m.ref == Int(q.ref))
    && CommonSent(m, q.radius, q.mode, q.blendType, q.syncType)
  }

  /** What the joint setters store: what the argument stands for, if all of it is positive. */
  lemma JointDefaultIff(a: Arg, notPositive: Error, v: seq<real>)
    ensures JointDefault(a, notPositive) == Ok(v) <==>
      a != Absent && JointStandsFor(a, v, v) && forall i :: 0 <= i < 6 ==> v[i] > 0.0
  {
    assert |v| == 6 && Denotes(a, v[0]) ==> IsNumber(a);
    if IsNumber(a) && |v| == 6 && (forall i :: 0 <= i < 6 ==> Denotes(a, v[i])) {
      assert v == Repeat(Number(a), 6);
      assert v[0] == Number(a);
    }
  }

  /** What the task setters store. */
  lemma TaskDefaultIff(a1: Arg, a2: Arg, v: seq<real>)
    ensures TaskDefault(a1, a2) == Ok(v) <==>
      Acceptable(v) && Denotes(a1, v[0]) && Denotes(a2, v[1])
  {
    if |v| == 2 && IsNumber(a1) && IsNumber(a2) && v[0] == Number(a1) && v[1] == Number(a2) {
      assert v == [Number(a1), Number(a2)];
    }
  }

  /** What `set_ref_coord` stores. */
  lemma RefCoordIff(c: Arg, v: int)
    ensures RefCoord(c) == Ok(v) <==> c == Int(v) && (0 <= v <= 2 || 101 <= v <= 200)
  {
  }

  lemma JointParamIff(a: Arg, default: seq<real>, v: seq<real>)
    requires |default| == 6
    ensures JointParam(a, default) == Ok(v) <==> JointStandsFor(a, default, v)
  {
    assert |v| == 6 && Denotes(a, v[0]) ==> IsNumber(a);
    if IsNumber(a) && |v| == 6 && (forall i :: 0 <= i < 6 ==> Denotes(a, v[i])) {
      assert v == Repeat(Number(a), 6);
    }
  }

  lemma TaskParamIff(a: Arg, default: seq<real>, v: seq<real>)
    requires |default| == 2
    ensures TaskParam(a, default) == Ok(v) <==> TaskStandsFor(a, default, v)
  {
    if IsNumber(a) && |v| == 2 && v[0] == Number(a) && v[1] == DR_COND_NONE {
      assert v == [Number(a), DR_COND_NONE];
    }
  }

  /** The tail of both commands, in the order the code checks it. */
  function Common(m: MoveArgs): Result<(real, int, int)> {
    var radius :- RadiusParam(GetParam(m.radius, m.r));
    var mod :- FlagParam(m.mod);
    var ra :- FlagParam(m.ra);
    Ok((if m.async then 0.0 else radius, mod, ra))
  }

  lemma CommonIff(m: MoveArgs, radius: real, mode: int, blendType: int, syncType: int)
    ensures Common(m) == Ok((radius, mode, blendType)) && syncType == SyncType(m.async)
      <==> CommonSent(m, radius, mode, blendType, syncType)
  {
    var given := if m.radius != Absent then m.radius else m.r;
    forall x ensures NumberStandsFor(given, x) && x >= 0.0 <==> RadiusParam(given) == Ok(x) {
    }
    assert RadiusParam(given).Ok? ==> NumberStandsFor(given, RadiusParam(given).value);
  }

  /** `movej`: `q` is sent exactly when the arguments, the short names standing in for the
      long ones and the defaults for both, describe it. */
  lemma MoveJIff(d: Defaults, m: MoveArgs, q: JointRequest)
    requires Shaped(d)
    ensures MoveJ(d, m) == Ok(q) <==> JointSent(d, m, q)
  {
    hide JointParam, JointStandsFor, CommonSent;
    var va, aa := GetParam(m.vel, m.v), GetParam(m.acc, m.a);
    forall v
      ensures JointParam(va, d.velj) == Ok(v) <==> JointStandsFor(va, d.velj, v)
      ensures JointParam(aa, d.accj) == Ok(v) <==> JointStandsFor(aa, d.accj, v)
    {
      JointParamIff(va, d.velj, v);
      JointParamIff(aa, d.accj, v);
    }
    CommonIff(m, q.radius, q.mode, q.blendType, q.syncType);
    if MoveJ(d, m) == Ok(q) {
      var vel, acc := JointParam(va, d.velj).value, JointParam(aa, d.accj).value;
      assert JointStandsFor(va, d.velj, vel) && JointStandsFor(aa, d.accj, acc);
    }
  }

  /** `movel`, likewise. */
  lemma MoveLIff(d: Defaults, m: MoveArgs, q: LineRequest)
    requires Shaped(d)
    ensures MoveL(d, m) == Ok(q) <==> LineSent(d, m, q)
  {
    hide TaskParam, TaskStandsFor, CommonSent;
    TaskParamIff(GetParam(m.vel, m.v), d.velx, q.vel);
    TaskParamIff(GetParam(m.acc, m.a), d.accx, q.acc);
    CommonIff(m, q.radius, q.mode, q.blendType, q.syncType);
  }

  // Which error

  /** A setter's error: a wrong value only for a list with an item that is not positive or,
      for `set_accj` but not for `set_velj`, a number that is not. */
  lemma JointDefaultErrors(a: Arg)
    ensures JointDefault(a, TypeError) == Err(ValueError) <==>
      a.List? && |a.items| == 6 && exists i :: 0 <= i < 6 && a.items[i] <= 0.0
    ensures JointDefault(a, ValueError) == Err(ValueError) <==>
      (a.List? && |a.items| == 6 && exists i :: 0 <= i < 6 && a.items[i] <= 0.0)
      || (IsNumber(a) && Number(a) <= 0.0)
    ensures JointDefault(a, TypeError) != Err(Raised) && JointDefault(a, ValueError) != Err(Raised)
  {
  }

  /** The first number is checked, type and value, before the second. */
  lemma TaskDefaultErrors(a1: Arg, a2: Arg)
    ensures TaskDefault(a1, a2) == Err(ValueError) <==>
      && IsNumber(a1)
      && (Number(a1) <= 0.0 || (IsNumber(a2) && Number(a2) <= 0.0 && Number(a2) != -10000.0))
    ensures TaskDefault(a1, a2) != Err(Raised)
  {
  }

  lemma RefCoordErrors(c: Arg)
    ensures RefCoord(c).Err? ==> RefCoord(c).error == if c.Int? then ValueError else TypeError
  {
  }

  /** What is wrong with one argument of a move: its type, if it is of none that is allowed;
      else its value. */
  lemma ParamErrors(a: Arg, joint: seq<real>, task: seq<real>, coord: int)
    requires |joint| == 6 && |task| == 2
    ensures JointParam(a, joint).Err? ==>
      JointParam(a, joint).error ==
        (if a == Absent || IsNumber(a) || (a.List? && |a.items| == 6) then ValueError else TypeError)
    ensures TaskParam(a, task).Err? ==>
      TaskParam(a, task).error ==
        (if a == Absent || IsNumber(a) || (a.List? && |a.items| == 2) then ValueError else TypeError)
    ensures TimeParam(a).Err? ==> TimeParam(a).error == if IsNumber(a) then ValueError else TypeError
    ensures RadiusParam(a).Err? ==> RadiusParam(a).error == if IsNumber(a) then ValueError else TypeError
    ensures FlagParam(a).Err? ==> FlagParam(a).error == if a.Int? then ValueError else TypeError
    ensures RefParam(a, coord).Err? ==>
      RefParam(a, coord).error == if a == Absent || a.Int? then ValueError else TypeError
  {
  }

  /** The error of a refused `movej` is the first in the order of the checks. */
  lemma MoveJError(d: Defaults, m: MoveArgs)
    requires Shaped(d)
    ensures
      var vel := JointParam(GetParam(m.vel, m.v), d.velj);
      var acc := JointParam(GetParam(m.acc, m.a), d.accj);
      var time := TimeParam(GetParam(m.time, m.t));
      var given := !(vel.Ok? && acc.Ok? && time.Ok?) || JointMotionGiven(vel.value, acc.value, time.value);
      ErrorOf(MoveJ(d, m)) ==
        OrElse(ErrorOf(GetPosj(m.pos)), OrElse(ErrorOf(vel), OrElse(ErrorOf(acc), OrElse(ErrorOf(time),
          OrElse(if given then None else Some(ValueError), OrElse(ErrorOf(RadiusParam(GetParam(m.radius, m.r))),
            OrElse(ErrorOf(FlagParam(m.mod)), ErrorOf(FlagParam(m.ra)))))))))
  {
    hide JointParam, TimeParam, RadiusParam, FlagParam, GetPosj, JointMotionGiven, GetParam;
  }

  /** And of a refused `movel`, which checks its reference after the radius. */
  lemma MoveLError(d: Defaults, m: MoveArgs)
    requires Shaped(d)
    ensures
      var vel := TaskParam(GetParam(m.vel, m.v), d.velx);
      var acc := TaskParam(GetParam(m.acc, m.a), d.accx);
      var time := TimeParam(GetParam(m.time, m.t));
      var given := !(vel.Ok? && acc.Ok? && time.Ok?) || TaskMotionGiven(vel.value, acc.value, time.value);
      ErrorOf(MoveL(d, m)) ==
        OrElse(ErrorOf(GetNormalPos(m.pos)), OrElse(ErrorOf(vel), OrElse(ErrorOf(acc), OrElse(ErrorOf(time),
          OrElse(if given then None else Some(ValueError), OrElse(ErrorOf(RadiusParam(GetParam(m.radius, m.r))),
            OrElse(ErrorOf(RefParam(m.ref, d.coord)),
              OrElse(ErrorOf(FlagParam(m.mod)), ErrorOf(FlagParam(m.ra))))))))))
  {
    hide TaskParam, TimeParam, RadiusParam, FlagParam, RefParam, GetNormalPos, TaskMotionGiven, GetParam;
  }

  /** Each short name stands in for its long one, and is ignored beside it. */
  lemma MoveJShortNames(d: Defaults, m: MoveArgs)
    requires Shaped(d)
    ensures MoveJ(d, m) == MoveJ(d, if m.vel == Absent then m.(vel := m.v, v := Absent) else m.(v := Absent))
    ensures MoveJ(d, m) == MoveJ(d, if m.acc == Absent then m.(acc := m.a, a := Absent) else m.(a := Absent))
    ensures MoveJ(d, m) == MoveJ(d, if m.time == Absent then m.(time := m.t, t := Absent) else m.(t := Absent))
    ensures MoveJ(d, m) == MoveJ(d, if m.radius == Absent then m.(radius := m.r, r := Absent) else m.(r := Absent))
  {
    hide JointParam, TimeParam, RadiusParam, FlagParam, GetPosj, JointMotionGiven;
  }

  lemma MoveLShortNames(d: Defaults, m: MoveArgs)
    requires Shaped(d)
    ensures MoveL(d, m) == MoveL(d, if m.vel == Absent then m.(vel := m.v, v := Absent) else m.(v := Absent))
    ensures MoveL(d, m) == MoveL(d, if m.acc == Absent then m.(acc := m.a, a := Absent) else m.(a := Absent))
    ensures MoveL(d, m) == MoveL(d, if m.time == Absent then m.(time := m.t, t := Absent) else m.(t := Absent))
    ensures MoveL(d, m) == MoveL(d, if m.radius == Absent then m.(radius := m.r, r := Absent) else m.(r := Absent))
  {
    hide TaskParam, TimeParam, RadiusParam, FlagParam, RefParam, GetNormalPos, TaskMotionGiven;
  }

  // The invariant of the defaults

  predicate AllZero(s: seq<real>) { forall i :: 0 <= i < |s| ==> s[i] == 0.0 }
  predicate AllPositive(s: seq<real>) { forall i :: 0 <= i < |s| ==> s[i] > 0.0 }

  /** Joint defaults are six zeros until set and six positive numbers after; task defaults
      are [0, -10000] until set and an acceptable pair after; the coordinate is allowed. */
  predicate DefaultsOk(d: Defaults, veljSet: bool, accjSet: bool, velxSet: bool, accxSet: bool) {
    && Shaped(d)
    && (if veljSet then AllPositive(d.velj) else AllZero(d.velj))
    && (if accjSet then AllPositive(d.accj) else AllZero(d.accj))
    && (if velxSet then Acceptable(d.velx) else d.velx == [0.0, -10000.0])
    && (if accxSet then Acceptable(d.accx) else d.accx == [0.0, -10000.0])
    && (0 <= d.coord <= 2 || 101 <= d.coord <= 200)
  }

  predicate VeljSet(calls: seq<Setter>) { exists i :: 0 <= i < |calls| && calls[i].SetVelj? && Succeeds(calls[i]) }
  predicate AccjSet(calls: seq<Setter>) { exists i :: 0 <= i < |calls| && calls[i].SetAccj? && Succeeds(calls[i]) }
  predicate VelxSet(calls: seq<Setter>) { exists i :: 0 <= i < |calls| && calls[i].SetVelx? && Succeeds(calls[i]) }
  predicate AccxSet(calls: seq<Setter>) { exists i :: 0 <= i < |calls| && calls[i].SetAccx? && Succeeds(calls[i]) }

  lemma AfterIsShaped(d: Defaults, c: Setter)
    requires Shaped(d)
    ensures Shaped(After(d, c))
  {
  }

  lemma SetSnoc(calls: seq<Setter>, c: Setter)
    ensures VeljSet(calls + [c]) <==> VeljSet(calls) || (c.SetVelj? && Succeeds(c))
    ensures AccjSet(calls + [c]) <==> AccjSet(calls) || (c.SetAccj? && Succeeds(c))
    ensures VelxSet(calls + [c]) <==> VelxSet(calls) || (c.SetVelx? && Succeeds(c))
    ensures AccxSet(calls + [c]) <==> AccxSet(calls) || (c.SetAccx? && Succeeds(c))
  {
    var all := calls + [c];
    assert all[|calls|] == c;
    assert forall i :: 0 <= i < |calls| ==> all[i] == calls[i];
  }

  lemma AfterKeeps(d: Defaults, c: Setter, vj: bool, aj: bool, vx: bool, ax: bool)
    requires DefaultsOk(d, vj, aj, vx, ax)
    ensures DefaultsOk(After(d, c), vj || (c.SetVelj? && Succeeds(c)), aj || (c.SetAccj? && Succeeds(c)),
                       vx || (c.SetVelx? && Succeeds(c)), ax || (c.SetAccx? && Succeeds(c)))
  {
  }

  /** After any sequence of setter calls, failed ones included. */
  lemma {:induction false} DefaultsInvariant(calls: seq<Setter>)
    ensures DefaultsOk(AfterAll(INITIAL, calls), VeljSet(calls), AccjSet(calls), VelxSet(calls), AccxSet(calls))
  {
    if calls != [] {
      var before, c := calls[..|calls| - 1], calls[|calls| - 1];
      DefaultsInvariant(before);
      AfterKeeps(AfterAll(INITIAL, before), c, VeljSet(before), AccjSet(before), VelxSet(before), AccxSet(before));
      SetSnoc(before, c);
      assert calls == before + [c];
    }
  }

  predicate SameSetter(b: Setter, c: Setter) {
    || (b.SetVelj? && c.SetVelj?) || (b.SetAccj? && c.SetAccj?)
    || (b.SetVelx? && c.SetVelx?) || (b.SetAccx? && c.SetAccx?)
    || (b.SetRefCoord? && c.SetRefCoord?)
  }

  /** `d` holds what the setter call was given. */
  predicate Holds(d: Defaults, c: Setter) {
    match c
    case SetVelj(a) => a != Absent && JointStandsFor(a, d.velj, d.velj)
    case SetAccj(a) => a != Absent && JointStandsFor(a, d.accj, d.accj)
    case SetVelx(a1, a2) => |d.velx| == 2 && Denotes(a1, d.velx[0]) && Denotes(a2, d.velx[1])
    case SetAccx(a1, a2) => |d.accx| == 2 && Denotes(a1, d.accx[0]) && Denotes(a2, d.accx[1])
    case SetRefCoord(c) => c == Int(d.coord)
  }

  lemma AfterHolds(d: Defaults, c: Setter)
    requires Succeeds(c)
    ensures Holds(After(d, c), c)
  {
    match c
    case SetVelj(a) => JointDefaultIff(a, TypeError, After(d, c).velj);
    case SetAccj(a) => JointDefaultIff(a, ValueError, After(d, c).accj);
    case SetVelx(a1, a2) => TaskDefaultIff(a1, a2, After(d, c).velx);
    case SetAccx(a1, a2) => TaskDefaultIff(a1, a2, After(d, c).accx);
    case SetRefCoord(_) =>
  }

  lemma OthersLeaveIt(d: Defaults, b: Setter, c: Setter)
    requires Holds(d, b) && (SameSetter(b, c) ==> !Succeeds(c))
    ensures Holds(After(d, c), b)
  {
    hide JointDefault, TaskDefault, JointStandsFor, RefCoord;
  }

  /** Each default is what the last successful call of its setter was given. */
  lemma {:induction false} DefaultsAreLast(calls: seq<Setter>, i: nat)
    requires i < |calls| && Succeeds(calls[i])
    requires forall j :: i < j < |calls| && SameSetter(calls[i], calls[j]) ==> !Succeeds(calls[j])
    ensures Holds(AfterAll(INITIAL, calls), calls[i])
  {
    var before, c := calls[..|calls| - 1], calls[|calls| - 1];
    var d := AfterAll(INITIAL, before);
    if i == |calls| - 1 {
      AfterHolds(d, c);
    } else {
      assert forall j :: 0 <= j < |before| ==> before[j] == calls[j];
      DefaultsAreLast(before, i);
      OthersLeaveIt(d, calls[i], c);
    }
  }

  lemma PoseOnlyMoveJ(d: Defaults, vj: bool, aj: bool, vx: bool, ax: bool, pos: Arg, async: bool)
    requires DefaultsOk(d, vj, aj, vx, ax) && GetPosj(pos).Ok?
    ensures var r := MoveJ(d, OnlyPose(pos, async));
      && (r.Ok? <==> vj && aj)
      && (r.Ok? ==> r.value.vel > 0.0 && r.value.acc > 0.0 && JointPose(pos, r.value.pos))
      && (r.Err? ==> r.error == ValueError)
  {
    assert vj ==> d.velj[0] != 0.0;
    assert aj ==> d.accj[0] != 0.0;
  }

  lemma PoseOnlyMoveL(d: Defaults, vj: bool, aj: bool, vx: bool, ax: bool, pos: Arg, async: bool)
    requires DefaultsOk(d, vj, aj, vx, ax) && GetNormalPos(pos).Ok?
    ensures var r := MoveL(d, OnlyPose(pos, async));
      && (r.Ok? <==> vx && ax)
      && (r.Ok? ==> r.value.vel == d.velx && r.value.acc == d.accx && r.value.ref == d.coord && Acceptable(d.velx))
      && (r.Err? ==> r.error == ValueError)
  {
  }

  /** A `movej` that gives only a valid pose is accepted exactly when a velocity and an
      acceleration default have each been set successfully; it then sends positive ones. */
  lemma DefaultMoveJIff(calls: seq<Setter>, pos: Arg, async: bool)
    requires GetPosj(pos).Ok?
    ensures var d := AfterAll(INITIAL, calls);
      && Shaped(d)
      && var r := MoveJ(d, OnlyPose(pos, async));
      && (r.Ok? <==> VeljSet(calls) && AccjSet(calls))
      && (r.Ok? ==> r.value.vel > 0.0 && r.value.acc > 0.0 && JointPose(pos, r.value.pos))
      && (r.Err? ==> r.error == ValueError)
  {
    hide MoveJ, VeljSet, AccjSet, VelxSet, AccxSet, AfterAll, GetPosj;
    DefaultsInvariant(calls);
    PoseOnlyMoveJ(AfterAll(INITIAL, calls), VeljSet(calls), AccjSet(calls), VelxSet(calls), AccxSet(calls), pos, async);
  }

  /** The same for `movel`; what it sends is the pair of defaults and the coordinate. */
  lemma DefaultMoveLIff(calls: seq<Setter>, pos: Arg, async: bool)
    requires GetNormalPos(pos).Ok?
    ensures var d := AfterAll(INITIAL, calls);
      && Shaped(d)
      && var r := MoveL(d, OnlyPose(pos, async));
      && (r.Ok? <==> VelxSet(calls) && AccxSet(calls))
      && (r.Ok? ==> r.value.vel == d.velx && r.value.acc == d.accx && r.value.ref == d.coord && Acceptable(d.velx))
      && (r.Err? ==> r.error == ValueError)
  {
    hide MoveL, VeljSet, AccjSet, VelxSet, AccxSet, AfterAll, GetNormalPos;
    DefaultsInvariant(calls);
    PoseOnlyMoveL(AfterAll(INITIAL, calls), VeljSet(calls), AccjSet(calls), VelxSet(calls), AccxSet(calls), pos, async);
  }

  /** No time is given, or one that stands for none. */
  predicate NoTime(m: MoveArgs) {
    var t := if m.time != Absent then m.time else m.t;
    t == Absent || Denotes(t, 0.0) || Denotes(t, -10000.0)
  }

  /** A list of six whose first item is zero. */
  predicate StartsWithZero(a: Arg) {
    a.List? && |a.items| == 6 && a.items[0] == 0.0
  }

  /** Exactly when a `movej` that is sent without a time stands still: after any setter
      calls, its speed is zero if and only if the caller gave a velocity list that starts
      with zero, and its acceleration likewise. The defaults, and a single number, never
      do this. */
  lemma MoveJStandsStillIff(calls: seq<Setter>, m: MoveArgs)
    ensures var d := AfterAll(INITIAL, calls);
      && Shaped(d)
      && (MoveJ(d, m).Ok? && NoTime(m) ==>
            var q := MoveJ(d, m).value;
            && (q.vel == 0.0 <==> StartsWithZero(if m.vel != Absent then m.vel else m.v)) && q.vel >= 0.0
            && (q.acc == 0.0 <==> StartsWithZero(if m.acc != Absent then m.acc else m.a)) && q.acc >= 0.0)
  {
    hide VeljSet, AccjSet, VelxSet, AccxSet, AfterAll;
    DefaultsInvariant(calls);
    var d := AfterAll(INITIAL, calls);
    if MoveJ(d, m).Ok? && NoTime(m) {
      StandsStill(d, VeljSet(calls), AccjSet(calls), VelxSet(calls), AccxSet(calls), m);
    }
  }

  lemma StandsStill(d: Defaults, vj: bool, aj: bool, vx: bool, ax: bool, m: MoveArgs)
    requires DefaultsOk(d, vj, aj, vx, ax)
    requires MoveJ(d, m).Ok? && NoTime(m)
    ensures var q := MoveJ(d, m).value;
      && (q.vel == 0.0 <==> StartsWithZero(if m.vel != Absent then m.vel else m.v)) && q.vel >= 0.0
      && (q.acc == 0.0 <==> StartsWithZero(if m.acc != Absent then m.acc else m.a)) && q.acc >= 0.0
  {
    var va, aa := GetParam(m.vel, m.v), GetParam(m.acc, m.a);
    var vel, acc := JointParam(va, d.velj).value, JointParam(aa, d.accj).value;
    FirstIsZeroIff(va, d.velj, vel);
    FirstIsZeroIff(aa, d.accj, acc);
  }

  /** Of six numbers that are not all zero, the first is, exactly if a list says so. */
  lemma FirstIsZeroIff(a: Arg, default: seq<real>, v: seq<real>)
    requires |default| == 6 && (AllZero(default) || AllPositive(default))
    requires JointParam(a, default) == Ok(v) && exists i :: 0 <= i < |v| && v[i] != 0.0
    ensures v[0] >= 0.0 && (v[0] == 0.0 <==> StartsWithZero(a))
  {
  }

  /** Such a motion, with neither speed nor time. */
  lemma MoveJCanStandStill(d: Defaults)
    requires Shaped(d)
    ensures
      var vel := List([0.0, 1.0, 0.0, 0.0, 0.0, 0.0]);
      var m := OnlyPose(List(Repeat(0.0, 6)), false).(vel := vel, acc := Int(1));
      MoveJ(d, m).Ok? && MoveJ(d, m).value.vel == 0.0 && MoveJ(d, m).value.time == 0.0
  {
    var vel := [0.0, 1.0, 0.0, 0.0, 0.0, 0.0];
    assert vel[1] != 0.0;
    assert Repeat(1.0, 6)[0] != 0.0;
  }

  // The module's globals

  class MotionModule {
    var velj: seq<real>
    var accj: seq<real>
    var velx: seq<real>
    var accx: seq<real>
    var coord: int
    ghost var calls: seq<Setter>   // the setter calls made so far

    function View(): Defaults
      reads this
    {
      Defaults(velj, accj, velx, accx, coord)
    }

    ghost predicate Valid()
      reads this
    {
      View() == AfterAll(INITIAL, calls) && Shaped(View())
    }

    constructor ()
      ensures Valid() && calls == []
    {
      velj, accj := Repeat(0.0, DR_VELJ_DT_LEN), Repeat(0.0, DR_VELJ_DT_LEN);
      velx, accx := [0.0, DR_COND_NONE], [0.0, DR_COND_NONE];
      coord := DR_BASE;
      calls := [];
    }

    ghost method Record(call: Setter)
      requires View() == After(AfterAll(INITIAL, calls), call)
      modifies this`calls
      ensures calls == old(calls) + [call] && View() == AfterAll(INITIAL, calls)
    {
      calls := calls + [call];
      assert calls[..|calls| - 1] == old(calls);
    }

    /** The checks of the two joint setters. */
    method CheckJoint(a: Arg, notPositive: Error) returns (r: Result<seq<real>>)
      ensures r == JointDefault(a, notPositive)
    {
      if IsNumber(a) {
        if Number(a) <= 0.0 { return Err(notPositive); }
        return Ok(Repeat(Number(a), DR_VELJ_DT_LEN));
      } else if a.List? && |a.items| == POINT_COUNT {
        for i := 0 to |a.items|
          invariant forall j :: 0 <= j < i ==> a.items[j] > 0.0
        {
          if a.items[i] <= 0.0 { return Err(ValueError); }
        }
        return Ok(a.items);
      } else {
        return Err(TypeError);
      }
    }

    /** The checks of the two task setters. */
    method CheckTask(a1: Arg, a2: Arg) returns (r: Result<seq<real>>)
      ensures r == TaskDefault(a1, a2)
    {
      if !IsNumber(a1) { return Err(TypeError); }
      if Number(a1) <= 0.0 { return Err(ValueError); }
      if !IsNumber(a2) { return Err(TypeError); }
      if Number(a2) != DR_COND_NONE {
        if Number(a2) <= 0.0 { return Err(ValueError); }
      }
      return Ok([Number(a1), Number(a2)]);
    }

    method SetVeljDefault(vel: Arg) returns (r: Result<()>)
      requires Valid()
      modifies this
      ensures Valid() && calls == old(calls) + [SetVelj(vel)]
      ensures View() == After(old(View()), SetVelj(vel))
      ensures r == if JointDefault(vel, TypeError).Ok? then Ok(()) else Err(JointDefault(vel, TypeError).error)
    {
      hide JointDefault, TaskDefault, AfterAll, Shaped;
      var checked := CheckJoint(vel, TypeError);
      AfterIsShaped(View(), SetVelj(vel));
      if checked.Ok? { velj := checked.value; }
      Record(SetVelj(vel));
      return if checked.Ok? then Ok(()) else Err(checked.error);
    }

    method SetAccjDefault(acc: Arg) returns (r: Result<()>)
      requires Valid()
      modifies this
      ensures Valid() && calls == old(calls) + [SetAccj(acc)]
      ensures View() == After(old(View()), SetAccj(acc))
      ensures r == if JointDefault(acc, ValueError).Ok? then Ok(()) else Err(JointDefault(acc, ValueError).error)
    {
      hide JointDefault, TaskDefault, AfterAll, Shaped;
      var checked := CheckJoint(acc, ValueError);
      AfterIsShaped(View(), SetAccj(acc));
      if checked.Ok? { accj := checked.value; }
      Record(SetAccj(acc));
      return if checked.Ok? then Ok(()) else Err(checked.error);
    }

    method SetVelxDefault(vel1: Arg, vel2: Arg) returns (r: Result<()>)
      requires Valid()
      modifies this
      ensures Valid() && calls == old(calls) + [SetVelx(vel1, vel2)]
      ensures View() == After(old(View()), SetVelx(vel1, vel2))
      ensures r == if TaskDefault(vel1, vel2).Ok? then Ok(()) else Err(TaskDefault(vel1, vel2).error)
    {
      hide JointDefault, TaskDefault, AfterAll, Shaped;
      var checked := CheckTask(vel1, vel2);
      AfterIsShaped(View(), SetVelx(vel1, vel2));
      if checked.Ok? { velx := checked.value; }
      Record(SetVelx(vel1, vel2));
      return if checked.Ok? then Ok(()) else Err(checked.error);
    }

    method SetAccxDefault(acc1: Arg, acc2: Arg) returns (r: Result<()>)
      requires Valid()
      modifies this
      ensures Valid() && calls == old(calls) + [SetAccx(acc1, acc2)]
      ensures View() == After(old(View()), SetAccx(acc1, acc2))
      ensures r == if TaskDefault(acc1, acc2).Ok? then Ok(()) else Err(TaskDefault(acc1, acc2).error)
    {
      hide JointDefault, TaskDefault, AfterAll, Shaped;
      var checked := CheckTask(acc1, acc2);
      AfterIsShaped(View(), SetAccx(acc1, acc2));
      if checked.Ok? { accx := checked.value; }
      Record(SetAccx(acc1, acc2));
      return if checked.Ok? then Ok(()) else Err(checked.error);
    }

    /** `serviceRaised`: the call of the service raised, so that there is no result to
        return; the coordinate is stored before that shows. */
    method SetRefCoordDefault(c: Arg, serviceRaised: bool, success: bool) returns (r: Result<int>)
      requires Valid()
      modifies this
      ensures Valid() && calls == old(calls) + [SetRefCoord(c)]
      ensures View() == After(old(View()), SetRefCoord(c))
      ensures r == if RefCoord(c).Err? then Err(RefCoord(c).error)
                   else if serviceRaised then Err(Raised) else Ok(if success then 0 else -1)
    {
      hide AfterAll, Shaped;
      AfterIsShaped(View(), SetRefCoord(c));
      if !c.Int? {
        r := Err(TypeError);
      } else if c.i != DR_BASE && c.i != DR_TOOL && c.i != DR_WORLD && !(DR_TC_USER_MIN <= c.i <= DR_TC_USER_MAX) {
        r := Err(ValueError);
      } else {
        coord := c.i;
        r := if serviceRaised then Err(Raised) else Ok(if success then 0 else -1);
      }
      Record(SetRefCoord(c));
    }
  }
}
