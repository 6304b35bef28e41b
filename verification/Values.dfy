/** Argument values as the motion commands see them, and the results of validating them. */
module Values {

  datatype Option<+T> = None | Some(value: T)

  /** `DR_ERROR_TYPE`, `DR_ERROR_VALUE`, and an exception of the language itself. */
  datatype Error = TypeError | ValueError | Raised

  datatype Result<+T> = Ok(value: T) | Err(error: Error) {
    predicate IsFailure() { Err? }

    function PropagateFailure<U>(): Result<U>
      requires Err?
    {
      Err(error)
    }

    function Extract(): T
      requires Ok?
    {
      value
    }
  }

  function ErrorOf<T>(r: Result<T>): Option<Error> {
    match r
    case Ok(_) => None
    case Err(e) => Some(e)
  }

  /** The first of two errors. */
  function OrElse(a: Option<Error>, b: Option<Error>): Option<Error> {
    if a.Some? then a else b
  }

  const POINT_COUNT := 6

  /** What a `posj` or a `posx` holds. */
  type Pose = p: seq<real> | |p| == POINT_COUNT witness [0.0, 0.0, 0.0, 0.0, 0.0, 0.0]

  /** A Python value, as far as the commands tell values apart: `None`, an `int`, a
      `float`, a `bool`, a `list`, a `posj`, a `posx`, or anything else. List items are
      numbers. */
  datatype Arg =
    | Absent
    | Int(i: int)
    | Float(f: real)
    | Bool(b: bool)
    | List(items: seq<real>)
    | PosJ(joints: Pose)
    | PosX(task: Pose)
    | Other

  /** `type(a) == int or type(a) == float`, which a `bool` is not. */
  predicate IsNumber(a: Arg) { a.Int? || a.Float? }

  /** The argument is the number `x`, as an `int` or as a `float`. */
  predicate Denotes(a: Arg, x: real) {
    match a
    case Int(i) => x == i as real
    case Float(f) => x == f
    case _ => false
  }

  function Number(a: Arg): (x: real)
    requires IsNumber(a)
    ensures Denotes(a, x)
  {
    if a.Int? then a.i as real else a.f
  }

  /** `get_param(x, y)` */
  function GetParam(x: Arg, y: Arg): Arg {
    if x != Absent then x else y
  }

  const DR_COND_NONE: real := -10000.0

  function Repeat(x: real, n: nat): (s: seq<real>)
    ensures |s| == n && forall i :: 0 <= i < n ==> s[i] == x
  {
    seq(n, _ => x)
  }

  /** The argument is a list of six items. */
  predicate IsSixList(a: Arg) { a.List? && |a.items| == POINT_COUNT }

  /** `p` holds the six numbers of a `posj`, or of a list. */
  predicate JointPose(a: Arg, p: Pose) {
    if a.PosJ? then p == a.joints else a.List? && p == a.items
  }

  /** `p` holds the six numbers of a `posx`, or of a list. */
  predicate TaskPose(a: Arg, p: Pose) {
    if a.PosX? then p == a.task else a.List? && p == a.items
  }

  /** `get_posj(pos)` */
  function GetPosj(pos: Arg): (r: Result<Pose>)
    ensures r.Err? ==> r.error == TypeError
  {
    if pos.PosJ? then Ok(pos.joints) else if IsSixList(pos) then Ok(pos.items) else Err(TypeError)
  }

  /** `get_posx(pos)` */
  function GetPosx(pos: Arg): (r: Result<Pose>)
    ensures r.Err? ==> r.error == TypeError
  {
    if pos.PosX? then Ok(pos.task) else if IsSixList(pos) then Ok(pos.items) else Err(TypeError)
  }

  /** `get_normal_pos(pos, def_type=posx)` */
  function GetNormalPos(pos: Arg): (r: Result<Pose>)
    ensures r.Err? ==> r.error == TypeError
  {
    if pos.PosJ? then Ok(pos.joints) else GetPosx(pos)
  }
}
