/** `calc_coord`, which takes its poses, reference and mode positionally, by keyword, or
    partly both, and sorts the cases out by counting. */
module CalcCoord {
  import opened Values

  const DR_BASE := 0
  const DR_WORLD := 2

  /** The names of keyword arguments. */
  datatype Name = X1 | X2 | X3 | X4 | Ref | Mod | Unknown(name: string)

  datatype Request = Request(cnt: int, x1: seq<real>, x2: seq<real>, x3: seq<real>, x4: seq<real>, ref: Arg, mod: Arg)

  const ZERO_POSE := List(Repeat(0.0, 6))

  /** `get_kargs(kargs, name)` */
  function Keyword(kargs: map<Name, Arg>, name: Name): Arg {
    if name in kargs then kargs[name] else Absent
  }

  function OrZero(a: Arg): Arg {
    if a == Absent then ZERO_POSE else a
  }

  function Nth(args: seq<Arg>, i: nat, default: Arg): Arg {
    if i < |args| then args[i] else default
  }

  /** `a == n`; `False` and `True` are equal to 0 and 1. */
  predicate IsValue(a: Arg, n: int) {
    (IsNumber(a) && Number(a) == n as real) || (a.Bool? && n == if a.b then 1 else 0)
  }

  /** What the arguments resolve to: the count of poses, the four poses, `ref` and `mod`. */
  datatype Resolved = Resolved(cnt: int, x1: Arg, x2: Arg, x3: Arg, x4: Arg, ref: Arg, mod: Arg)

  function Resolve(args: seq<Arg>, kargs: map<Name, Arg>): Result<Resolved> {
    var x1, x2 := OrZero(Keyword(kargs, X1)), OrZero(Keyword(kargs, X2));
    var x3, x4 := OrZero(Keyword(kargs, X3)), OrZero(Keyword(kargs, X4));
    var ref, mod := Keyword(kargs, Ref), Keyword(kargs, Mod);
    if exists key <- kargs.Keys :: key.Unknown? then Err(TypeError)
    else if |args| == 0 && 3 <= |kargs| <= 6 then
      Ok(Resolved(|kargs| - 2, x1, x2, x3, x4, ref, mod))
    else if 1 <= |args| <= 4 && |kargs| == 2 then
      Ok(Resolved(|args|, args[0], Nth(args, 1, x2), Nth(args, 2, x3), Nth(args, 3, x4), ref, mod))
    else if 3 <= |args| <= 6 && |kargs| == 0 then
      var k := |args| - 2;
      var poses := args[..k];
      Ok(Resolved(k, args[0], Nth(poses, 1, x2), Nth(poses, 2, x3), Nth(poses, 3, x4), args[k], args[k + 1]))
    else Err(TypeError)
  }

  /** `get_posx`, skipped for `None`, which then fails when its items are read. */
  function Checked(a: Arg): Result<()> {
    if a == Absent then Ok(()) else var p :- GetPosx(a); Ok(())
  }

  function Items(a: Arg): Result<seq<real>> {
    match a
    case List(items) => Ok(items)
    case PosX(p) => Ok(p)
    case PosJ(p) => Ok(p)
    case _ => Err(Raised)
  }

  function Build(r: Resolved): Result<Request> {
    var _ :- Checked(r.x1);
    var _ :- Checked(r.x2);
    var _ :- Checked(r.x3);
    var _ :- Checked(r.x4);
    if r.ref != Absent && !IsValue(r.ref, DR_BASE) && !IsValue(r.ref, DR_WORLD) then Err(ValueError)
    else if r.mod != Absent && !IsValue(r.mod, 0) && !IsValue(r.mod, 1) then Err(ValueError)
    else
      var x1 :- Items(r.x1);
      var x2 :- Items(r.x2);
      var x3 :- Items(r.x3);
      var x4 :- Items(r.x4);
      Ok(Request(r.cnt, x1, x2, x3, x4, r.ref, r.mod))
  }

  /** `calc_coord(*args, **kargs)`, up to the request. */
  function CalcCoord(args: seq<Arg>, kargs: map<Name, Arg>): Result<Request> {
    var r :- Resolve(args, kargs);
    Build(r)
  }

  // The three ways to call it with the same poses

  function PoseKeywords(poses: seq<Arg>): map<Name, Arg>
    requires 1 <= |poses| <= 4
  {
    if |poses| == 1 then map[X1 := poses[0]]
    else if |poses| == 2 then map[X1 := poses[0], X2 := poses[1]]
    else if |poses| == 3 then map[X1 := poses[0], X2 := poses[1], X3 := poses[2]]
    else map[X1 := poses[0], X2 := poses[1], X3 := poses[2], X4 := poses[3]]
  }

  function RefMod(ref: Arg, mod: Arg): map<Name, Arg> {
    map[Ref := ref, Mod := mod]
  }

  function AllKeyword(poses: seq<Arg>, ref: Arg, mod: Arg): Result<Request>
    requires 1 <= |poses| <= 4
  {
    CalcCoord([], PoseKeywords(poses) + RefMod(ref, mod))
  }

  function PosesThenKeywords(poses: seq<Arg>, ref: Arg, mod: Arg): Result<Request> {
    CalcCoord(poses, RefMod(ref, mod))
  }

  function AllPositional(poses: seq<Arg>, ref: Arg, mod: Arg): Result<Request> {
    CalcCoord(poses + [ref, mod], map[])
  }

  /** The request the call stands for: the poses in order, zeros after them. */
  function Meant(poses: seq<Arg>, ref: Arg, mod: Arg): Resolved
    requires 1 <= |poses| <= 4
  {
    Resolved(|poses|, poses[0], Nth(poses, 1, ZERO_POSE), Nth(poses, 2, ZERO_POSE), Nth(poses, 3, ZERO_POSE),
             ref, mod)
  }

  /** Which numbers of arguments are accepted, and the count of poses each stands for. */
  lemma AcceptedIff(args: seq<Arg>, kargs: map<Name, Arg>, k: int)
    ensures (Resolve(args, kargs).Ok? && Resolve(args, kargs).value.cnt == k)
      <==> (forall key :: key in kargs ==> !key.Unknown?) && 1 <= k <= 4
           && (|args|, |kargs|) in {(0, k + 2), (k, 2), (k + 2, 0)}
    ensures Resolve(args, kargs).Err? ==> Resolve(args, kargs).error == TypeError
  {
  }

  lemma ResolvesPosesThenKeywords(poses: seq<Arg>, ref: Arg, mod: Arg)
    requires 1 <= |poses| <= 4
    ensures Resolve(poses, RefMod(ref, mod)) == Ok(Meant(poses, ref, mod))
  {
    var kw := RefMod(ref, mod);
    assert kw.Keys == {Ref, Mod};
    assert |kw| == |kw.Keys|;
  }

  lemma ResolvesPositional(poses: seq<Arg>, ref: Arg, mod: Arg)
    requires 1 <= |poses| <= 4
    ensures Resolve(poses + [ref, mod], map[]) == Ok(Meant(poses, ref, mod))
  {
    var args := poses + [ref, mod];
    assert args[..|args| - 2] == poses;
    var none: map<Name, Arg> := map[];
    assert none.Keys == {} && |none| == 0;
  }

  /** A pose given as `None` by keyword counts as not given. */
  function Zeroed(poses: seq<Arg>): (z: seq<Arg>)
    ensures |z| == |poses| && forall i :: 0 <= i < |poses| ==> z[i] == OrZero(poses[i])
  {
    seq(|poses|, i requires 0 <= i < |poses| => OrZero(poses[i]))
  }

  lemma KeywordLookups(poses: seq<Arg>, ref: Arg, mod: Arg)
    requires 1 <= |poses| <= 4
    ensures var kw := PoseKeywords(poses) + RefMod(ref, mod);
      && (forall key :: key in kw ==> !key.Unknown?)
      && Keyword(kw, X1) == poses[0] && Keyword(kw, X2) == Nth(poses, 1, Absent)
      && Keyword(kw, X3) == Nth(poses, 2, Absent) && Keyword(kw, X4) == Nth(poses, 3, Absent)
      && Keyword(kw, Ref) == ref && Keyword(kw, Mod) == mod
  {
  }

  lemma TotalCount(poses: seq<Arg>, ref: Arg, mod: Arg)
    requires 1 <= |poses| <= 4
    ensures |PoseKeywords(poses) + RefMod(ref, mod)| == |poses| + 2
  {
    var k := PoseKeywords(poses);
    var kw := k + RefMod(ref, mod);
    KeywordCount(poses);
    assert kw.Keys == k.Keys + {Ref, Mod};
    assert |kw| == |kw.Keys|;
    assert k.Keys !! {Ref, Mod};
    assert |kw.Keys| == |k.Keys| + 2;
  }

  lemma ResolvesKeywords(poses: seq<Arg>, ref: Arg, mod: Arg)
    requires 1 <= |poses| <= 4
    ensures Resolve([], PoseKeywords(poses) + RefMod(ref, mod)) == Ok(Meant(Zeroed(poses), ref, mod))
  {
    hide PoseKeywords, RefMod, Keyword;
    KeywordLookups(poses, ref, mod);
    TotalCount(poses, ref, mod);
  }

  lemma KeywordCount(poses: seq<Arg>)
    requires 1 <= |poses| <= 4
    ensures |PoseKeywords(poses).Keys| == |poses|
    ensures PoseKeywords(poses).Keys <= {X1, X2, X3, X4}
  {
    var keys := PoseKeywords(poses).Keys;
    if |poses| == 1 { assert keys == {X1}; }
    else if |poses| == 2 { assert keys == {X1, X2}; }
    else if |poses| == 3 { assert keys == {X1, X2, X3}; }
    else { assert keys == {X1, X2, X3, X4}; }
  }

  lemma {:induction false} NoneIsZeroed(poses: seq<Arg>)
    ensures Absent !in poses ==> Zeroed(poses) == poses
  {
    if Absent !in poses {
      forall i | 0 <= i < |poses| ensures Zeroed(poses)[i] == poses[i] { assert poses[i] in poses; }
    }
  }

  /** A `None` among the poses fails when its items are read, unless the call failed
      before that for another reason, which it then would with zeros in its place too. */
  lemma NonePoseFails(poses: seq<Arg>, ref: Arg, mod: Arg)
    requires 1 <= |poses| <= 4 && Absent in poses
    ensures Build(Meant(poses, ref, mod)).Err?
    ensures Build(Meant(Zeroed(poses), ref, mod)).Err? ==>
      Build(Meant(Zeroed(poses), ref, mod)) == Build(Meant(poses, ref, mod))
  {
    hide Zeroed, Repeat, IsValue;
  }

  /** The call is refused whatever is put in the place of a `None` pose: `ref` or `mod` is
      out of range, or a pose is neither a `posx` nor a list of six. */
  predicate Refused(poses: seq<Arg>, ref: Arg, mod: Arg) {
    || (ref != Absent && !EqualsSmall(ref, 0) && !EqualsSmall(ref, 2))
    || (mod != Absent && !EqualsSmall(mod, 0) && !EqualsSmall(mod, 1))
    || exists i :: 0 <= i < |poses| && poses[i] != Absent && !IsTaskPose(poses[i])
  }

  /** The argument is `n`, as an `int`, as a `float`, or, if `n` is 0 or 1, as a `bool`. */
  predicate EqualsSmall(a: Arg, n: int) {
    match a
    case Int(i) => i == n
    case Float(f) => f == n as real
    case Bool(b) => n == if b then 1 else 0
    case _ => false
  }

  predicate IsTaskPose(a: Arg) {
    a.PosX? || (a.List? && |a.items| == 6)
  }

  /** Which calls with poses that are not `None` are refused. */
  lemma RefusedIff(poses: seq<Arg>, ref: Arg, mod: Arg)
    requires 1 <= |poses| <= 4
    ensures Build(Meant(Zeroed(poses), ref, mod)).Err? <==> Refused(poses, ref, mod)
  {
    hide Repeat, IsValue, EqualsSmall;
    var z := Zeroed(poses);
    forall i | 0 <= i < |poses|
      ensures GetPosx(z[i]).Err? <==> poses[i] != Absent && !IsTaskPose(poses[i])
    {
    }
    SameNumber(ref);
    SameNumber(mod);
    PosesAccepted(z, ref, mod);
  }

  lemma SameNumber(a: Arg)
    ensures IsValue(a, 0) <==> EqualsSmall(a, 0)
    ensures IsValue(a, 1) <==> EqualsSmall(a, 1)
    ensures IsValue(a, 2) <==> EqualsSmall(a, 2)
  {
  }

  lemma PosesAccepted(z: seq<Arg>, ref: Arg, mod: Arg)
    requires 1 <= |z| <= 4 && Absent !in z
    ensures Build(Meant(z, ref, mod)).Ok? <==>
      && (forall i :: 0 <= i < |z| ==> GetPosx(z[i]).Ok?)
      && (ref == Absent || IsValue(ref, DR_BASE) || IsValue(ref, DR_WORLD))
      && (mod == Absent || IsValue(mod, 0) || IsValue(mod, 1))
  {
    hide Repeat, IsValue;
  }

  /** `x` holds the six numbers of the pose. */
  predicate HoldsPose(a: Arg, x: seq<real>) {
    |x| == 6 && if a.PosX? then x == a.task else a.List? && x == a.items
  }

  predicate SixZeros(x: seq<real>) {
    |x| == 6 && forall i :: 0 <= i < 6 ==> x[i] == 0.0
  }

  /** The request carries the count, the numbers of the poses in order, and zeros after
      them. */
  predicate Carries(q: Request, poses: seq<Arg>) {
    && q.cnt == |poses|
    && forall i :: 0 <= i < 4 ==>
      var x := [q.x1, q.x2, q.x3, q.x4][i];
      if i < |poses| then HoldsPose(poses[i], x) else SixZeros(x)
  }

  lemma BuildCarries(poses: seq<Arg>, ref: Arg, mod: Arg)
    requires 1 <= |poses| <= 4 && Build(Meant(poses, ref, mod)).Ok?
    ensures Carries(Build(Meant(poses, ref, mod)).value, poses)
    ensures Build(Meant(poses, ref, mod)).value.ref == ref && Build(Meant(poses, ref, mod)).value.mod == mod
  {
  }

  /** The call forms are equivalent: for one to four poses, whatever the arguments, the two
      positional forms give the same result, and the all-keyword form gives that result
      too exactly when no pose is `None` or the call is refused anyway. */
  lemma CallFormsIff(poses: seq<Arg>, ref: Arg, mod: Arg)
    requires 1 <= |poses| <= 4
    ensures PosesThenKeywords(poses, ref, mod) == AllPositional(poses, ref, mod)
    ensures AllKeyword(poses, ref, mod) == AllPositional(poses, ref, mod)
      <==> Absent !in poses || Refused(poses, ref, mod)
    ensures var r := AllPositional(poses, ref, mod);
      r.Ok? ==> Carries(r.value, poses) && r.value.ref == ref && r.value.mod == mod
  {
    hide Resolve, Build, Meant, Carries, Zeroed, PoseKeywords, RefMod, Refused;
    ResolvesPosesThenKeywords(poses, ref, mod);
    ResolvesPositional(poses, ref, mod);
    ResolvesKeywords(poses, ref, mod);
    NoneIsZeroed(poses);
    RefusedIff(poses, ref, mod);
    if Absent in poses {
      NonePoseFails(poses, ref, mod);
    } else if Build(Meant(poses, ref, mod)).Ok? {
      BuildCarries(poses, ref, mod);
    }
  }

  /** Which error a refused call gives: the type of a pose first, then the value of `ref` or
      `mod`, and last the exception for a pose that is `None`. */
  lemma PositionalErrors(poses: seq<Arg>, ref: Arg, mod: Arg)
    requires 1 <= |poses| <= 4
    ensures var badPose := exists i :: 0 <= i < |poses| && poses[i] != Absent && !IsTaskPose(poses[i]);
      AllPositional(poses, ref, mod).Err? ==>
        AllPositional(poses, ref, mod).error ==
          (if badPose then TypeError else if Refused(poses, ref, mod) then ValueError else Raised)
    ensures AllPositional(poses, ref, mod).Err? <==> Absent in poses || Refused(poses, ref, mod)
  {
    hide Repeat, IsValue, EqualsSmall, Resolve;
    ResolvesPositional(poses, ref, mod);
    SameNumber(ref);
    SameNumber(mod);
  }

  /** The difference: one `None` pose is taken for zeros by keyword and fails by position. */
  lemma CallFormsDiffer()
    ensures AllKeyword([Absent], Int(0), Int(0)).Ok?
    ensures AllPositional([Absent], Int(0), Int(0)) == Err(Raised)
  {
    var poses := [Absent];
    CallFormsIff(poses, Int(0), Int(0));
    ResolvesKeywords(poses, Int(0), Int(0));
    ResolvesPositional(poses, Int(0), Int(0));
    RefusedIff(poses, Int(0), Int(0));
    NonePoseFails(poses, Int(0), Int(0));
  }
}
