/** The MuJoCo and Gazebo bridges. Each sorts the joints of every incoming message,
    projects their positions onto a command, and publishes the command when it changed. */
module Bridges {
  import opened JointOrder
  import opened ChangeStream

  datatype Simulator = MuJoCo | Gazebo

  /** An effort may be not-a-number; positions and velocities are taken to be numbers. */
  datatype Effort = NaN | Value(r: real)

  datatype JointState = JointState(name: seq<string>, position: seq<real>, velocity: seq<real>, effort: seq<Effort>)

  type Command = seq<real>

  function KeyOf(sim: Simulator, name: string): Key {
    match sim
    case MuJoCo => SearchJoint(name)
    case Gazebo => SearchNumber(name)
  }

  function Keys(sim: Simulator, names: seq<string>): (k: seq<Key>)
    ensures |k| == |names|
  {
    seq(|names|, i requires 0 <= i < |names| => KeyOf(sim, names[i]))
  }

  /** There is a position, velocity and effort for every name; otherwise indexing raises. */
  predicate Complete(msg: JointState) {
    |msg.name| <= |msg.position| && |msg.name| <= |msg.velocity| && |msg.name| <= |msg.effort|
  }

  function Order(sim: Simulator, msg: JointState): (p: seq<nat>)
    ensures |p| == |msg.name| && forall a :: 0 <= a < |p| ==> p[a] < |msg.name|
  {
    SortedIndices(Keys(sim, msg.name))
  }

  /** The whole message in joint order, with efforts that are not numbers made zero. */
  function SortedMessage(sim: Simulator, msg: JointState): JointState
    requires Complete(msg)
  {
    var p := Order(sim, msg);
    JointState(Permute(msg.name, p), Permute(msg.position, p), Permute(msg.velocity, p),
               seq(|p|, a requires 0 <= a < |p| => Cleared(msg.effort[p[a]])))
  }

  function Cleared(e: Effort): Effort {
    if e == NaN then Value(0.0) else e
  }

  // The joint a p3020 does not have

  /** `sub in s` */
  predicate Contains(s: string, sub: string) {
    sub <= s || (s != "" && Contains(s[1..], sub))
  }

  /** `sub` stands in `s` at place `i`. */
  predicate OccursAt(s: string, sub: string, i: nat) {
    i + |sub| <= |s| && s[i..i + |sub|] == sub
  }

  /** `Contains` finds `sub` anywhere in `s`. */
  lemma {:induction false} ContainsIff(s: string, sub: string)
    ensures Contains(s, sub) <==> exists i: nat :: OccursAt(s, sub, i)
  {
    assert OccursAt(s, sub, 0) <==> sub <= s;
    if s != "" {
      ContainsIff(s[1..], sub);
      forall i: nat ensures OccursAt(s[1..], sub, i) <==> OccursAt(s, sub, i + 1) {
        assert i + 1 + |sub| <= |s| ==> s[1..][i..i + |sub|] == s[i + 1..i + 1 + |sub|];
      }
      if i: nat :| OccursAt(s, sub, i) {
        assert i > 0 ==> OccursAt(s[1..], sub, i - 1);
      }
    }
  }

  /** Where the first joint named like `joint_4` stands in `p`; `|p|` if there is none. */
  function FirstJoint4(p: seq<nat>, names: seq<string>): (k: nat)
    requires forall a :: 0 <= a < |p| ==> p[a] < |names|
    ensures k <= |p| && (k < |p| ==> Contains(names[p[k]], "joint_4"))
    ensures forall a :: 0 <= a < k ==> !Contains(names[p[a]], "joint_4")
  {
    if p == [] || Contains(names[p[0]], "joint_4") then 0 else 1 + FirstJoint4(p[1..], names)
  }

  /** `[i for i in p if i != x]` */
  function Without(p: seq<nat>, x: nat): (q: seq<nat>)
    ensures forall i: nat :: i in q <==> i in p && i != x
  {
    if p == [] then [] else (if p[0] != x then [p[0]] else []) + Without(p[1..], x)
  }

  function Kept(sim: Simulator, model: string, msg: JointState): (q: seq<nat>)
    ensures forall a :: 0 <= a < |q| ==> q[a] < |msg.name|
  {
    var p := Order(sim, msg);
    var k := FirstJoint4(p, msg.name);
    if model == "p3020" && k < |p| then
      var q := Without(p, p[k]);
      assert forall a :: 0 <= a < |q| ==> q[a] in p;
      q
    else p
  }

  function Projection(sim: Simulator, model: string, msg: JointState): Command
    requires Complete(msg)
  {
    Permute(msg.position, Kept(sim, model, msg))
  }

  lemma {:induction false} WithoutNothing(p: seq<nat>, x: nat)
    requires x !in p
    ensures Without(p, x) == p
  {
    if p != [] {
      WithoutNothing(p[1..], x);
    }
  }

  lemma {:induction false} WithoutOne(p: seq<nat>, k: nat)
    requires k < |p| && forall a, b :: 0 <= a < b < |p| ==> p[a] != p[b]
    ensures Without(p, p[k]) == p[..k] + p[k + 1..]
  {
    if k == 0 {
      WithoutNothing(p[1..], p[0]);
    } else {
      WithoutOne(p[1..], k - 1);
      assert p[..k] + p[k + 1..] == [p[0]] + (p[1..][..k - 1] + p[1..][k..]);
    }
  }

  /** The sorted message lists the joints in the one stable order by number, all four
      columns moved by the same permutation, so that none is lost or doubled. */
  lemma SortsMessage(sim: Simulator, msg: JointState)
    requires Complete(msg)
    ensures IsStableOrder(Keys(sim, msg.name), Order(sim, msg))
    ensures IsPermutation(Order(sim, msg), |msg.name|)
    ensures var p, out := Order(sim, msg), SortedMessage(sim, msg);
      forall a :: 0 <= a < |msg.name| ==>
        out.name[a] == msg.name[p[a]] && out.position[a] == msg.position[p[a]]
        && out.velocity[a] == msg.velocity[p[a]]
        && out.effort[a] == if msg.effort[p[a]].NaN? then Value(0.0) else msg.effort[p[a]]
    ensures multiset(SortedMessage(sim, msg).name) == multiset(msg.name)
    ensures multiset(SortedMessage(sim, msg).position) == multiset(msg.position[..|msg.name|])
  {
    var keys, p, n := Keys(sim, msg.name), Order(sim, msg), |msg.name|;
    SortedIsTheStableOrder(keys, p);
    SortedIsPermutation(keys);
    PermutedMultiset(msg.name, p);
    PermutedMultiset(msg.position[..n], p);
    assert Permute(msg.position[..n], p) == Permute(msg.position, p);
  }

  /** The command lists the positions in that order; on a p3020 the first joint named like
      `joint_4`, if there is one, and no other is taken out. */
  lemma ProjectsKept(sim: Simulator, model: string, msg: JointState)
    requires Complete(msg)
    ensures var p := Order(sim, msg);
      var k := FirstJoint4(p, msg.name);
      Kept(sim, model, msg) == (if model == "p3020" && k < |p| then p[..k] + p[k + 1..] else p)
  {
    var p := Order(sim, msg);
    var k := FirstJoint4(p, msg.name);
    SortedIsPermutation(Keys(sim, msg.name));
    if k < |p| {
      WithoutOne(p, k);
    }
  }

  /** The numbers of the command are the positions of the kept joints, in their order. */
  lemma CommandsPositions(sim: Simulator, model: string, msg: JointState, a: nat)
    requires Complete(msg) && a < |Kept(sim, model, msg)|
    ensures |Projection(sim, model, msg)| == |Kept(sim, model, msg)|
    ensures Projection(sim, model, msg)[a] == msg.position[Kept(sim, model, msg)[a]]
  {
  }

  // MuJoCo

  class MuJoCoBridge {
    const model: string
    var previousPositions: Command
    var firstCallback: bool
    var published: seq<Command>     // what the publisher was given
    ghost var heard: seq<Command>   // the projections of the messages handled

    ghost predicate Valid()
      reads this
    {
      && published == Changes(heard)
      && (firstCallback <==> heard == [])
      && (heard != [] ==> previousPositions == Last(heard))
    }

    constructor (model: string)
      ensures Valid() && this.model == model && heard == []
    {
      this.model := model;
      previousPositions, firstCallback, published, heard := [], true, [], [];
    }

    /** Handles one message; `ok` is false if it raised, and then nothing has changed. */
    method ListenerCallback(msg: JointState) returns (ok: bool)
      requires Valid()
      modifies this
      ensures Valid()
      ensures ok <==> |msg.name| <= |msg.position| && |msg.name| <= |msg.velocity| && |msg.name| <= |msg.effort|
      ensures !ok ==> unchanged(this)
      ensures ok ==> heard == old(heard) + [Projection(MuJoCo, model, msg)]
      ensures ok ==> previousPositions == Last(published) == Projection(MuJoCo, model, msg)
    {
      if !Complete(msg) { return false; }
      var sortedIndices := Kept(MuJoCo, model, msg);
      var positions := Permute(msg.position, sortedIndices);
      heard := heard + [positions];
      assert Front(heard) == old(heard) && Last(heard) == positions;
      if firstCallback || positions != previousPositions {
        published := published + [positions];
        previousPositions := positions;
        firstCallback := false;
      }
      return true;
    }
  }

  // Gazebo

  /** Whether the Gazebo bridge publishes `command` after `previous`. `emptyIsList` says
      whether an empty message field equals the empty list; that depends on the class
      generated for the message, which is not part of this model. */
  predicate GazeboPublishes(emptyIsList: bool, previous: Command, command: Command) {
    (emptyIsList && previous == []) || previous != command
  }

  function Previous(s: seq<Command>): Command {
    if s == [] then [] else Last(s)
  }

  /** What the Gazebo bridge publishes on a stream of commands. */
  function GazeboStream(emptyIsList: bool, s: seq<Command>): seq<Command> {
    if s == [] then []
    else
      var before := GazeboStream(emptyIsList, Front(s));
      if GazeboPublishes(emptyIsList, Previous(Front(s)), Last(s)) then before + [Last(s)] else before
  }

  lemma StreamSnoc(emptyIsList: bool, s: seq<Command>, c: Command)
    ensures var sent := GazeboStream(emptyIsList, s);
      GazeboStream(emptyIsList, s + [c]) ==
        (if GazeboPublishes(emptyIsList, Previous(s), c) then sent + [c] else sent)
    ensures Previous(s + [c]) == c
  {
    assert Front(s + [c]) == s;
  }

  class GazeboConnection {
    const model: string
    const emptyIsList: bool
    var currentPos: Command
    var commandMsg: Command
    var previousCommand: Command
    var publishedStates: seq<JointState>
    var published: seq<Command>
    ghost var heard: seq<Command>

    ghost predicate Valid()
      reads this
    {
      published == GazeboStream(emptyIsList, heard) && previousCommand == Previous(heard)
    }

    constructor (model: string, emptyIsList: bool)
      ensures Valid() && this.model == model && this.emptyIsList == emptyIsList && heard == []
    {
      this.model, this.emptyIsList := model, emptyIsList;
      currentPos, commandMsg, previousCommand := [], [], [];
      publishedStates, published, heard := [], [], [];
    }

    method SortJointStates(msg: JointState) returns (sortedMsg: JointState)
      requires Complete(msg)
      modifies this`currentPos, this`commandMsg
      ensures sortedMsg == SortedMessage(Gazebo, msg)
      ensures commandMsg == currentPos == Projection(Gazebo, model, msg)
    {
      sortedMsg := SortedMessage(Gazebo, msg);
      currentPos := Permute(msg.position, Kept(Gazebo, model, msg));
      commandMsg := currentPos;
    }

    /** Publishes the command if it changed. */
    method PublishCommand()
      requires Valid()
      modifies this`heard, this`published, this`previousCommand
      ensures Valid() && heard == old(heard) + [commandMsg] && previousCommand == commandMsg
    {
      StreamSnoc(emptyIsList, heard, commandMsg);
      heard := heard + [commandMsg];
      if (emptyIsList && previousCommand == []) || previousCommand != commandMsg {
        published := published + [commandMsg];
        previousCommand := commandMsg;
      }
    }

    /** Handles one message; `ok` is false if it raised, and then nothing has changed. */
    method ListenerCallback(msg: JointState) returns (ok: bool)
      requires Valid()
      modifies this
      ensures Valid()
      ensures ok <==> |msg.name| <= |msg.position| && |msg.name| <= |msg.velocity| && |msg.name| <= |msg.effort|
      ensures !ok ==> unchanged(this)
      ensures ok ==> heard == old(heard) + [Projection(Gazebo, model, msg)]
      ensures ok ==> publishedStates == old(publishedStates) + [SortedMessage(Gazebo, msg)]
      ensures ok ==> previousCommand == commandMsg == currentPos == Projection(Gazebo, model, msg)
    {
      if !Complete(msg) { return false; }
      var sortedMsg := SortJointStates(msg);
      publishedStates := publishedStates + [sortedMsg];
      PublishCommand();
      return true;
    }
  }

  // Agreement

  /** The only streams on which publish-on-change and the Gazebo bridge differ: an empty
      command repeated, if an empty field equals a list; an empty first command, if not. */
  predicate EmptyTrouble(emptyIsList: bool, s: seq<Command>) {
    if emptyIsList then exists i :: 0 < i < |s| && s[i - 1] == [] && s[i] == []
    else s != [] && s[0] == []
  }

  lemma TroubleSnoc(emptyIsList: bool, s: seq<Command>)
    requires s != []
    ensures EmptyTrouble(emptyIsList, s) <==>
      EmptyTrouble(emptyIsList, Front(s))
      || (Last(s) == [] && if emptyIsList then Front(s) != [] && Last(Front(s)) == [] else Front(s) == [])
  {
    var f := Front(s);
    assert forall i :: 0 <= i < |f| ==> f[i] == s[i];
    if emptyIsList && EmptyTrouble(emptyIsList, s) {
      var i :| 0 < i < |s| && s[i - 1] == [] && s[i] == [];
      if i < |f| { assert f[i - 1] == [] && f[i] == []; }
    }
  }

  /** Without trouble the two streams are equal; with it they have different lengths. */
  lemma {:induction false} StreamsCompared(emptyIsList: bool, s: seq<Command>)
    ensures !EmptyTrouble(emptyIsList, s) ==> GazeboStream(emptyIsList, s) == Changes(s)
    ensures EmptyTrouble(emptyIsList, s) ==>
      var sent := |GazeboStream(emptyIsList, s)|;
      if emptyIsList then sent > |Changes(s)| else sent + 1 == |Changes(s)|
  {
    if s != [] {
      StreamsCompared(emptyIsList, Front(s));
      TroubleSnoc(emptyIsList, s);
    }
  }

  function Projections(sim: Simulator, model: string, msgs: seq<JointState>): (s: seq<Command>)
    requires forall i :: 0 <= i < |msgs| ==> Complete(msgs[i])
    ensures |s| == |msgs|
  {
    seq(|msgs|, i requires 0 <= i < |msgs| => Projection(sim, model, msgs[i]))
  }

  /** The messages after whose sorting the two bridges keep the same joints in the same
      order; the numbers read need not be the same. */
  ghost predicate SameOrders(model: string, msgs: seq<JointState>) {
    forall i :: 0 <= i < |msgs| ==> Kept(MuJoCo, model, msgs[i]) == Kept(Gazebo, model, msgs[i])
  }

  /** As they do if both read the same number from every name. */
  lemma SameKeysSameOrders(model: string, msgs: seq<JointState>)
    requires forall i, j :: 0 <= i < |msgs| && 0 <= j < |msgs[i].name| ==>
      KeyOf(MuJoCo, msgs[i].name[j]) == KeyOf(Gazebo, msgs[i].name[j])
    ensures SameOrders(model, msgs)
  {
    forall i | 0 <= i < |msgs| ensures Kept(MuJoCo, model, msgs[i]) == Kept(Gazebo, model, msgs[i]) {
      assert Keys(MuJoCo, msgs[i].name) == Keys(Gazebo, msgs[i].name);
    }
  }

  /** A message whose command is empty: it names no joint, or only the one a p3020 does
      not have. */
  predicate NothingToCommand(model: string, msg: JointState) {
    msg.name == [] || (model == "p3020" && |msg.name| == 1 && Contains(msg.name[0], "joint_4"))
  }

  lemma EmptyProjectionIff(sim: Simulator, model: string, msg: JointState)
    requires Complete(msg)
    ensures Projection(sim, model, msg) == [] <==> NothingToCommand(model, msg)
  {
    ProjectsKept(sim, model, msg);
    var p := Order(sim, msg);
    if |p| == 1 {
      assert p[0] == 0;
    }
  }

  /** The messages the bridges differ on: two in a row with nothing to command, if an empty
      field equals a list; a first one with nothing to command, if not. */
  predicate TroubleMessages(emptyIsList: bool, model: string, msgs: seq<JointState>) {
    if emptyIsList then
      exists i :: 0 < i < |msgs| && NothingToCommand(model, msgs[i - 1]) && NothingToCommand(model, msgs[i])
    else msgs != [] && NothingToCommand(model, msgs[0])
  }

  lemma TroubleIff(emptyIsList: bool, model: string, msgs: seq<JointState>)
    requires forall i :: 0 <= i < |msgs| ==> Complete(msgs[i])
    ensures EmptyTrouble(emptyIsList, Projections(MuJoCo, model, msgs)) <==> TroubleMessages(emptyIsList, model, msgs)
  {
    var s := Projections(MuJoCo, model, msgs);
    forall i | 0 <= i < |msgs| ensures s[i] == [] <==> NothingToCommand(model, msgs[i]) {
      EmptyProjectionIff(MuJoCo, model, msgs[i]);
    }
  }

  /** On messages that both bridges sort alike, the two simulators are sent the same
      commands exactly when there are no trouble messages. */
  lemma BridgesAgreeIff(model: string, emptyIsList: bool, msgs: seq<JointState>)
    requires forall i :: 0 <= i < |msgs| ==> Complete(msgs[i])
    requires SameOrders(model, msgs)
    ensures Changes(Projections(MuJoCo, model, msgs)) == GazeboStream(emptyIsList, Projections(Gazebo, model, msgs))
      <==> !TroubleMessages(emptyIsList, model, msgs)
  {
    assert Projections(MuJoCo, model, msgs) == Projections(Gazebo, model, msgs);
    StreamsCompared(emptyIsList, Projections(MuJoCo, model, msgs));
    TroubleIff(emptyIsList, model, msgs);
  }

  /** Two messages without joints are such messages, whatever an empty field equals. */
  lemma BridgesDiffer(model: string, emptyIsList: bool)
    ensures var msgs := [JointState([], [], [], []), JointState([], [], [], [])];
      Changes(Projections(MuJoCo, model, msgs)) != GazeboStream(emptyIsList, Projections(Gazebo, model, msgs))
  {
    var msgs := [JointState([], [], [], []), JointState([], [], [], [])];
    assert 0 < 1 < |msgs| && NothingToCommand(model, msgs[1 - 1]) && NothingToCommand(model, msgs[1]);
    BridgesAgreeIff(model, emptyIsList, msgs);
  }

  lemma SortTwo(keys: seq<Key>)
    requires |keys| == 2
    ensures Less(keys[0], keys[1]) ==> SortedIndices(keys) == [0, 1]
    ensures Less(keys[1], keys[0]) ==> SortedIndices(keys) == [1, 0]
  {
    hide SortedIndices;
    SortedIsTheStableOrder(keys, [0, 1]);
    SortedIsTheStableOrder(keys, [1, 0]);
  }

  const CROSSED := JointState(["r2_joint_1", "r1_joint_2"], [5.0, 7.0], [0.0, 0.0], [Value(0.0), Value(0.0)])

  lemma CrossedKeys()
    ensures Keys(MuJoCo, CROSSED.name) == [Num(1), Num(2)] && Keys(Gazebo, CROSSED.name) == [Num(2), Num(1)]
  {
    hide SearchJoint, SearchNumber;
    KeysOf('2', '1');
    KeysOf('1', '2');
    assert "r" + ['2'] + "_joint_" + ['1'] == CROSSED.name[0];
    assert "r" + ['1'] + "_joint_" + ['2'] == CROSSED.name[1];
  }

  lemma PermuteTwo<T>(xs: seq<T>)
    requires |xs| == 2
    ensures Permute(xs, [0, 1]) == xs && Permute(xs, [1, 0]) == [xs[1], xs[0]]
  {
  }

  lemma CrossedCommands()
    ensures Complete(CROSSED)
    ensures Permute(CROSSED.position, Order(MuJoCo, CROSSED)) == [5.0, 7.0]
    ensures Permute(CROSSED.position, Order(Gazebo, CROSSED)) == [7.0, 5.0]
  {
    hide Keys, SortedIndices, Permute;
    CrossedKeys();
    SortTwo(Keys(MuJoCo, CROSSED.name));
    SortTwo(Keys(Gazebo, CROSSED.name));
    PermuteTwo(CROSSED.position);
  }

  /** One message whose joints the bridges number differently, and so command differently. */
  lemma OrdersDiffer(emptyIsList: bool)
    ensures Complete(CROSSED)
    ensures Changes(Projections(MuJoCo, "m1013", [CROSSED])) == [[5.0, 7.0]]
    ensures GazeboStream(emptyIsList, Projections(Gazebo, "m1013", [CROSSED])) == [[7.0, 5.0]]
  {
    CrossedCommands();
    hide *;
    OneMessage(emptyIsList, MuJoCo, CROSSED, [5.0, 7.0]);
    OneMessage(emptyIsList, Gazebo, CROSSED, [7.0, 5.0]);
  }

  /** What either bridge sends for a single message. */
  lemma OneMessage(emptyIsList: bool, sim: Simulator, msg: JointState, command: Command)
    requires Complete(msg) && Permute(msg.position, Order(sim, msg)) == command && command != []
    ensures var s := Projections(sim, "m1013", [msg]); Changes(s) == GazeboStream(emptyIsList, s) == [command]
  {
    var s := Projections(sim, "m1013", [msg]);
    assert s == [command] && Front(s) == [];
  }
}
