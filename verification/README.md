# Models of the Doosan ROS 2 driver

A Dafny model of the parts of this repository that decide something on their own, without
the robot or ROS answering: the rendezvous of several robots, the conversion of a
quaternion to roll, pitch and yaw, the two simulator bridges, the argument handling of the
motion commands, the analog outputs, and the socket registries.

`dafny verify dfyconfig.toml` checks everything.

| file | what it holds |
|---|---|
| `Bits.dfy` | the robot masks, as bitwise operations on unbounded naturals |
| `RobotSync.dfy` | `CRobotSync` as a step system, one step for each source line that touches shared state; what every interleaving keeps |
| `RobotSyncBarrier.dfy` | when `WakeUpAll` is a barrier, for any number of robots and rounds |
| `RobotSyncLimits.dfy` | runs in which it is not |
| `RobotSyncExact.dfy` | exactly when a wake-up cannot raise, and exactly when it keeps the barrier |
| `RobotSyncProgress.dfy` | how `CleanUp` ends the coordinator's calls, and that they wait for their robots |
| `RobotSyncObject.dfy`, `RobotSyncLoops.dfy` | the object with its fields and loops, each method a run of the step system under an arbitrary schedule of the other threads, and what that says of a call of `WakeUpAll` |
| `RealAlgebra.dfy`, `QuatToRpy.dfy` | `quat_to_rpy` over the reals, an angle being its cosine and sine |
| `JointOrder.dfy`, `ChangeStream.dfy`, `Bridges.dfy` | the stable sort by joint number, publish-on-change as a run-length encoding, and the MuJoCo and Gazebo bridges |
| `Values.dfy`, `Motion.dfy`, `CalcCoord.dfy`, `Blend.dfy`, `AnalogOutput.dfy` | the motion front end: defaults and setters, `movej`, `movel`, `calc_coord`, `moveb`, the analog outputs |
| `Sockets.dfy`, `TcpRead.dfy`, `TcpServer.dfy`, `TcpClient.dfy` | the account of sockets, the bounded receive loop, and the two TCP modules |

## What turned out

The rendezvous is a barrier only under a discipline. `threading.Lock()` starts free, so a
robot's first `Wait` passes straight through, and a robot's flag stays up between its
release and its return, so that a coordinator which polls too early reads a stale flag.
The two lemmas of `RobotSyncLimits` give runs in which an undisciplined call breaks the
barrier, and in which it raises. When neither can happen is said exactly, by conditions on
the state in which the call begins:

- A call cannot raise if and only if every lock is held (`NeverRaisesIff`); then it does not
  even if `CleanUp` is called meanwhile, and releases every lock exactly once
  (`WakeUpAllWhenHeld`). For `WakeUp(r)` it is the one lock (`WakeUpNeverRaisesIff`).
- It finds every robot blocked at its first release if and only if every robot is past its
  first `Wait` and back from every release (`SimultaneityIff`), which asks for more
  (`HeldIsNotReady`).
- For two robots or more, after any disciplined run, no robot can overtake another in the
  next call if and only if the same holds (`NextCallKeepsBarrierIff`); so the discipline that
  `Barrier` assumes cannot be weakened. One robot has nobody to overtake.

`CleanUp` during a call of `WakeUpAll` does not cancel it: the call leaves its polling loop
within one scan and releases the locks, whether the robots wait or not (`CleanUpEndsPolling`).
A call of `WakeUp` returns without releasing (`CleanUpEndsWakeUp`).

Conservation and the meaning of the masks need no discipline.

The angles of `quat_to_rpy` rebuild the rotation for every unit quaternion away from gimbal
lock. In gimbal lock both `atan2` calls are given (0, 0), roll and yaw come out as zero, and
the rotation is rebuilt if and only if `x` is zero. Two unit quaternions are given the same
angles if and only if they are equal, opposite, or both in the same gimbal lock
(`SameAnglesApart` gives such a pair).

The two bridges read a joint's number with different patterns, and differ on a name like
`r2_joint_1`; `KeysAgreeIff` says on which names they agree. Where they do, the bridges send
the same commands, except on messages with nothing to command: `BridgesAgreeIff` says
exactly which streams those are. Where they do not, the positions can arrive in another order
(`OrdersDiffer`). Whether an empty message field equals an empty Python list
depends on the generated message class, so the model takes that as a parameter and covers
both answers.

`movej` accepts a velocity list if any of its six entries is not zero but sends only the
first, so a motion with neither speed nor time can be sent (`MoveJCanStandStill`).
`MoveJStandsStillIff` says that a list starting with zero is the only way to do that, for
the speed and for the acceleration.

`calc_coord` treats a pose given as `None` by keyword as not given, and fails on one given
by position (`CallFormsDiffer`). `CallFormsIff` says for which arguments that shows, and that
it is the only difference between the call forms.

A port over 65535 passes the checks of both TCP modules, and so does a string that is no
host name. The attempt to open then ends in an exception that is no `socket.error`, and its
socket is neither closed nor registered; `CleanClosesEverythingIff` says that nothing else
leaves a socket open. Closing a client socket that is not registered closes it and then
raises a `KeyError`, where the server side returns -1.

A read of length 0 passes the checks, receives no bytes without looking at the wire, and is
taken for the sign that the peer has gone, so that a live connection is recorded as lost
(`ReadOfNothing`); at every other length only a peer that has closed the connection is
(`DisconnectedIff`).

The documentation of the two read functions lists the results -1 and -2; the code also
returns -3, on a timeout, and the model follows the code.

## Model

| member | source | states |
|---|---|---|
| Bits.AddToMask | doosan-robot2/dsr_common2/imp/DSR_util2.py:66 | setting bit i in a mask adds robot i to the set the mask stands for and nothing else |
| Bits.FullMask | doosan-robot2/dsr_common2/imp/DSR_util2.py:67 | a mask equals 2^r - 1 exactly when its set is all robots below r |
| Bits.NextOnes | doosan-robot2/dsr_common2/imp/DSR_util2.py:36-39 | the constructor's loop takes 2^i - 1 to 2^(i+1) - 1 |
| RobotSync.Conservation | doosan-robot2/dsr_common2/imp/DSR_util2.py:46-71 | in every run of any interleaving: a robot's completed acquires are the successful releases of its lock plus one if the lock is held, so no robot has returned from k+1 waits before k releases |
| RobotSync.MaskRefinesSet | doosan-robot2/dsr_common2/imp/DSR_util2.py:61-71 | in every run: when the coordinator compares, `nCurBit` is the mask of the robots seen in this call and equals `nWaitBit` exactly when all were seen; the releases are reached without all seen only after `CleanUp` |
| RobotSync.SeenOnlyGrows | doosan-robot2/dsr_common2/imp/DSR_util2.py:62-68 | within a call no bit and no seen robot is lost, and a step adds at most one robot, one whose flag is up |
| RobotSync.RunInv | doosan-robot2/dsr_common2/imp/DSR_util2.py:46-71 | flags, counts, locks and masks agree after every step of every run |
| RobotSync.RunningUntilCleanUp | doosan-robot2/dsr_common2/imp/DSR_util2.py:41-44 | `nIsRun` is lowered by `CleanUp` and by nothing else |
| RobotSyncBarrier.PollStep | doosan-robot2/dsr_common2/imp/DSR_util2.py:63-68 | with all flags up each line of the polling loop takes exactly one off the rank and changes nothing but the coordinator |
| RobotSyncBarrier.PollAlone | doosan-robot2/dsr_common2/imp/DSR_util2.py:63-68 | with all flags up the coordinator alone leaves the loop after exactly its rank in lines |
| RobotSyncBarrier.BlockedRobotsAreReleased | doosan-robot2/dsr_common2/imp/DSR_util2.py:63-68 | once all robots are blocked, under every schedule, the call is about to release after exactly its rank in steps; from the head of the loop that is one complete scan, 2n+2 lines |
| RobotSyncBarrier.SimultaneityIff | doosan-robot2/dsr_common2/imp/DSR_util2.py:61-71 | every schedule of a call of `WakeUpAll` finds all robots flagged and blocked at its first release if and only if the call begins with every robot past its first wait and back from all releases |
| RobotSyncBarrier.Barrier | doosan-robot2/dsr_common2/imp/DSR_util2.py:46-71 | in every disciplined run, for any number of robots and rounds: no robot returns from its k-th wait, k >= 2, before all have entered theirs, and returned waits never differ by more than one |
| RobotSyncBarrier.Simultaneity | doosan-robot2/dsr_common2/imp/DSR_util2.py:61-71 | in every disciplined run: at the first release all robots are blocked on held locks, no release hits a free lock, and every returned call has released every lock exactly once |
| RobotSyncLimits.StaleFlagsBreakTheBarrier | doosan-robot2/dsr_common2/imp/DSR_util2.py:37-71 | a run with two robots in which one returns from its second wait before the other has entered its second |
| RobotSyncLimits.StaleFlagMakesAReleaseFail | doosan-robot2/dsr_common2/imp/DSR_util2.py:37-71 | a run with one robot in which `WakeUpAll` releases a free lock and raises |
| RobotSyncObject.OthersKeep | doosan-robot2/dsr_common2/imp/DSR_util2.py:46-71 | what other threads cannot change: the coordinator's mask and place, or a waiter's place and counts |
| RobotSyncObject.CRobotSync.constructor | doosan-robot2/dsr_common2/imp/DSR_util2.py:24-39 | locks start free, flags down, and the wait mask built in the loop is 2^r - 1 |
| RobotSyncObject.CRobotSync.CleanUpNow | doosan-robot2/dsr_common2/imp/DSR_util2.py:41-44 | the clean-up step of the step system |
| RobotSyncObject.CRobotSync.RaiseFlag | doosan-robot2/dsr_common2/imp/DSR_util2.py:47 | the step that enters a wait |
| RobotSyncObject.CRobotSync.TakeLock | doosan-robot2/dsr_common2/imp/DSR_util2.py:48 | the step that takes a free lock |
| RobotSyncObject.CRobotSync.AcquireLock | doosan-robot2/dsr_common2/imp/DSR_util2.py:48 | waits under any schedule until the lock is free, then takes it; nothing of the waiter's own changes before |
| RobotSyncObject.CRobotSync.LowerFlag | doosan-robot2/dsr_common2/imp/DSR_util2.py:49 | the step that leaves a wait |
| RobotSyncObject.CRobotSync.Wait | doosan-robot2/dsr_common2/imp/DSR_util2.py:46-50 | under any schedule a call is one run of the step system in which its thread begins nothing else; if it returns, it acquired and returned exactly once more, and it never raises |
| RobotSyncObject.CRobotSync.TestRun | doosan-robot2/dsr_common2/imp/DSR_util2.py:63 | one line of the coordinator: goes on exactly if `nIsRun` is up, to the scan or to `WakeUp`'s test of the flag; else to the releases, or `WakeUp` returns |
| RobotSyncObject.CRobotSync.TestFlag | doosan-robot2/dsr_common2/imp/DSR_util2.py:65 | one line: exactly a raised flag leads to marking the robot, a lowered one to the next robot |
| RobotSyncObject.CRobotSync.Mark | doosan-robot2/dsr_common2/imp/DSR_util2.py:66 | one line: the robot's bit is set |
| RobotSyncObject.CRobotSync.Compare | doosan-robot2/dsr_common2/imp/DSR_util2.py:67-68 | one line: equal masks lead to the releases, others to another scan |
| RobotSyncObject.CRobotSync.ReleaseLock | doosan-robot2/dsr_common2/imp/DSR_util2.py:70 | one line: a held lock is released, a free one counts an error and ends the call |
| RobotSyncObject.CRobotSync.TestOneFlag | doosan-robot2/dsr_common2/imp/DSR_util2.py:54 | one line of `WakeUp`: exactly a raised flag leads to the release, a lowered one back to the test of `nIsRun`; a robot number out of range raises |
| RobotSyncObject.CRobotSync.WakeUp | doosan-robot2/dsr_common2/imp/DSR_util2.py:52-59 | under any schedule a call is one run of the step system, one coordinator line for each entry of the schedule if it is cut off; it raises exactly when an error is counted, and counts no round |
| RobotSyncObject.CRobotSync.Scan | doosan-robot2/dsr_common2/imp/DSR_util2.py:64-67 | one scan of the flags is a stretch of such a run, ending at the loop's head or at the first release |
| RobotSyncObject.CRobotSync.ReleaseAll | doosan-robot2/dsr_common2/imp/DSR_util2.py:69-71 | the releases are the rest of the run; they count a round if all succeed and an error if one fails |
| RobotSyncObject.CRobotSync.WakeUpAll | doosan-robot2/dsr_common2/imp/DSR_util2.py:61-71 | under any schedule a call is one run of the step system, so the theorems on runs hold of the loops; it returns counting one round, raises counting one error, or is cut off with as many coordinator lines as the schedule has entries |
| RobotSyncExact.HeldCall | doosan-robot2/dsr_common2/imp/DSR_util2.py:61-71 | a call of `WakeUpAll` begun with every lock held, in every interleaving and with `CleanUp` at any time: at every line no error has been counted, each lock passed in the release loop has been released exactly once and no other has, and the locks still to come are held |
| RobotSyncExact.NeverRaisesIff | doosan-robot2/dsr_common2/imp/DSR_util2.py:61-71 | no schedule of a call of `WakeUpAll` raises if and only if every lock is held when it begins |
| RobotSyncExact.HeldIsNotReady | doosan-robot2/dsr_common2/imp/DSR_util2.py:37-49 | a reachable state in which every lock is held but a robot has not returned, so that the call cannot raise though it may find a robot that is not blocked |
| RobotSyncExact.ReadyIsHeld | doosan-robot2/dsr_common2/imp/DSR_util2.py:46-71 | with every robot past its first wait and back from all releases every lock is held |
| RobotSyncExact.WakeUpNeverRaisesIff | doosan-robot2/dsr_common2/imp/DSR_util2.py:52-59 | no schedule of a call of `WakeUp(r)` raises if and only if there is a robot r and its lock is held when the call begins |
| RobotSyncExact.KeepsBarrierIff | doosan-robot2/dsr_common2/imp/DSR_util2.py:46-71 | from any state that disciplined calls lead to, with two robots or more, no schedule of the next call lets a robot return from a wait (not its first) that another has not entered, if and only if the call begins with every robot past its first wait and back from all releases |
| RobotSyncExact.NextCallKeepsBarrierIff | doosan-robot2/dsr_common2/imp/DSR_util2.py:46-71 | the same after every disciplined run |
| RobotSyncExact.OneRobotKeepsBarrier | doosan-robot2/dsr_common2/imp/DSR_util2.py:46-71 | with one robot the barrier holds in every run |
| RobotSyncProgress.CleanUpEndsPolling | doosan-robot2/dsr_common2/imp/DSR_util2.py:41-44 | once `nIsRun` is down, under every schedule and whatever the flags, a polling call of `WakeUpAll` is about to release within the coordinator lines left of its scan, at most 2n+2 |
| RobotSyncProgress.CleanUpEndsCall | doosan-robot2/dsr_common2/imp/DSR_util2.py:41-71 | and it ends, by returning or raising, within at most 3n+3 |
| RobotSyncProgress.WakeUpAllWaits | doosan-robot2/dsr_common2/imp/DSR_util2.py:63-68 | without `CleanUp`, as long as the flag of one robot stays down no schedule lets the call reach its releases, release anything or return |
| RobotSyncProgress.CleanUpEndsWakeUp | doosan-robot2/dsr_common2/imp/DSR_util2.py:53-59 | with `nIsRun` down `WakeUp` returns at its next test of it, having released nothing |
| RobotSyncProgress.WakeUpWaits | doosan-robot2/dsr_common2/imp/DSR_util2.py:53-58 | without `CleanUp`, as long as the flag of robot r stays down no schedule lets `WakeUp(r)` return or release anything |
| RobotSyncProgress.WakeUpWakes | doosan-robot2/dsr_common2/imp/DSR_util2.py:53-55 | with robot r blocked `WakeUp(r)` releases its lock, exactly once and no other, and returns by its third line, under every schedule without `CleanUp` |
| RobotSyncLoops.WholeCall | doosan-robot2/dsr_common2/imp/DSR_util2.py:61-71 | what `HeldCall` says, of the runs that the object's own calls are |
| RobotSyncLoops.WakeUpAllWhenHeld | doosan-robot2/dsr_common2/imp/DSR_util2.py:61-71 | the loops themselves, under every schedule: called with every lock held, `WakeUpAll` does not raise, and if it returns it has released every lock exactly once |
| RobotSyncLoops.WakeUpAllAfterCleanUp | doosan-robot2/dsr_common2/imp/DSR_util2.py:61-71 | the loops: called after `CleanUp`, `WakeUpAll` is not cut off by a schedule of n+3 entries or more, and with every lock held returns |
| RobotSyncLoops.WakeUpAllCleanedUp | doosan-robot2/dsr_common2/imp/DSR_util2.py:61-71 | the loops: at most 3n+3 lines of a call come after a `CleanUp` during it |
| RobotSyncLoops.WakeUpAllWaitsForFlag | doosan-robot2/dsr_common2/imp/DSR_util2.py:61-71 | the loops: called with the flag of robot r down, `WakeUpAll` is still polling, with nothing released, when any schedule ends in which r does not enter `Wait` and nobody calls `CleanUp` |
| RobotSyncLoops.WakeUpWaitsForFlag | doosan-robot2/dsr_common2/imp/DSR_util2.py:52-59 | the same of `WakeUp(r)` |
| RobotSyncLoops.WakeUpReleasesOne | doosan-robot2/dsr_common2/imp/DSR_util2.py:52-59 | the loops: for a blocked robot `WakeUp(r)` returns within three lines, its lock released once and no other |
| RobotSyncLoops.WakeUpAfterCleanUp | doosan-robot2/dsr_common2/imp/DSR_util2.py:52-59 | the loops: called after `CleanUp`, `WakeUp` returns and has released nothing |
| QuatToRpy.RotationIsConjugation | ee_pose_pkg/ee_pose_pkg/ee_pose_from_tf.py:11-27 | the matrix the round trip is about moves vectors as the unit quaternion does, by q v q* |
| QuatToRpy.RotationIsOrthogonal | ee_pose_pkg/ee_pose_pkg/ee_pose_from_tf.py:11-27 | its last row is orthogonal to the others, and its first column is the cross product of the other two |
| QuatToRpy.ClampIsGimbal | ee_pose_pkg/ee_pose_pkg/ee_pose_from_tf.py:12-25 | for every unit quaternion both `atan2` vectors have squared length 1 - sinp^2, so sinp lies between -1 and 1, and the clamp is reached exactly at 1 or -1, exactly when both vectors are (0, 0) |
| QuatToRpy.RoundTrip | ee_pose_pkg/ee_pose_pkg/ee_pose_from_tf.py:11-27 | away from gimbal lock, Rz(yaw) Ry(pitch) Rx(roll) equals the rotation matrix in all nine entries |
| QuatToRpy.GimbalAngles | ee_pose_pkg/ee_pose_pkg/ee_pose_from_tf.py:18-21 | in gimbal lock roll and yaw are zero and pitch is a right angle of the sign of sinp |
| QuatToRpy.RoundTripIff | ee_pose_pkg/ee_pose_pkg/ee_pose_from_tf.py:11-27 | for every unit quaternion the rotation is rebuilt if and only if it is not in gimbal lock or x is zero |
| QuatToRpy.RoundTripFails | ee_pose_pkg/ee_pose_pkg/ee_pose_from_tf.py:18-21 | a unit quaternion whose rotation is not rebuilt |
| QuatToRpy.PitchTellsGimbal | ee_pose_pkg/ee_pose_pkg/ee_pose_from_tf.py:17-21 | the sine of pitch is sinp, and its cosine is zero exactly in gimbal lock |
| QuatToRpy.SameAnglesIff | ee_pose_pkg/ee_pose_pkg/ee_pose_from_tf.py:11-27 | two unit quaternions are given the same angles if and only if they are equal, opposite, or both in gimbal lock with the same sinp |
| QuatToRpy.SameAnglesApart | ee_pose_pkg/ee_pose_pkg/ee_pose_from_tf.py:18-25 | two unit quaternions in gimbal lock, neither equal nor opposite, that are given the same angles |
| QuatToRpy.SoundLibrary | ee_pose_pkg/ee_pose_pkg/ee_pose_from_tf.py:15-25 | the assumptions on `atan2` and `asin` that the lemmas make can be met for any two unit quaternions at once, given the real roots of 1 - sinp^2 for both |
| JointOrder.KeysAgree | doosan-robot2/dsr_bringup2/dsr_bringup2/gazebo_connection.py:44-46 | both patterns read the same number from every name whose first digit follows `joint_`, and none from a name without digits |
| JointOrder.KeyOfJoint | doosan-robot2/dsr_bringup2/dsr_bringup2/dsr_mujoco_bridge.py:50-52 | from a name of the form prefix, `joint_`, n in decimal, rest, both patterns read n, for every n |
| JointOrder.KeysAgreeIff | doosan-robot2/dsr_bringup2/dsr_bringup2/gazebo_connection.py:44-46 | for every name, both patterns read the same number if and only if the name has no digit, or its first digit follows `joint_`, or the number after the first later `joint_` is the same |
| JointOrder.KeysOf | doosan-robot2/dsr_bringup2/dsr_bringup2/dsr_mujoco_bridge.py:50-52 | from a name of the form `r`, digit a, `_joint_`, digit b the MuJoCo bridge reads b and the Gazebo bridge a |
| JointOrder.KeysDisagree | doosan-robot2/dsr_bringup2/dsr_bringup2/dsr_mujoco_bridge.py:50-52 | on `r2_joint_1` they read 1 and 2 |
| JointOrder.SortedIsTheStableOrder | doosan-robot2/dsr_bringup2/dsr_bringup2/dsr_mujoco_bridge.py:54-55 | the sort yields an order by key with ties in their original order, and no other list of indices is one |
| JointOrder.SortedByNumber | doosan-robot2/dsr_bringup2/dsr_bringup2/dsr_mujoco_bridge.py:50-55 | joints come by increasing number, those of the same number as they came, and those without a number last |
| JointOrder.SortedIsPermutation | doosan-robot2/dsr_bringup2/dsr_bringup2/dsr_mujoco_bridge.py:54-55 | the sorted indices are each index once |
| JointOrder.PermutedMultiset | doosan-robot2/dsr_bringup2/dsr_bringup2/dsr_mujoco_bridge.py:59-62 | a list read through such indices loses and doubles nothing |
| ChangeStream.ChangesAreRuns | doosan-robot2/dsr_bringup2/dsr_bringup2/dsr_mujoco_bridge.py:40-45 | over any stream the published commands, with how often each was repeated, are its run-length encoding |
| ChangeStream.RunLengthIff | doosan-robot2/dsr_bringup2/dsr_bringup2/dsr_mujoco_bridge.py:40-45 | publish-on-change is lossless: that encoding is the only one, so commands and counts determine the stream and are determined by it |
| Bridges.SortsMessage | doosan-robot2/dsr_bringup2/dsr_bringup2/gazebo_connection.py:48-55 | names, positions, velocities and efforts are moved by the one stable permutation, and none is lost; an effort that is not a number becomes 0.0 |
| Bridges.ProjectsKept | doosan-robot2/dsr_bringup2/dsr_bringup2/dsr_mujoco_bridge.py:64-72 | on a p3020 exactly the first joint in order named like `joint_4`, if any, is taken out, and otherwise none; the order stays |
| Bridges.ContainsIff | doosan-robot2/dsr_bringup2/dsr_bringup2/dsr_mujoco_bridge.py:64 | a name is like `joint_4` exactly if `joint_4` occurs anywhere in it |
| Bridges.CommandsPositions | doosan-robot2/dsr_bringup2/dsr_bringup2/gazebo_connection.py:60-64 | the numbers of a command are the positions of the kept joints, in their order |
| Bridges.MuJoCoBridge.ListenerCallback | doosan-robot2/dsr_bringup2/dsr_bringup2/dsr_mujoco_bridge.py:35-46 | after every message all that was published is the stream of projections with repeats removed, and the last command published, `previous_positions` and the current projection are equal; an incomplete message raises and changes nothing |
| Bridges.GazeboConnection.SortJointStates | doosan-robot2/dsr_bringup2/dsr_bringup2/gazebo_connection.py:42-66 | returns the sorted message and leaves the projection in `current_pos` and in the command message |
| Bridges.GazeboConnection.PublishCommand | doosan-robot2/dsr_bringup2/dsr_bringup2/gazebo_connection.py:38-40 | the command is published, or not, so that what was published stays the function of the stream that `StreamsCompared` is about |
| Bridges.GazeboConnection.ListenerCallback | doosan-robot2/dsr_bringup2/dsr_bringup2/gazebo_connection.py:35-40 | every sorted message is published; the remembered command is the current projection; the commands published are the function of the stream that `StreamsCompared` is about |
| Bridges.StreamsCompared | doosan-robot2/dsr_bringup2/dsr_bringup2/gazebo_connection.py:38-40 | the Gazebo bridge publishes exactly the changes of its stream if no empty command causes trouble, and otherwise a different number of commands |
| Bridges.EmptyProjectionIff | doosan-robot2/dsr_bringup2/dsr_bringup2/gazebo_connection.py:57-63 | a command is empty if and only if the message names no joint, or only one, named like `joint_4`, on a p3020 |
| Bridges.SameKeysSameOrders | doosan-robot2/dsr_bringup2/dsr_bringup2/gazebo_connection.py:44-63 | messages from whose names both bridges read the same numbers are sorted and thinned alike by both |
| Bridges.BridgesAgreeIff | doosan-robot2/dsr_bringup2/dsr_bringup2/gazebo_connection.py:35-66 | on any messages that both bridges sort and thin alike they send the same command sequence if and only if the messages contain no two in a row with nothing to command (if an empty field equals a list), or do not begin with one (if not) |
| Bridges.OrdersDiffer | doosan-robot2/dsr_bringup2/dsr_bringup2/gazebo_connection.py:44-64 | a message with the names `r2_joint_1` and `r1_joint_2`, for which the two bridges send the two positions in opposite order |
| Bridges.BridgesDiffer | doosan-robot2/dsr_bringup2/dsr_bringup2/gazebo_connection.py:38-40 | two messages without joints on which they send different sequences |
| Motion.MotionModule.CheckJoint | doosan-robot2/dsr_common2/imp/DSR_ROBOT2.py:467-493 | the checks of the joint setters, with their loop over the items, against the specification `JointDefault` |
| Motion.MotionModule.CheckTask | doosan-robot2/dsr_common2/imp/DSR_ROBOT2.py:523-546 | the checks of the task setters against the specification `TaskDefault` |
| Motion.MotionModule.SetVeljDefault | doosan-robot2/dsr_common2/imp/DSR_ROBOT2.py:467-493 | stores six positive velocities or fails and stores nothing; the globals stay what the history of setter calls makes them |
| Motion.MotionModule.SetAccjDefault | doosan-robot2/dsr_common2/imp/DSR_ROBOT2.py:495-521 | the same for accelerations, with a value error where `set_velj` raises a type error |
| Motion.MotionModule.SetVelxDefault | doosan-robot2/dsr_common2/imp/DSR_ROBOT2.py:523-546 | the same for the task velocity pair |
| Motion.MotionModule.SetAccxDefault | doosan-robot2/dsr_common2/imp/DSR_ROBOT2.py:548-571 | the same for the task acceleration pair |
| Motion.MotionModule.SetRefCoordDefault | doosan-robot2/dsr_common2/imp/DSR_ROBOT2.py:1386-1418 | an allowed coordinate is stored whatever the service answers, even if the call then raises |
| Motion.JointDefaultIff | doosan-robot2/dsr_common2/imp/DSR_ROBOT2.py:467-521 | a joint setter stores exactly what its argument stands for, and if and only if all six numbers are positive |
| Motion.TaskDefaultIff | doosan-robot2/dsr_common2/imp/DSR_ROBOT2.py:523-571 | a task setter stores its two numbers in order, and if and only if the first is positive and the second positive or -10000 |
| Motion.RefCoordIff | doosan-robot2/dsr_common2/imp/DSR_ROBOT2.py:1386-1392 | `set_ref_coord` stores exactly 0 to 2 and 101 to 200 |
| Motion.JointDefaultErrors | doosan-robot2/dsr_common2/imp/DSR_ROBOT2.py:467-521 | which calls of the joint setters raise a value error, the two differing on a number that is not positive |
| Motion.TaskDefaultErrors | doosan-robot2/dsr_common2/imp/DSR_ROBOT2.py:523-571 | which calls of the task setters do, the first number being checked before the second |
| Motion.RefCoordErrors | doosan-robot2/dsr_common2/imp/DSR_ROBOT2.py:1386-1392 | a wrong type unless the argument is an `int` |
| Motion.DefaultsInvariant | doosan-robot2/dsr_common2/imp/DSR_ROBOT2.py:394-571 | after every sequence of setter calls, failed ones included: joint defaults are six zeros, or six positive numbers exactly if a setter succeeded; task defaults are [0, -10000], or an acceptable pair; the coordinate is 0 to 2 or 101 to 200 |
| Motion.DefaultsAreLast | doosan-robot2/dsr_common2/imp/DSR_ROBOT2.py:467-571 | after every sequence of setter calls each default is what the last successful call of its setter was given |
| Motion.DefaultMoveJIff | doosan-robot2/dsr_common2/imp/DSR_ROBOT2.py:2443-2532 | after any setter calls a `movej` giving only a valid pose is accepted if and only if velocity and acceleration setters have each succeeded; it then sends positive ones |
| Motion.DefaultMoveLIff | doosan-robot2/dsr_common2/imp/DSR_ROBOT2.py:2731-2851 | the same for `movel`, which sends the default pairs and the default coordinate |
| Motion.MoveJIff | doosan-robot2/dsr_common2/imp/DSR_ROBOT2.py:2443-2547 | for all arguments and defaults, a request is sent if and only if the arguments describe it: the six numbers of a `posj` or of a list, the first of six velocities and of six accelerations, none negative and not all zero when no time is given, a time that is not negative or -10000, short names standing in for long ones and defaults for both, no radius when asynchronous |
| Motion.MoveLIff | doosan-robot2/dsr_common2/imp/DSR_ROBOT2.py:2731-2865 | the same for `movel`, which also takes a `posx`, with velocity and acceleration pairs and the reference coordinate |
| Motion.MoveJShortNames | doosan-robot2/dsr_common2/imp/DSR_ROBOT2.py:2448-2509 | in `movej` each short name stands in for its long one if that is absent, and is ignored beside it |
| Motion.MoveLShortNames | doosan-robot2/dsr_common2/imp/DSR_ROBOT2.py:2736-2805 | the same in `movel` |
| Motion.ParamErrors | doosan-robot2/dsr_common2/imp/DSR_ROBOT2.py:2448-2532 | for each argument of a move, a type error if it is of no allowed type and else a value error |
| Motion.MoveJError | doosan-robot2/dsr_common2/imp/DSR_ROBOT2.py:2443-2532 | the error of a refused `movej` is the first in the order pose, velocity, acceleration, time, motion, radius, mode, `ra` |
| Motion.MoveLError | doosan-robot2/dsr_common2/imp/DSR_ROBOT2.py:2731-2851 | the same of `movel`, with the reference after the radius |
| Motion.MoveJStandsStillIff | doosan-robot2/dsr_common2/imp/DSR_ROBOT2.py:2532-2541 | after any setter calls, what an accepted `movej` without a time sends has speed zero if and only if the velocity argument is a list of six that starts with zero, and acceleration zero if and only if the acceleration argument is; neither is ever negative |
| Motion.MoveJCanStandStill | doosan-robot2/dsr_common2/imp/DSR_ROBOT2.py:2539-2541 | such a call: accepted, and sent with neither speed nor time |
| CalcCoord.AcceptedIff | doosan-robot2/dsr_common2/imp/DSR_ROBOT2.py:4694-4784 | k poses are counted if and only if no keyword is unknown and the numbers of positional and keyword arguments are 0 and k+2, k and 2, or k+2 and 0, for k from 1 to 4; other numbers are a type error |
| CalcCoord.ResolvesPosesThenKeywords | doosan-robot2/dsr_common2/imp/DSR_ROBOT2.py:4730-4751 | one to four positional poses with `ref` and `mod` by keyword resolve to those poses in order, then zeros |
| CalcCoord.ResolvesPositional | doosan-robot2/dsr_common2/imp/DSR_ROBOT2.py:4753-4782 | so do the same poses with `ref` and `mod` by position |
| CalcCoord.ResolvesKeywords | doosan-robot2/dsr_common2/imp/DSR_ROBOT2.py:4701-4728 | so do the same poses by keyword, with zeros for each that is `None` |
| CalcCoord.NonePoseFails | doosan-robot2/dsr_common2/imp/DSR_ROBOT2.py:4788-4811 | a pose that is `None` makes the request fail, with the failure zeros in its place would have met first if there is one |
| CalcCoord.CallFormsIff | doosan-robot2/dsr_common2/imp/DSR_ROBOT2.py:4674-4812 | for one to four poses and any `ref` and `mod`, the two positional forms always give the same result; the keyword form gives it too if and only if no pose is `None`, or `ref` or `mod` is out of range, or a pose that is not `None` is neither a `posx` nor a list of six; a request carries the count, the six numbers of each pose in order and zeros after them |
| CalcCoord.RefusedIff | doosan-robot2/dsr_common2/imp/DSR_ROBOT2.py:4788-4801 | exactly those arguments are refused whatever stands in the place of a `None` pose |
| CalcCoord.PositionalErrors | doosan-robot2/dsr_common2/imp/DSR_ROBOT2.py:4788-4811 | which positional calls fail and with what: the type of a pose first, then the value of `ref` or `mod`, last the exception for a `None` pose |
| CalcCoord.CallFormsDiffer | doosan-robot2/dsr_common2/imp/DSR_ROBOT2.py:4701-4811 | one `None` pose with `ref` 0 and `mod` 0: a request by keyword, an exception by position |
| Blend.MakeSegment | doosan-robot2/dsr_common2/imp/DR_common2.py:140-171 | only well-formed segments are constructed |
| Blend.MakeSegmentIff | doosan-robot2/dsr_common2/imp/DR_common2.py:140-171 | which segment the arguments give, and for which arguments there is one |
| Blend.MakeSegmentErrors | doosan-robot2/dsr_common2/imp/DR_common2.py:140-171 | which of the others give a value error and not a type error |
| Blend.ConstructibleIff | doosan-robot2/dsr_common2/imp/DR_common2.py:140-171 | exactly the well-formed segments can be constructed: a second pose if and only if a circle, a radius that is not negative |
| Blend.Posb.ToList | doosan-robot2/dsr_common2/imp/DR_common2.py:195-203 | type, first pose, second pose or `None`, radius; the object is not changed |
| Blend.MoveBlend | doosan-robot2/dsr_common2/imp/DSR_ROBOT2.py:3348-3468 | the request holds one 14-number row for each segment, in order, and their count; an empty list is a value error; no segment object is changed |
| Blend.RowRoundTrip | doosan-robot2/dsr_common2/imp/DSR_ROBOT2.py:3380 | reading offsets 0-5, 6-11, 12 and 13 recovers a segment from its row, and every row of the described shape is the row of a segment |
| Blend.RowsDetermineSegments | doosan-robot2/dsr_common2/imp/DSR_ROBOT2.py:3370-3381 | two segment lists with the same rows are the same list |
| Blend.ListToArrays | doosan-robot2/dsr_common2/imp/DSR_ROBOT2.py:573-585 | one message array for each row, holding the row |
| Blend.ArraysToLists | doosan-robot2/dsr_common2/imp/DSR_ROBOT2.py:587-594 | one row for each message array, holding its data |
| Blend.ConversionsUndoEachOther | doosan-robot2/dsr_common2/imp/DSR_ROBOT2.py:573-594 | the two conversions undo each other in both directions |
| Blend.RequestRecoversSegments | doosan-robot2/dsr_common2/imp/DSR_ROBOT2.py:3348-3468 | from what `moveb` sends, conversion and offsets give back every segment |
| AnalogOutput.AnalogPorts.SetModeAnalogOutput | doosan-robot2/dsr_common2/imp/DSR_ROBOT2.py:5888-5927 | a mode is selected for channel 1 or 2 exactly if it is current or voltage; every trace stays safe |
| AnalogOutput.AnalogPorts.SetAnalogOutput | doosan-robot2/dsr_common2/imp/DSR_ROBOT2.py:5834-5886 | a value is sent exactly if it lies in the range of the latest mode selected for its channel in the whole trace; every trace stays safe |
| AnalogOutput.ValuesFollowSelections | doosan-robot2/dsr_common2/imp/DSR_ROBOT2.py:5834-5927 | in every safe trace each value has before it a last selection for its channel, and lies in that selection's range |
| AnalogOutput.ChannelsIndependent | doosan-robot2/dsr_common2/imp/DSR_ROBOT2.py:5834-5927 | no request for one channel changes the mode of the other |
| TcpRead.CheckRead | doosan-robot2/dsr_common2/imp/DR_tcp_server2.py:274-302 | which arguments of a read are accepted, which are value errors, and how many bytes each receive asks for |
| TcpRead.LimitIsLeast | doosan-robot2/dsr_common2/imp/DR_tcp_server2.py:318 | max(1, ceil(100 T)) is the least number of receives of a hundredth of a second that reach the timeout T |
| TcpRead.Receive | doosan-robot2/dsr_common2/imp/DR_tcp_server2.py:305-343 | a read with timeout T makes at most max(1, ceil(100 T)) receives and returns -3 exactly when that many in a row time out; otherwise it returns the answer to the first receive that does not |
| TcpRead.CheckedRead | doosan-robot2/dsr_common2/imp/DR_tcp_server2.py:274-343 | argument errors first, then -1 for a connection not registered, else the outcome of that loop on receives of the size asked for |
| TcpRead.DisconnectedIff | doosan-robot2/dsr_common2/imp/DR_tcp_server2.py:307-341 | a read returns between 1 byte and as many as it asked for; it takes the connection for lost if and only if the peer has closed it, with nothing but time-outs before, or if it asked for no bytes |
| TcpRead.ReadIff | doosan-robot2/dsr_common2/imp/DR_tcp_server2.py:305-343 | everything a read of some bytes returns, from what its last receive found: the first bytes that came in, up to the size; -1 for a peer that has closed, -2 for an error, -3 for a time-out at the limit; and only time-outs before |
| TcpRead.ReadOfNothing | doosan-robot2/dsr_common2/imp/DR_tcp_server2.py:282-336 | a read of length 0 returns -1 at once and takes the connection for lost, whatever the peer does |
| Sockets.StepConserved | doosan-robot2/dsr_common2/imp/DR_tcp_server2.py:65-171 | every call keeps the account: the tables have the same keys, and each socket ever created is in exactly one of three places, closed, registered, or left by an attempt that escaped |
| Sockets.RunConserved | doosan-robot2/dsr_common2/imp/DR_tcp_server2.py:57-171 | so does every run of calls, and an attempt has escaped in it if and only if some target that passed the checks was not usable |
| Sockets.RemoveThenClean | doosan-robot2/dsr_common2/imp/DR_tcp_server2.py:154-167 | closing the connections one by one in any order closes them all |
| Sockets.CleanClosesEverythingIff | doosan-robot2/dsr_common2/imp/DR_tcp_server2.py:151-171 | after every run a clean leaves both tables empty, and every socket ever created closed if and only if every port that passed the check was at most 65535 and every host a host name |
| Sockets.UnusableLeaks | doosan-robot2/dsr_common2/imp/DR_tcp_server2.py:62-75 | for every target that is not usable, a port over 65535 or a string that is no host name, a run after which a clean leaves its socket open |
| Sockets.StateMeans | doosan-robot2/dsr_common2/imp/DR_tcp_server2.py:87-89 | in every run the recorded states are 0 and 1, and 1 stands exactly for the connections that were opened and since then neither closed nor found disconnected |
| TcpServer.ServerSockets.Open | doosan-robot2/dsr_common2/imp/DR_tcp_server2.py:57-108 | rejects a bad port, otherwise closes the socket of every refused attempt and registers the connection of the first that is accepted together with its listening socket, if and only if the port is at most 65535; else it raises |
| Sockets.Retry | doosan-robot2/dsr_common2/imp/DR_tcp_server2.py:65-106 | the retry loop of both sides stops at the first attempt that is not refused, having created and closed the socket of each one before |
| TcpServer.PortTooBigLeaks | doosan-robot2/dsr_common2/imp/DR_tcp_server2.py:57-108 | the same run on the object, for every port over 65535: open, clean, and the socket is still open |
| TcpServer.ServerSockets.Remove | doosan-robot2/dsr_common2/imp/DR_tcp_server2.py:161-167 | both sockets of an entry are closed and the entry leaves both tables |
| TcpServer.ServerSockets.Close | doosan-robot2/dsr_common2/imp/DR_tcp_server2.py:118-145 | closes a registered connection and its listening socket; returns -1 and changes nothing for another socket |
| TcpServer.ServerSockets.Clean | doosan-robot2/dsr_common2/imp/DR_tcp_server2.py:151-171 | the tables end empty, and everything ever created is closed if and only if every port ever opened was at most 65535 |
| TcpServer.ServerSockets.State | doosan-robot2/dsr_common2/imp/DR_tcp_server2.py:182-193 | 0 or 1, and 1 exactly if the handle is a connection that was opened and since then neither closed nor found disconnected by a read |
| TcpServer.ServerSockets.ReadFrom | doosan-robot2/dsr_common2/imp/DR_tcp_server2.py:269-343 | what `CheckedRead` returns; of the tables only this connection's state changes, to 0, exactly if the read takes it for lost |
| TcpClient.ClientSockets.Open | doosan-robot2/dsr_common2/imp/DR_tcp_client2.py:54-100 | rejects a bad address or port, otherwise closes the socket of every refused attempt and registers the first that connects, if and only if the port is at most 65535 and the host a host name; else it raises |
| TcpClient.UnusableAddressLeaks | doosan-robot2/dsr_common2/imp/DR_tcp_client2.py:54-100 | the same run on the object, for every port over 65535 and for every string that is no host name: open, clean, and the socket is still open |
| TcpClient.ClientSockets.Close | doosan-robot2/dsr_common2/imp/DR_tcp_client2.py:110-128 | closes and unregisters a registered socket; a socket not registered is closed too, and then the call raises |
| TcpClient.ClientSockets.Clean | doosan-robot2/dsr_common2/imp/DR_tcp_client2.py:135-146 | the tables end empty, and everything ever created is closed if and only if every port ever opened was at most 65535 and every host a host name; the close it calls never raises |
| TcpClient.ClientSockets.State | doosan-robot2/dsr_common2/imp/DR_tcp_client2.py:156-167 | 0 or 1, and 1 exactly if the handle is a connection that was opened and since then neither closed nor found disconnected by a read |
| TcpClient.ClientSockets.ReadFrom | doosan-robot2/dsr_common2/imp/DR_tcp_client2.py:245-319 | what `CheckedRead` returns; of the tables only this connection's state changes, to 0, exactly if the read takes it for lost |

## Left out

- Service calls: everything after a request is built, the checks of the generated message classes included, and `DR_Error` as more than a failure result. The class `CDsrRobot` repeats the module's functions and is not modelled again.
- The C++ `CRobotSync` in `dsr_util.h`: it is built on condition variables, and nothing here carries over to it.
- Scheduling: sleeps and fairness. Every theorem is about all schedules; none says that a thread is scheduled.
- RobotSyncObject.CRobotSync.Wait: robot numbers out of range, which raise an `IndexError` before anything changes, and Python's negative indices.
- RobotSyncBarrier.Barrier: the discipline itself, that is, that callers of `WakeUpAll` first see every robot back, is an assumption on them; `NextCallKeepsBarrierIff` says that no call can do with less, for two robots or more.
- Floating point: `quat_to_rpy`, the motion arguments and the timeouts are over the reals. `atan2` and `asin` are a parameter, assumed exact on the arguments passed; `SoundLibrary` shows that such functions exist, given the real square roots they need, whose existence is not proved.
- TcpRead.Receive: a read that waits for ever is modelled only if some receive does not time out; wall-clock time is not modelled. That a receive of no bytes returns none at once, and one of more bytes none only if the peer has closed the connection, is how Python's `recv` is taken to behave.
- Positions and velocities that are not numbers; an effort may be one. The header of a joint state is not modelled, nor are digits other than 0 to 9, which the pattern `\d` also matches.
- Bridges.BridgesAgreeIff: that both bridges sort the messages alike is a hypothesis; `SameKeysSameOrders` and `KeysAgreeIff` give the names for which it holds.
- Lists given as arguments are values here; the source keeps the caller's list as a default, so that changing it later changes the default.
- List items are taken to be numbers: `is_number` returns on the first item that is not a string, so it does not check the rest. Poses given as numpy arrays are not modelled; a `posj` or `posx` is taken to hold the six numbers it was built from.
- Blend.MoveBlend: the segments and their count only; velocity, acceleration, time and reference of `moveb` are checked as in `movel` and not repeated. Segments are `posb` objects.
- `movec`, `movejx`, `movesx` and the other motion commands. No blend state is ever switched on in the module, so an absent radius is zero.
- `set_user_cart_coord`: its call forms do not agree, since the form with five positional arguments overwrites its `ref`.
- TcpServer.ServerSockets.Open: creating a socket is taken to succeed, as are setting the timeout of an accepted one and printing; some attempt is taken not to be refused, since the loop otherwise never ends. That an exception other than `socket.error` is raised exactly for a port over 65535, or on the client side also for a string that is no host name, is an assumption on Python's `socket` module; an interrupt, or memory running out, is not modelled. The same holds of `TcpClient.ClientSockets.Open`, which takes the set of host names as a parameter.
- Sending on a socket, the end-data tables, which are filled under one kind of key and read under another on the server side, and flushing.
- What is only I/O or display: the node classes, `moveit_connection.py`, `run_emulator.py`, `dr_form`, launch files and constant tables.
