# Verified models of a legged-robot control stack

Dafny models of the parts of the stack whose correctness is easy to get wrong, with
proofs of what they promise. `dafny verify dfyconfig.toml` checks everything.

- **Radio link.** `Gf2` is the theory of a division register over GF(2), for any generator; `Bytes`,
  `Crc8` and `Crc16` put the table-driven and the folded checksum on top of it, with exact error
  detection results, `DoubleFlips` those for two flipped bits; `ChannelCodec` is the 16 x 11-bit
  packing; `CrsfDevice` is the receive scanner and the telemetry sender as a class over its buffers. The
  checksum of a frame is the one of section 5.1.4 of ETSI EN 302 307, that of telemetry has the
  generator of section 2 of ITU-T V.41.
- **Orientation.** `Orientation`, `Turning`, `RotationInverse` and `QuaternionRate` are the quaternion and
  rotation algebra over exact reals. A square root is a parameter, assumed right only where the code calls it.
- **Robot modes.** `RobotControl` and `JointRamp` hold what modes share; `TransformUp`, `TransformDown`
  and `SimpleModes` are the mode objects; `Fsm` is the two-phase dispatcher. Each object's method is
  proved equal to a function on values, and `StandUpRuns`, `FsmRuns` and `ModeRuns` prove what holds on
  every run, for every sequence of commands and sensor readings: `Requests` which mode each command leads
  to, `ModeCommands` what every joint is sent; `NameClashes` is about badly named policies.
- **Policies.** `ObsWindow` is the sliding observation window, `PolicyLayout` the two joint layouts.
- **Simulator.** `LoadHandshake` is the two-thread model hand-over, every interleaving included,
  `LoadProgress` that it ends, and `HeldPairs` what a failed first load and the control plugin are left holding;
  `SimHistory` the circular history with its scrubber; `ControlRate` the control-period gate.

`Arithmetic` holds the facts on products and quotients that several modules use.

## What the proofs found

- The receiver overwrites the last payload byte with the checksum before it decodes
  (`interaction/teleop_command/src/elrs_emwave_device.cpp:271`), so channel 16 arrives right only if the
  two happen to be equal (`CrsfDevice.AllChannelsSurviveIff`).
- The transmit thread sends three of the eight status blocks; the function that sends all eight has no
  caller (`CrsfDevice.RoundRefreshesTwelve`, `CrsfDevice.UpgradeRebuilds`).
- A joint ramp of length 0 commands 0/0 on its first tick. That happens exactly when less than one
  configured tick's worth is to be moved, as from the fold pose itself
  (`ModeRuns.StandUpStartsUndefinedIff`, `StandUpRuns.FoldedUndefined`, and the same for lying down).
- Two flipped bits exactly 93 or 186 bits apart pass the radio's checksum, and no other two do
  (`CrsfDevice.DoubleFlipDroppedIff`).
- A policy called "idle", "joint_pd" or "transform_up" lets a policy reach idle without lying down, and
  no other name does (`NameClashes.EscapeIff`).
- The stand-up gate is open exactly at 100 to 2^31 - 1 runs past both ramps, modulo 2^32. It never opens
  early exactly if the ramps sum to at most 2^31 + 2, and whatever the ramps it is shut again for 2^31 + 100
  runs from 2^31 past both on: a first request then is refused (`TransformUp.GateExact`,
  `TransformUp.NeverEarlyIff`, `TransformUp.GateShutsAgain`, `ModeRuns.LateRequestRefused`). A stand-up left
  waiting restarts its stand ramp after 2^32 runs (`StandUpRuns.StandingJoint`).
- The divisor of the matrix-to-quaternion conversion is at least 2 for every matrix, rotation or not
  (`RotationInverse.DivisorBound`).
- A model whose state exceeds 10^8 bytes gets an empty history, into which the loader still writes its
  first state (`SimHistory.Sizing`); `LoadModel` takes the limit as a precondition.
- A model is lost when its data cannot be allocated, and nothing else ever is
  (`LoadHandshake.NothingElseLeaks`). If it was the first one, the physics loop goes on to read data
  that is not there (`HeldPairs.ModelWithoutDataIff`).
- A control plugin keeps the model and data it was configured with, which the first completed reload frees
  (`HeldPairs.PluginLiveIff`).
- The Pause/Run button, unlike the space key, lets time run while the scrubber looks back
  (`SimHistory.LiveIff`), and a Reset is lost if a saved state is asked for before the next Sync
  (`SimHistory.ResetShowsIff`).

## Model

| member | source | states |
|---|---|---|
| Crc8.TableIsEightSteps | interaction/teleop_command/src/elrs_emwave_device.cpp:310-326 | every one of the 256 table entries is what eight single-bit division steps make of its index |
| Crc8.CrsfCrc8 | interaction/teleop_command/src/elrs_emwave_device.cpp:308-333 | the table loop returns the checksum of exactly the `len` bytes it is pointed at |
| Crc8.Crc8IsRegister | interaction/teleop_command/src/elrs_emwave_device.cpp:328-332 | the checksum is the register of bit-serial division by x^8+x^7+x^6+x^4+x^2+1 after all message bits, for every message |
| Crc8.Crc8IsRemainder | interaction/teleop_command/src/elrs_emwave_device.cpp:308-333 | a byte is the checksum if and only if it is a remainder of message·x^8 by the generator: existence and uniqueness of polynomial division |
| Crc8.PassesAfterError | interaction/teleop_command/src/elrs_emwave_device.cpp:263-279 | an accepted region that an error pattern hits passes again if and only if the pattern itself divides |
| Crc8.OddFlipsCaught | interaction/teleop_command/src/elrs_emwave_device.cpp:263-279 | any odd number of flipped bits over type, payload and checksum makes the test fail, at any length |
| Crc8.BurstCaught | interaction/teleop_command/src/elrs_emwave_device.cpp:263-279 | an error within eight consecutive bits, byte-aligned or not, passes if and only if it is no error |
| Crc8.NineBitBurst | interaction/teleop_command/src/elrs_emwave_device.cpp:263-279 | the bound is tight: of all patterns on nine consecutive bits exactly the generator goes unseen |
| DoubleFlips.PeriodIff | interaction/teleop_command/src/elrs_emwave_device.cpp:310-332 | the order of x modulo the generator is 93: clocking it d > 0 times brings it back if and only if 93 divides d |
| DoubleFlips.DoubleFlipPassesIff | interaction/teleop_command/src/elrs_emwave_device.cpp:263-279 | two flipped bits in an accepted region of any length pass if and only if they lie a multiple of 93 bits apart |
| Crc16.FoldReadsByte | interaction/teleop_command/src/elrs_emwave_device.cpp:351-355 | one folded, loop-free round is eight bit-serial steps reading the byte |
| Crc16.CalCheckCrc | interaction/teleop_command/src/elrs_emwave_device.cpp:345-359 | the byte loop returns the CRC of exactly the bytes it is pointed at, 0xFFFF for none |
| Crc16.Crc16IsRegister | interaction/teleop_command/src/elrs_emwave_device.cpp:345-359 | the CRC is the division register for x^16+x^12+x^5+1 started from all ones, for every buffer |
| Crc16.Crc16IsRemainder | interaction/teleop_command/src/elrs_emwave_device.cpp:345-359 | a word is the CRC if and only if it is the remainder of the message, first sixteen bits complemented, times x^16 |
| Crc16.PassesMeansZeroResidue | interaction/teleop_command/src/elrs_emwave_device.cpp:385-387 | two bytes are the right check bytes if and only if running the CRC on over them leaves 0 |
| Crc16.ErrorsCaught | interaction/teleop_command/src/elrs_emwave_device.cpp:385-387 | an odd number of flips, or any burst within sixteen bits, in a telemetry frame is caught |
| DoubleFlips.TelemetryDoubleFlipCaught | interaction/teleop_command/src/elrs_emwave_device.cpp:367-388 | any two flipped bits in the at most seven checked bytes of a telemetry frame are caught |
| ChannelCodec.UnpackSlices | interaction/teleop_command/src/elrs_emwave_device.cpp:286-303 | channel c is bits 11c to 11c+10 of the 22 payload bytes read as one little-endian number |
| ChannelCodec.UnpackPack | interaction/teleop_command/src/elrs_emwave_device.cpp:286-303 | unpacking undoes the obvious packer on all sixteen 11-bit values |
| ChannelCodec.PackUnpack | interaction/teleop_command/src/elrs_emwave_device.cpp:286-303 | every payload is the packing of its channels, so the codec is a bijection |
| CrsfDevice.Crsf.UpdateChannels | interaction/teleop_command/src/elrs_emwave_device.cpp:284-306 | the channel array in place becomes the sixteen decoded fields if the stored length is 24, and one callback gets it either way |
| CrsfDevice.Crsf.ReadPacket | interaction/teleop_command/src/elrs_emwave_device.cpp:231-280 | exactly the callbacks the packet calls for: mode command, accepted channel frame, or none; with the checksum written over the last payload byte before decoding |
| CrsfDevice.Crsf.ReceiveOnce | interaction/teleop_command/src/elrs_emwave_device.cpp:49-71 | the two scanning loops make one channel callback for each place where an intact channel frame starts, left to right, with that frame's channels, and then one mode callback for each place where a mode command starts, with the 24 bytes behind it |
| CrsfDevice.OffsetsExact | interaction/teleop_command/src/elrs_emwave_device.cpp:55-71 | a place is listed if and only if its packet is there with 26 bytes remaining, each once and left to right; overlapping matches are kept |
| CrsfDevice.OneDeliveryEach | interaction/teleop_command/src/elrs_emwave_device.cpp:55-71 | each listed place causes exactly one callback, with the channels or the bytes found there |
| CrsfDevice.ScanExact | interaction/teleop_command/src/elrs_emwave_device.cpp:49-71 | the call list itself: its length, its k-th element, and two ascending lists of places that hold a place exactly if 26 bytes remain and the address, length and checksum, or the two bytes of a mode command, are there |
| CrsfDevice.FrameAccepted | interaction/teleop_command/src/elrs_emwave_device.cpp:273-277 | every well-formed channel frame is delivered |
| CrsfDevice.SentFrameHeard | interaction/teleop_command/src/elrs_emwave_device.cpp:49-71 | a received buffer that holds a sent frame anywhere causes the callback with that frame's channels |
| CrsfDevice.AcceptedIsSent | interaction/teleop_command/src/elrs_emwave_device.cpp:273-277 | a packet is accepted with that type and those channels if and only if it is the frame built from them |
| CrsfDevice.FifteenChannelsSurvive | interaction/teleop_command/src/elrs_emwave_device.cpp:263-306 | channels 1 to 15 of every frame arrive as sent |
| CrsfDevice.SixteenthChannel | interaction/teleop_command/src/elrs_emwave_device.cpp:271-302 | channel 16 arrives as its three low bits below the checksum byte |
| CrsfDevice.AllChannelsSurviveIff | interaction/teleop_command/src/elrs_emwave_device.cpp:271-302 | all sixteen channels arrive if and only if the checksum equals the last payload byte |
| CrsfDevice.ZeroChannelsArriveWrong | interaction/teleop_command/src/elrs_emwave_device.cpp:271-302 | with all sticks at zero, and any nonzero type, channel 16 does arrive wrong |
| CrsfDevice.DamagedFrameDropped | interaction/teleop_command/src/elrs_emwave_device.cpp:231-280 | an accepted frame damaged behind its length byte by an odd number of flips or a burst of at most eight bits causes no callback |
| CrsfDevice.DoubleFlipDroppedIff | interaction/teleop_command/src/elrs_emwave_device.cpp:231-280 | an accepted frame with two bits flipped behind its length byte causes no callback if and only if they are neither 93 nor 186 bits apart |
| CrsfDevice.Crsf.DataTransferBack | interaction/teleop_command/src/elrs_emwave_device.cpp:367-389 | the one right telemetry frame is handed to the port, or -1 and nothing when the payload is longer than four bytes |
| CrsfDevice.Crsf.SetTransferBackData | interaction/teleop_command/src/elrs_emwave_device.cpp:391-399 | status bytes are stored, or refused as a whole when they would not fit |
| CrsfDevice.Crsf.UpgradeTransferBackData | interaction/teleop_command/src/elrs_emwave_device.cpp:401-406 | hands the port the eight block frames, ids 1 to 8 in order |
| CrsfDevice.Crsf.TransmitRound | interaction/teleop_command/src/elrs_emwave_device.cpp:76-86 | one round of the transmit thread hands over blocks 3, 1 and 2 only |
| CrsfDevice.StatusFramePasses | interaction/teleop_command/src/elrs_emwave_device.cpp:381-388 | every telemetry frame leaves residue 0 over id, payload and check bytes |
| CrsfDevice.StatusFrameBytes | interaction/teleop_command/src/elrs_emwave_device.cpp:372-388 | a telemetry frame is 0x31, 0x04, the id, the payload and the checksum of both, high byte first |
| CrsfDevice.BlocksArrive | interaction/teleop_command/src/elrs_emwave_device.cpp:367-406 | a remote that applies whatever passes has, after any list of blocks, exactly the sent blocks refreshed |
| CrsfDevice.UpgradeRebuilds | interaction/teleop_command/src/elrs_emwave_device.cpp:401-406 | the eight frames rebuild the whole 32-byte status array from any earlier contents |
| CrsfDevice.RoundRefreshesTwelve | interaction/teleop_command/src/elrs_emwave_device.cpp:76-86 | the transmit thread refreshes the first twelve bytes and no others |
| Orientation.UnitGivesRotation | controller/rl_controller/include/rl_controller/common/Math/orientation_tools.h:175-191 | for every unit quaternion the matrix is orthogonal both ways and has determinant 1 |
| Orientation.NormMultiplies | controller/rl_controller/include/rl_controller/common/Math/orientation_tools.h:270-282 | the squared length of a product is the product of the squared lengths |
| Orientation.HomogeneousProduct | controller/rl_controller/include/rl_controller/common/Math/orientation_tools.h:270-282 | the homogeneous matrices multiply in reverse order, for all quaternions |
| Orientation.ProductReverses | controller/rl_controller/include/rl_controller/common/Math/orientation_tools.h:175-282 | R(q1·q2) = R(q2)·R(q1) for unit quaternions |
| Turning.MatrixTurns | controller/rl_controller/include/rl_controller/common/Math/orientation_tools.h:175-191 | the transposed matrix of a unit quaternion turns every vector as the quaternion and its conjugate do |
| Turning.VerticalAxis | controller/rl_controller/include/rl_controller/common/Math/orientation_tools.h:175-191 | the lower right entry is 1 - 2(x^2 + y^2), for a unit quaternion the height of the body's vertical axis turned into the world |
| RotationInverse.DivisorBound | controller/rl_controller/include/rl_controller/common/Math/orientation_tools.h:135-168 | for every 3x3 matrix whatever, the branch taken divides by at least 2 |
| RotationInverse.UnitProducts | controller/rl_controller/include/rl_controller/common/Math/orientation_tools.h:175-191 | the matrix of a unit quaternion holds four times every product of two components |
| RotationInverse.QuaternionComesBack | controller/rl_controller/include/rl_controller/common/Math/orientation_tools.h:135-191 | matrix and back gives q or -q, the pivot component made positive, and the pivot is at least 1/2 in magnitude |
| RotationInverse.SameMatrixIff | controller/rl_controller/include/rl_controller/common/Math/orientation_tools.h:175-191 | two unit quaternions give the same matrix if and only if they agree up to sign |
| RotationInverse.RankOne | controller/rl_controller/include/rl_controller/common/Math/orientation_tools.h:135-168 | the ten sums and differences the branches read form a rank-one matrix, for every rotation |
| RotationInverse.RotationComesBack | controller/rl_controller/include/rl_controller/common/Math/orientation_tools.h:135-191 | every rotation matrix comes back exactly, through a unit quaternion, in all four branches |
| QuaternionRate.DerivativeIsHalfProduct | controller/rl_controller/include/rl_controller/common/Math/orientation_tools.h:248-264 | the 4x4 matrix form is half the quaternion product with the stabilised velocity |
| QuaternionRate.UnitDerivative | controller/rl_controller/include/rl_controller/common/Math/orientation_tools.h:248-264 | at length 1 it is half the product with the angular velocity alone |
| QuaternionRate.LengthAlong | controller/rl_controller/include/rl_controller/common/Math/orientation_tools.h:248-264 | the rate used below is the linear term of the squared length along the derivative |
| QuaternionRate.LengthSettles | controller/rl_controller/include/rl_controller/common/Math/orientation_tools.h:248-264 | the squared length grows if and only if the robot turns and 0 < norm < 1, and shrinks if and only if it turns and norm > 1 |
| RobotControl.ControlData.PinWheels | controller/rl_controller/src/fsm/FSMState_TransformUp.cpp:49-51 | the wheel loop leaves the pose with every wheel at its measured position and nothing else changed |
| RobotControl.ControlData.WriteRamp | controller/rl_controller/src/fsm/FSMState_TransformUp.cpp:170-182 | the wheel loop leaves the wheels damped only, every other joint as commanded |
| JointRamp.RampShape | controller/rl_controller/src/fsm/FSMState_TransformUp.cpp:115-134 | a ramp starts at the initial pose, ends at the final one, and closes the same part of the way each tick |
| JointRamp.UndefinedIff | controller/rl_controller/src/fsm/FSMState_TransformUp.cpp:122-129 | 0/0 is computed if and only if the ramp has length 0 and this is its first tick |
| JointRamp.PositiveIff | controller/rl_controller/src/fsm/FSMState_TransformUp.cpp:53-53 | the scaled ramp has a positive length if and only if the largest distance is at least one configured tick |
| JointRamp.EmptyIff | controller/rl_controller/src/fsm/FSMState_TransformUp.cpp:37-53 | with no negative number of ticks configured, the scaled ramp has length 0 if and only if less than one tick is to be moved |
| JointRamp.TicksCount | controller/rl_controller/src/fsm/FSMState_TransformUp.cpp:37-38 | a timer that is not negative gives the whole ticks of timer times rate |
| JointRamp.StepBound | controller/rl_controller/src/fsm/FSMState_TransformUp.cpp:37-53 | with N configured ticks no joint moves as much as 2/N in one tick, whatever the starting pose |
| TransformUp.TransformUpState.Enter | controller/rl_controller/src/fsm/FSMState_TransformUp.cpp:33-74 | the whole state on entry, from the state before and the sensors |
| TransformUp.TransformUpState.FoldLegsStep | controller/rl_controller/src/fsm/FSMState_TransformUp.cpp:185-215 | the command written, and the switch of phase exactly at the end of the ramp, by the orientation then read |
| TransformUp.TransformUpState.Run | controller/rl_controller/src/fsm/FSMState_TransformUp.cpp:91-113 | new state and command of one run, with the 64-bit counter and its casts |
| TransformUp.TransformUpState.CheckTransition | controller/rl_controller/src/fsm/FSMState_TransformUp.cpp:224-260 | the requested name: only commands behind the gate change anything |
| TransformUp.UpsideDownIff | controller/rl_controller/src/fsm/FSMState_TransformUp.cpp:76-85 | the robot counts as upside down exactly if x^2 + y^2 > 1/2, for a unit quaternion exactly if the body's vertical axis, turned into the world, points down |
| TransformUp.GateExact | controller/rl_controller/src/fsm/FSMState_TransformUp.cpp:234-253 | at every count and for all ramps, the gate is open if and only if the count is 100 to 2^31 - 1 past both ramps, modulo 2^32 |
| TransformUp.GateIsPlain | controller/rl_controller/src/fsm/FSMState_TransformUp.cpp:234-253 | at every count while the difference fits an int, the wrapped and cast gate is the plain comparison |
| TransformUp.PlainIff | controller/rl_controller/src/fsm/FSMState_TransformUp.cpp:234-253 | within one turn of 32 bits either way, the exact gate agrees with the plain comparison if and only if the difference fits an int or lies in the last 100 runs before the turn |
| TransformUp.NeverEarlyIff | controller/rl_controller/src/fsm/FSMState_TransformUp.cpp:234-253 | over all counts from the first check on, the gate never opens before its time if and only if the two ramps sum to at most 2^31 + 2 |
| TransformUp.GateShutsAgain | controller/rl_controller/src/fsm/FSMState_TransformUp.cpp:234-253 | from its time on the gate stays open until 2^31 runs past both ramps, is then shut for 2^31 + 100 runs, and opens again |
| TransformUp.ShutAtTwoToThe31 | controller/rl_controller/src/fsm/FSMState_TransformUp.cpp:234-253 | the simplest input at which a gate whose time has come is shut: empty ramps and a count of 2^31 |
| StandUpRuns.AfterClosed | controller/rl_controller/src/fsm/FSMState_TransformUp.cpp:91-215 | the state after any number of runs in closed form, for any sequence of orientations |
| StandUpRuns.CounterCounts | controller/rl_controller/src/fsm/FSMState_TransformUp.cpp:112-112 | the counter is the number of runs modulo 2^64 whatever happens |
| StandUpRuns.RollOverOnlyCounts | controller/rl_controller/src/fsm/FSMState_TransformUp.cpp:69-113 | entered upside down, the mode does nothing but count |
| StandUpRuns.FoldSetpoints | controller/rl_controller/src/fsm/FSMState_TransformUp.cpp:185-190 | run r+1 commands the fold ramp at tick r, up to the end of the fold |
| StandUpRuns.StandingJoint | controller/rl_controller/src/fsm/FSMState_TransformUp.cpp:164-183 | after the fold a joint follows the stand ramp, or starts with 0/0 if its length is 0, then stays at the standing pose until the count passes 2^32 |
| StandUpRuns.NoJump | controller/rl_controller/src/fsm/FSMState_TransformUp.cpp:205-214 | the last run of the fold and the first of the stand command the same pose |
| StandUpRuns.FirstSetpoint | controller/rl_controller/src/fsm/FSMState_TransformUp.cpp:115-134 | the first run commands the measured pose, or 0/0 if and only if the ramp has length 0 |
| StandUpRuns.FirstCommandUndefinedIff | controller/rl_controller/src/fsm/FSMState_TransformUp.cpp:33-134 | from the measured pose and the configured ticks: the first command of an upright stand-up is 0/0 if and only if less than one tick is to be moved |
| StandUpRuns.FoldedUndefined | controller/rl_controller/src/fsm/FSMState_TransformUp.cpp:33-134 | the input it happens at: a robot measured in the fold pose |
| TransformDown.TransformDownState.Enter | controller/rl_controller/src/fsm/FSMState_TransformDown.cpp:24-35 | the whole state on entry, from the state before and the sensors |
| TransformDown.TransformDownState.Run | controller/rl_controller/src/fsm/FSMState_TransformDown.cpp:37-94 | new state, finish flag and command of one run |
| TransformDown.AfterClosed | controller/rl_controller/src/fsm/FSMState_TransformDown.cpp:37-94 | n runs in: counter n, finished exactly at foldRamp + 101 |
| TransformDown.EnteredKeepsPose | controller/rl_controller/src/fsm/FSMState_TransformDown.cpp:31-33 | entering again leaves the fold pose of every joint that is not a wheel alone |
| TransformDown.HoldsFoldPose | controller/rl_controller/src/fsm/FSMState_TransformDown.cpp:66-94 | the fold ramp from the measured pose, or 0/0 first if its length is 0, then the fold pose held to the end |
| TransformDown.FirstCommandUndefinedIff | controller/rl_controller/src/fsm/FSMState_TransformDown.cpp:24-64 | from the measured pose and the configured ticks: the first command of a lie-down is 0/0 if and only if less than one tick is to be moved |
| TransformDown.FoldedUndefined | controller/rl_controller/src/fsm/FSMState_TransformDown.cpp:24-64 | the input it happens at: a robot measured in the fold pose |
| SimpleModes.PassiveState.Run | controller/rl_controller/src/fsm/FSMState_Passive.cpp:21-41 | idle commands damping 5 on every joint and none on wheels, all else zero |
| SimpleModes.JointPDState.Run | controller/rl_controller/src/fsm/FSMState_JointPD.cpp:42-56 | the stored pose is commanded with the configured gains |
| SimpleModes.JointPDState.CheckTransition | controller/rl_controller/src/fsm/FSMState_JointPD.cpp:65-86 | a policy number in range names that policy, other numbers are ignored |
| Fsm.FsmController.constructor | controller/rl_controller/src/fsm/FSM.cpp:21-68 | built in idle and entered, with the name map of the built-in modes and the policies inserted without overwriting |
| Fsm.FsmController.GetNextState | controller/rl_controller/src/fsm/FSM.cpp:103-110 | lookup with idle as the fallback |
| Fsm.FsmController.Run | controller/rl_controller/src/fsm/FSM.cpp:70-101 | one tick of the object, its modes and its command, and the events it logs |
| FsmRuns.Drive | controller/rl_controller/src/fsm/FSM.cpp:70-101 | the object fed any inputs goes through one run of the tick relation, so every theorem about runs holds of it |
| FsmRuns.PolicyResolvesIff | controller/rl_controller/src/fsm/FSM.cpp:38-50 | a policy name leads to its own object if and only if it is no mode name and no earlier policy has it |
| FsmRuns.RequestsAreKnown | controller/rl_controller/src/fsm/FSM.cpp:103-110 | no mode ever asks for an unknown name: the fallback to idle is dead |
| FsmRuns.RequestsFollow | controller/rl_controller/src/fsm/FSMState_RL.cpp:132-153 | policies lead only to policies and lying down, lying down only to idle, idle only to standing up and holding |
| FsmRuns.PolicyLeadsSafelyIff | controller/rl_controller/src/fsm/FSMState_RL.cpp:132-153 | a policy that runs leads only to policies and lying down, on every command, if and only if no policy is called "idle", "joint_pd" or "transform_up" |
| Requests.NameMeans | controller/rl_controller/src/fsm/FSM.cpp:38-110 | a name leads to the mode so called, or else to the first policy so called, and to nothing else |
| Requests.PolicyRequests | controller/rl_controller/src/fsm/FSMState_RL.cpp:132-153 | in a run, while a policy runs: lying down is honoured on every tick whatever policies are called, a policy in range with another name leads to what that name means, and nothing else has an effect; the new mode runs on the tick after next |
| Requests.IdleRequests | controller/rl_controller/src/fsm/FSMState_Passive.cpp:45-57 | in a run, idle goes to standing up or holding exactly when asked, and stays otherwise |
| Requests.HoldRequests | controller/rl_controller/src/fsm/FSMState_JointPD.cpp:65-86 | in a run, holding goes to idle, to lying down or to a policy exactly when asked, and stays otherwise |
| Requests.StandUpRequests | controller/rl_controller/src/fsm/FSMState_TransformUp.cpp:224-260 | in a run, a stand-up goes to holding, lying down or a policy exactly when asked and due, and stays otherwise |
| FsmRuns.LogIsBracketed | controller/rl_controller/src/fsm/FSM.cpp:60-93 | every log is enter(idle), runs, then exit(s), enter(t), run(t) again and again, with one run per tick |
| FsmRuns.ChangeWasChosen | controller/rl_controller/src/fsm/FSM.cpp:78-93 | the mode entered is the one chosen on the tick just before, by what that tick ran and the command it saw |
| ModeRuns.LieDownTick | controller/rl_controller/src/fsm/FSMState_TransformDown.cpp:96-111 | whatever is asked, a tick of lying down is one run fewer, or after the last one idle |
| ModeRuns.LieDownIsExact | controller/rl_controller/src/fsm/FSMState_TransformDown.cpp:24-111 | from its entry a lie-down runs exactly foldRamp + 101 ticks under any commands, and idle is next |
| ModeRuns.IdleAfterPolicy | controller/rl_controller/src/fsm/FSM.cpp:70-110 | once a policy has run, the first idle run comes right after one whole lie-down, and every tick from that policy to the lie-down ran a policy |
| NameClashes.IdleEscapes | controller/rl_controller/src/fsm/FSMState_RL.cpp:132-153 | the failing run: with a policy called "idle", some run goes from a policy to idle without lying down |
| NameClashes.EscapeIff | controller/rl_controller/src/fsm/FSMState_RL.cpp:132-153 | once a policy can run, some run goes from a policy to idle without lying down if and only if a policy has one of those three names |
| ModeRuns.LeavesExactlyWhen | controller/rl_controller/src/fsm/FSMState_TransformUp.cpp:224-260 | for all ramps and every number of runs: a stand-up is left if and only if the last command asks for it at 100 to 2^31 - 1 runs past both ramps, modulo 2^32 |
| ModeRuns.NeverLeavesEarly | controller/rl_controller/src/fsm/FSMState_TransformUp.cpp:224-260 | with ramps that sum to at most 2^31 + 2, no command leaves a stand-up before foldRamp + standRamp + 100 runs |
| ModeRuns.LateRequestRefused | controller/rl_controller/src/fsm/FSMState_TransformUp.cpp:234-253 | the run on which a late first request fails: it comes 2^31 runs past both ramps, and the stand-up is not left |
| ModeRuns.BegunRamps | controller/rl_controller/src/fsm/FSMState_TransformUp.cpp:37-53 | the ramps a stand-up begins with: the stand timer in whole ticks, and the fold timer in whole ticks times the largest distance, fractions dropped |
| ModeRuns.FoldPoseOnEntry | controller/rl_controller/src/fsm/FSMState_TransformUp.cpp:49-53 | in a run, every fold aims at the configured pose, each wheel where it is measured on entry |
| ModeRuns.StandsBeforeLeaving | controller/rl_controller/src/fsm/FSMState_TransformUp.cpp:33-260 | upright at entry and fold end: at least the last 99 runs before leaving command the standing pose on every joint that is not a wheel, up to run foldRamp + 2^32 + 1 |
| ModeRuns.UpsideDownSendsZero | controller/rl_controller/src/fsm/FSMState_TransformUp.cpp:69-111 | entered with x^2 + y^2 > 1/2, every command of the stand-up is zero |
| ModeRuns.UpsideDownAtFoldSendsZero | controller/rl_controller/src/fsm/FSMState_TransformUp.cpp:91-215 | upright at entry but with x^2 + y^2 > 1/2 when the fold ends, every command from run foldRamp + 2 on is zero |
| ModeRuns.HoldsMeasuredPose | controller/rl_controller/src/fsm/FSMState_JointPD.cpp:31-56 | every run of holding commands the pose measured on the entry tick |
| ModeRuns.PosesKept | controller/rl_controller/src/fsm/FSMState_TransformUp.cpp:49-51 | over any run both fold poses stay the configured ones on joints that are not wheels |
| ModeRuns.StandUpFoldIsGentle | controller/rl_controller/src/fsm/FSMState_TransformUp.cpp:37-215 | in a run, the fold starts at the measured pose, only closes in, and moves less than 2/N per tick |
| ModeRuns.LieDownSetpoint | controller/rl_controller/src/fsm/FSMState_TransformDown.cpp:66-83 | in a run, each lie-down tick commands its ramp point, and the fold pose from the ramp's end on |
| ModeRuns.LieDownIsGentle | controller/rl_controller/src/fsm/FSMState_TransformDown.cpp:24-94 | the same bound for lying down |
| ModeRuns.LieDownRamp | controller/rl_controller/src/fsm/FSMState_TransformDown.cpp:26-35 | the ramp a lie-down begins with: the fold timer in whole ticks times the largest distance, fractions dropped |
| ModeRuns.StandUpStartsUndefinedIff | controller/rl_controller/src/fsm/FSMState_TransformUp.cpp:33-134 | the same condition for 0/0 in a run: it is on the first tick of an upright stand-up |
| ModeRuns.LieDownStartsUndefinedIff | controller/rl_controller/src/fsm/FSMState_TransformDown.cpp:24-64 | and on the first tick of a lie-down |
| ModeRuns.NoJumpInRun | controller/rl_controller/src/fsm/FSMState_TransformUp.cpp:185-215 | in a run, the last tick of the fold and the first of the way up command the same pose |
| ModeRuns.StandUpClimbs | controller/rl_controller/src/fsm/FSMState_TransformUp.cpp:164-183 | in a run, every tick of the way up moves a joint by the same standRamp-th of the way, nearer the standing pose |
| ModeCommands.StandUpJointExact | controller/rl_controller/src/fsm/FSMState_TransformUp.cpp:91-215 | every entry of every command of a stand-up: torque, gains and ramp point of each joint and damping of each wheel while the robot is upright where that is read, and zero otherwise |
| ModeCommands.LieDownJoint | controller/rl_controller/src/fsm/FSMState_TransformDown.cpp:66-94 | every entry of every command of a lie-down: no torque, the gains and the ramp point of each joint, damping of each wheel |
| ModeCommands.IdleJoint | controller/rl_controller/src/fsm/FSMState_Passive.cpp:21-41 | every entry of an idle command: damping 5 on joints, none on wheels, all else zero |
| ModeCommands.HeldJoint | controller/rl_controller/src/fsm/FSMState_JointPD.cpp:31-56 | every entry of a holding command: the position measured on entry with the configured gains, no torque |
| ModeCommands.PolicyCommand | controller/rl_controller/src/fsm/FSM.cpp:78-93 | on a policy's tick the command is what the policy wrote, unchanged |
| ObsWindow.ObsHistory.Enter | controller/rl_controller/src/fsm/FSMState_RL.cpp:63-69 | every frame becomes the entry observation |
| ObsWindow.ObsHistory.Shift | controller/rl_controller/src/fsm/FSMState_RL.cpp:286-288 | the in-place, overlapping, ascending copy drops the oldest frame and appends the new one |
| ObsWindow.ObsHistory.ForwardNp3o | controller/rl_controller/src/fsm/FSMState_RL.cpp:275-288 | fed the current frame and the window without it, then shifted |
| ObsWindow.ObsHistory.ForwardPpo | controller/rl_controller/src/fsm/FSMState_RLPPO.cpp:33-42 | shifted first, so the window fed ends with the current frame |
| ObsWindow.ObsHistory.Updates | controller/rl_controller/src/fsm/FSMState_RL.cpp:63-293 | any number of updates since entry: each is fed the last frames of the entry copies followed by the observations so far, for both kinds |
| ObsWindow.WindowFrame | controller/rl_controller/src/fsm/FSMState_RL.cpp:63-69 | the frames of the window are the latest observations, padded in front with the entry observation |
| ObsWindow.FedFrame | controller/rl_controller/src/fsm/FSMState_RL.cpp:275-288 | what each update is fed, frame by frame: np3o the current frame and a window of those before it, ppo one window that ends with it |
| ObsWindow.ShiftIsSlide | controller/rl_controller/src/fsm/FSMState_RL.cpp:286-288 | sliding the list of frames by one is shifting the flat vector by one frame |
| PolicyLayout.Reindex | controller/rl_controller/include/rl_controller/fsm/FSMState_RL.h:86-97 | element k of the result is element order[k] below the table's length, and element k from there on |
| PolicyLayout.ReSign | controller/rl_controller/include/rl_controller/fsm/FSMState_RL.h:99-110 | element k of the result is multiplied by signs[k] below the table's length, and unchanged from there on |
| PolicyLayout.UndoneIff | controller/rl_controller/include/rl_controller/fsm/FSMState_RL.h:86-136 | the action tables undo the observation tables on every vector if and only if the orders are inverse and the signs multiply to 1 |
| LoadHandshake.Simulate.RenderLoadStep | simulation/mujoco_bridge/mujoco_sim_ros2/src/simulate.cc:2684-2690 | the render loop's load step: label first, adopt on the next pass |
| LoadHandshake.Simulate.LoadOnRenderThread | simulation/mujoco_bridge/mujoco_sim_ros2/src/simulate.cc:2171-2349 | adopts the published pair, clears the request and forgets the references |
| LoadHandshake.Follow | simulation/mujoco_bridge/mujoco_sim_ros2/src/main.cc:280-335 | the shared object, its methods called by any interleaving of both threads, goes through the run that all of the following is about |
| LoadHandshake.AlwaysSound | simulation/mujoco_bridge/mujoco_sim_ros2/src/main.cc:280-335 | phase and allocation invariant of both threads, over every interleaving |
| LoadHandshake.RenderHoldsLive | simulation/mujoco_bridge/mujoco_sim_ros2/src/simulate.cc:2681-2726 | at no point is the pair the render thread holds, or is about to adopt, one already freed |
| LoadHandshake.DeletesOnlyUnheld | simulation/mujoco_bridge/mujoco_sim_ros2/src/main.cc:297-305 | every deletion is of a live object the render thread does not hold, so none is freed twice |
| LoadHandshake.LoadReturnsAdopted | simulation/mujoco_bridge/mujoco_sim_ros2/src/simulate.cc:2145-2159 | Load returns only when the render thread holds exactly the pair passed |
| LoadHandshake.RequestMoves | simulation/mujoco_bridge/mujoco_sim_ros2/src/simulate.cc:2684-2690 | the request falls 2, 1, 0 by render steps only, with exactly one frame drawn at 1, and the held pair changes only then |
| LoadHandshake.NothingElseLeaks | simulation/mujoco_bridge/mujoco_sim_ros2/src/main.cc:291-311 | every allocation is owned, freed, or a model whose data could not be made |
| LoadHandshake.AdoptedWithinFour | simulation/mujoco_bridge/mujoco_sim_ros2/src/simulate.cc:2681-2726 | four render steps after publishing, in any interleaving, the pair has been adopted |
| LoadProgress.FirstLoadCompletes | simulation/mujoco_bridge/mujoco_sim_ros2/src/main.cc:472-507 | once the first load is adopted, its first physics move returns from Load and the second is in the loop with that pair, configured into the plugins, on every interleaving |
| LoadProgress.ReloadCompletes | simulation/mujoco_bridge/mujoco_sim_ros2/src/main.cc:297-312 | once a reload is adopted, four physics moves return from Load, free the old data, free the old model, and are in the loop with exactly the passed pair, one reload counted |
| LoadProgress.PublishedLoadCompletes | simulation/mujoco_bridge/mujoco_sim_ros2/src/simulate.cc:2145-2159 | from publication on, four render moves and then four physics moves complete the load, whatever else is interleaved |
| LoadProgress.SuccessPublishes | simulation/mujoco_bridge/mujoco_sim_ros2/src/main.cc:287-297 | a load that nothing fails in is published by its sixth physics move |
| LoadProgress.FailureIsCalledOff | simulation/mujoco_bridge/mujoco_sim_ros2/src/main.cc:306-310 | after a failed load or allocation the next physics move clears the request and goes on, with the pair in use untouched |
| LoadProgress.LoopComesBack | simulation/mujoco_bridge/mujoco_sim_ros2/src/main.cc:280-335 | from any point of any run, six physics, four render and four physics moves, however interleaved and whatever succeeds, have led back to the loop |
| HeldPairs.ModelWithoutDataIff | simulation/mujoco_bridge/mujoco_sim_ros2/src/main.cc:458-512 | in every interleaving, the physics loop finds a model without data if and only if the first allocation of data failed and nothing was loaded since |
| HeldPairs.ModelWithoutData | simulation/mujoco_bridge/mujoco_sim_ros2/src/main.cc:349-360 | the five steps that lead there, where the loop reads the clock of data that is not there |
| HeldPairs.PluginLiveIff | simulation/mujoco_bridge/mujoco_sim_ros2/src/main.cc:475-505 | in the physics loop of every interleaving, the model and data a plugin was configured with are alive if and only if nothing was loaded since |
| SimHistory.Sizing | simulation/mujoco_bridge/mujoco_sim_ros2/src/simulate.cc:2241-2248 | the history length is the largest within 2000 states and 10^8 bytes, computed without int overflow; it is 0 if and only if one state exceeds the byte limit |
| SimHistory.Filled | simulation/mujoco_bridge/mujoco_sim_ros2/src/simulate.cc:2250-2260 | every slot holds the initial state |
| SimHistory.WriteSlot | simulation/mujoco_bridge/mujoco_sim_ros2/src/simulate.cc:2754-2759 | writing one slot of the flat vector leaves all others alone |
| SimHistory.SaveHolds | simulation/mujoco_bridge/mujoco_sim_ros2/src/simulate.cc:2749-2760 | moving the cursor and writing there keeps the circular buffer equal to the last states of the unbounded list |
| SimHistory.ScrubFindsBehind | simulation/mujoco_bridge/mujoco_sim_ros2/src/simulate.cc:552-553 | the two truncating remainders find the slot k behind the cursor for every scrub in [1-n, 0] |
| SimHistory.History.LoadModel | simulation/mujoco_bridge/mujoco_sim_ros2/src/simulate.cc:2239-2260 | loading starts a new list with the initial state and the scrubber at 0 |
| SimHistory.History.AddToHistory | simulation/mujoco_bridge/mujoco_sim_ros2/src/simulate.cc:2749-2760 | appends to the list; without a history, nothing |
| SimHistory.History.LoadScrubState | simulation/mujoco_bridge/mujoco_sim_ros2/src/simulate.cc:550-562 | scrub -k loads the state saved k saves ago, or the initial one |
| SimHistory.History.Handle | simulation/mujoco_bridge/mujoco_sim_ros2/src/simulate.cc:1403-1601 | each key, the Pause/Run button, slider move, Reset, simulation step, stop or Sync does to list, scrubber and flags what the table of actions says |
| SimHistory.History.Sync | simulation/mujoco_bridge/mujoco_sim_ros2/src/simulate.cc:1954-1980 | serves what is pending, a reset before a load: the scrubber back to 0, then the state it looks at |
| SimHistory.History.Play | simulation/mujoco_bridge/mujoco_sim_ros2/src/simulate.cc:1555-1980 | the object under any actions goes through the run the following is about, and its Syncs do what they do there |
| SimHistory.SyncShows | simulation/mujoco_bridge/mujoco_sim_ros2/src/simulate.cc:550-562 | after any actions with a load and no reset pending, the next Sync loads once, the state saved as many saves ago as the scrubber looks back or else the first, and leaves the scrubber there |
| SimHistory.LeftKeysShow | simulation/mujoco_bridge/mujoco_sim_ros2/src/simulate.cc:1589-1601 | j left keys from the present and a Sync show the state saved min(j, n-1) saves ago |
| SimHistory.SlideShows | simulation/mujoco_bridge/mujoco_sim_ros2/src/simulate.cc:1428-1433 | moving the slider to -k and a Sync show the state saved k saves ago |
| SimHistory.StepsSaved | simulation/mujoco_bridge/mujoco_sim_ros2/src/main.cc:438-441 | while time runs every simulation step is saved in order, and while it does not none is |
| SimHistory.SpaceSwitchesSaving | simulation/mujoco_bridge/mujoco_sim_ros2/src/simulate.cc:1555-1564 | the space key turns saving on, from the present, and off again |
| SimHistory.RightKeysSave | simulation/mujoco_bridge/mujoco_sim_ros2/src/simulate.cc:1566-1587 | right keys while paused first walk back to the present, saving nothing, then step and save every step |
| SimHistory.ScrubStaysInside | simulation/mujoco_bridge/mujoco_sim_ros2/src/simulate.cc:1566-1601 | after any actions, Syncs among them, the scrubber is in [1-n, 0] and no saved state was taken back |
| SimHistory.LeftThenRight | simulation/mujoco_bridge/mujoco_sim_ros2/src/simulate.cc:1566-1595 | a step back then forward changes nothing but the pause and the pending load if and only if the scrubber was not at the end of the buffer |
| SimHistory.ResetShowsIff | simulation/mujoco_bridge/mujoco_sim_ros2/src/simulate.cc:1403-1980 | after any actions since the last Sync, Reset among them, the next one leaves the scrubber at 0 and shows the initial data if and only if none of them asked for a saved state; otherwise it shows the latest saved state |
| SimHistory.LiveIff | simulation/mujoco_bridge/mujoco_sim_ros2/src/simulate.cc:1555-1601 | over any actions, time never runs while the scrubber looks back if and only if the Run button is never pressed while it does |
| SimHistory.RunsLookingBack | simulation/mujoco_bridge/mujoco_sim_ros2/src/simulate.cc:1555-1601 | the input on which it does run: a step back, the Run button, and a simulation step saved with the scrubber at -1 |
| ControlRate.MujocoControl.PreUpdate | simulation/mujoco_bridge/mujoco_ros2_control/src/mujoco_ros2_control.cpp:194-203 | the period is measured from the last update |
| ControlRate.MujocoControl.Update | simulation/mujoco_bridge/mujoco_ros2_control/src/mujoco_ros2_control.cpp:205-214 | an update happens exactly when the measured period is a whole control period |
| ControlRate.MujocoControl.SimulationStep | simulation/mujoco_bridge/mujoco_ros2_control/src/mujoco_ros2_control.cpp:194-214 | measuring and updating together are one tick of the gate the bounds below are about |
| ControlRate.OnTime | simulation/mujoco_bridge/mujoco_ros2_control/src/mujoco_ros2_control.cpp:194-214 | no update is missed, and consecutive updates are at least P and less than P+h apart |
| ControlRate.JitterBound | simulation/mujoco_bridge/mujoco_ros2_control/src/mujoco_ros2_control.cpp:194-214 | update k comes at a time t with kP <= t < k(P+h) |
| ControlRate.UpdateCount | simulation/mujoco_bridge/mujoco_ros2_control/src/mujoco_ros2_control.cpp:194-214 | the number of updates by any time is bounded both ways |
| ControlRate.UniformExact | simulation/mujoco_bridge/mujoco_ros2_control/src/mujoco_ros2_control.cpp:194-214 | with uniform steps h the bounds are attained: update k comes exactly at step k times the least number of steps that make up P |
| ControlRate.SilentAfterReset | simulation/mujoco_bridge/mujoco_ros2_control/src/mujoco_ros2_control.cpp:194-214 | after the clock jumps back there is no update if and only if no time is a period past the last update |

## Left out

- CrsfDevice.Crsf.ReadPacket: takes packets whose length byte, if the address is the flight controller's, is at most 24; larger ones would index outside the 26-byte buffer, and the scanner passes only 24.
- CrsfDevice.Crsf.ReceiveOnce: the serial port is a parameter, the bytes one read returned; callbacks and writes are logs.
- CrsfDevice.Crsf.DataTransferBack: the source returns what write() on a non-blocking descriptor returned; how much of a frame the port takes is not modelled.
- Crc8.TableIsEightSteps: the 256 entries are selected by the two halves of the index, row and column, with the same values in the same places.
- TransformUp.TransformUpState.CheckTransition: the number behind "rl_" is an optional integer; how std::stoi reads it, and the exception it throws beyond int, are not modelled.
- StandUpRuns.FirstCommandUndefinedIff: assumes a number of configured ticks that is not negative; a negative timer is not considered.
- TransformDown.FirstCommandUndefinedIff: the same.
- ModeRuns.BegunRamps: assumes timers and an update rate that are not negative.
- ModeRuns.LieDownRamp: the same.
- ModeCommands.StandUpJointExact: assumes ramps that fit an int, and speaks of the first 2^64 runs.
- TransformUp.TransformUpState.Run: ramp lengths are unbounded integers; a timer that does not fit an int is undefined in the source, and the theorems about runs assume ramps that fit.
- TransformDown.AfterClosed: assumes foldRamp + 100 fits an int; beyond that the source's sum is undefined.
- StandUpRuns.StandingJoint: setpoints are exact reals, not floats; the source computes the weight in single precision.
- Fsm.FsmController.Run: the safety check always passes in the source, so its branch is omitted; the torque clamp discards its result and so bounds nothing; what a policy's run writes is an input.
- Fsm.FsmController.constructor: the exception for an unknown policy type, parameter reload and the destructor are omitted.
- ModeRuns.StandsBeforeLeaving: assumes ramps that fit the gate, and the robot upright at entry and at the end of the fold; otherwise no pose is commanded although the gate still counts (ModeRuns.UpsideDownSendsZero, ModeRuns.UpsideDownAtFoldSendsZero).
- ModeRuns.IdleAfterPolicy: assumes that no policy is called "idle", "joint_pd" or "transform_up"; NameClashes.EscapeIff shows that these three names, and no others, break it.
- ObsWindow.ObsHistory.Updates: one forward iteration is one step; the races of the forward thread with the control thread, and inference itself, are not modelled. The history length is at least 1.
- QuaternionRate.LengthSettles: is about the rate at one instant, not about integrating it in steps.
- LoadHandshake.AdoptedWithinFour: assumes that the render loop keeps running; shutdown during a load is not modelled, nor are the scene and user-interface updates inside the load.
- SimHistory.History.Handle: the passive viewer mode, in which these keys do nothing, is not modelled, nor are loading a key frame and editing the state by hand; the slider is assumed to stay in the range the interface gives it.
- SimHistory.History.LoadModel: takes states of at most 10^8 bytes; for larger ones the source writes past an empty vector.
- The dispatcher's tick counter and the stand-up's second iteration counter, which nothing reads.
- ControlRate.OnTime: times are integers of nanoseconds without a 64-bit bound; reading and writing the hardware is left out, and so is the variant of update that also steps the simulation.
- Roll, pitch and yaw conversions, and everything that needs trigonometry.
- Assembling an observation from sensors and commands, and the joint command of a policy's run.
- ROS messaging, launch files, serial port setup, rendering and user interface, cameras, inference engines, CAN, Gazebo and Webots, robot descriptions.
- Joystick normalisation, keyboard clamps and interface registration, which would only add easy members.
