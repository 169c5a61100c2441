# Robot mechanism and drive-helper model

A Dafny model of the competition robot's control logic:

- **The operator mechanism state machine.** Six toggle flags (matchload, right
  descore, middle goal, top outtake, bottom intake, aligner) and the seven
  button handlers that flip them while writing five pneumatic pistons and two
  mechanism motors. The handlers are `rightDescoreD`, `middleGoalD`,
  `alignerD`, `matchloadD`, `bottomIntakeD`, `topOutakeD` and `stopIntake`.
- **The autonomous helpers.** The distance-sensor controller
  `correct_to_goal`, the timed shake `jiggle`, and the small actuator helpers
  (`set_intake` … `middle_goal_action`).

Every operation is a pure function. It returns the commands it issues, in
order, as a trace: piston writes, motor powers, brake modes, drive powers and
blocking `Delay`s. `Hardware.Replay` turns a trace into the actuator record it
leaves behind. A mechanism handler returns a `Mechanisms.Transition`, which
also lists the actuator record at every instant of its trace. This lets the
model state that the matchload and aligner pistons, which share space, are
never both extended at any instant, and not only at the end of a handler.

Modules:

- `Hardware`: pistons, motors, commands, the actuator record and trace replay.
- `Mechanisms`: the toggle flags, the seven handlers, and runs of button presses.
- `AutonActions`: the actuator helpers. They never touch the flags.
- `DriveLoops`: `correct_to_goal` and `jiggle`, with the clock and the distance
  sensor as parameters.

Points where the model makes a choice that a reader of the code might not expect:

- **No settle delay in `topOutakeD`.** `alignerD` and `matchloadD` wait
  250 ms between retracting one of the two space-sharing pistons and extending
  the other (src/main.cpp:134-137, 152-155, 170-173). `topOutakeD` retracts
  matchload and extends the aligner with no delay between them
  (src/main.cpp:193-194). The comment on line 194 says it *retracts* the
  aligner, but the code writes `true`; the model follows the code.
  `Mechanisms.TopOutakeSkipsSettle` exhibits the missing delay.
- **Tolerance.** The tolerance is 15 mm, as coded, not the 12 mm its comment states.
- **Unsigned timeouts.** `pros::millis()` is unsigned 32-bit, so the timeout
  comparisons in `correct_to_goal` and `jiggle` are unsigned. A negative timeout
  is therefore a very long one (`DriveLoops.NegativeTimeoutIsLong`).
- **Time before the first check.** Both loops take their start time, then do
  some work (computing the target, setting the brake mode) before the first
  loop check. That elapsed time is the `setup` parameter, so a budget no
  larger than it runs no iteration at all.

## Model

| member | source | states |
|---|---|---|
| Mechanisms.RightDescoreD | src/main.cpp:99-110 | Toggles the descore flag and the piston follows it. Activation also stops the hood motor, lowers the hood and clears the top-outtake flag. Deactivation changes only the descore flag and piston. Consistency is kept and the pistons stay apart. |
| Mechanisms.MiddleGoalD | src/main.cpp:112-128 | Activation extends the middle-goal piston, lowers the hood and runs both rollers at -127. It still clears the top-outtake and bottom-intake flags and leaves matchload, aligner and descore untouched. Deactivation only retracts the piston. |
| Mechanisms.Settle | src/main.cpp:133-137 | The switch pattern: retract one of matchload/aligner, wait 250 ms, extend the other. If the pistons were apart before, they stay apart at every instant. |
| Mechanisms.AlignerD | src/main.cpp:132-146 | Activation forces matchload off, waits 250 ms and then extends the aligner (a settled switch); the flags end with aligner on and matchload off. Deactivation only retracts the aligner, without delay. |
| Mechanisms.MatchloadD | src/main.cpp:149-176 | Activation does a settled switch from the aligner to matchload, then sets the loading posture and flags. Deactivation is asymmetric: a settled switch from matchload to the aligner, which turns the aligner flag on. |
| Mechanisms.MatchloadEngage | src/main.cpp:150-168 | The activating branch: aligner retract, then 250 ms, then matchload extend. Afterwards middle goal, hood and hood motor are off, the intake runs at -127 and the bottom-intake flag is set. |
| Mechanisms.LoadingPosture | src/main.cpp:161-168 | Lowers the middle goal and hood, runs the intake at -127, stops the hood motor, and changes nothing else. |
| Mechanisms.MatchloadRelease | src/main.cpp:169-175 | The deactivating branch: matchload retract, then 250 ms, then aligner extend. The flags become matchload off and aligner on. |
| Mechanisms.BottomIntakeD | src/main.cpp:178-186 | Flips only the bottom-intake flag. The intake is commanded -127 when turning on and +127 when turning off. |
| Mechanisms.TopOutakeD | src/main.cpp:188-210 | Activation is `TopOutakeEngage`. Deactivation issues exactly `hood_motor.move(0)` then the hood retract, and changes only its flag, the hood motor and the hood piston. |
| Mechanisms.TopOutakeEngage | src/main.cpp:189-204 | The hood motor runs at -127 with the hood up, the middle goal, matchload and descore are retracted, the aligner is extended and the intake runs at -127, with no delay. The flags become top outtake, aligner and bottom intake on, and matchload, middle goal and descore off. |
| Mechanisms.StopIntake | src/main.cpp:212-222 | Zeroes both motors, lowers the hood and clears the two roller flags. Every other flag and piston is unchanged. |
| Mechanisms.Handle | src/main.cpp:239-248 | Every handler keeps the flag/piston consistency and the matchload-aligner separation. No handler issues a drive or brake-mode command: its trace holds only piston writes, mechanism-motor moves and delays, so the drivetrain and the intake brake mode end as they began. |
| Mechanisms.Run | src/main.cpp:239-248 | Any sequence of presses from a consistent state stays consistent. Its instants replay its trace, and the pistons stay apart at every instant. |
| Mechanisms.ReachableSafety | src/main.cpp:132-176 | From power-on (all flags false), no sequence of presses ever has the matchload and aligner flags both on. The two pistons are never both extended at any instant of the whole trace. |
| Mechanisms.FlagsAreLastWrites | src/main.cpp:99-222 | In a consistent state reached by a sound transition, each of the matchload, aligner, middle-goal, descore and top-outtake flags equals the last value written to its piston. |
| Mechanisms.FlagsTrackLastWrites | src/main.cpp:47-222 | From power-on, each piston-backed flag equals the value most recently written to its piston, or false if never written. |
| Mechanisms.TopOutakeSkipsSettle | src/main.cpp:188-199 | After a matchload activation, top outtake swaps matchload for the aligner without the 250 ms settled switch. |
| Mechanisms.SoundMeaning | src/main.cpp:99-222 | A handler's final actuators are the replay of its trace. If the pistons were apart before, they are apart after every prefix of the trace. |
| Hardware.PistonIsLastWritten | src/main.cpp:40-44 | A digital output holds exactly the value of the last write to it, or its prior value if it was never written. |
| AutonActions.SetIntake | src/autons.cpp:71 | Only the intake power changes, and the flags are untouched. |
| AutonActions.SetHoodMotor | src/autons.cpp:72 | Only the hood motor power changes, and the flags are untouched. |
| AutonActions.MotorHelperTraces | src/autons.cpp:71-72 | `set_intake` and `set_hood_motor` each issue exactly one motor command, to their own motor. |
| AutonActions.RollerHelpersCallMotorWrites | src/autons.cpp:74-104 | `bottom_intake`, `bottom_outtake`, `top_intake` and `stop_intake` issue the commands of their `set_intake`/`set_hood_motor` calls, in the source's order, then their own brake or hood write. |
| AutonActions.TopOuttakeCallsMotorWrites | src/autons.cpp:79-85 | `top_outtake` issues its `set_hood_motor` call first, then the hood, matchload and middle-goal writes, then its `set_intake` call. |
| AutonActions.MiddleGoalActionCallsMotorWrites | src/autons.cpp:106-111 | `middle_goal_action` issues its two piston writes, then its `set_hood_motor` and `set_intake` calls. |
| AutonActions.TopIntakeAfterTopOuttake | src/autons.cpp:79-102 | `top_intake` after `top_outtake` leaves the hood stopped and lowered, matchload and middle goal retracted, and the intake still reversed; the flags are unchanged. |
| AutonActions.BottomIntake | src/autons.cpp:74-77 | Intake at -127 with coast braking; nothing else changes. |
| AutonActions.BottomIntakeVersusOperator | src/autons.cpp:74-77 | Equals the operator's bottom-intake activation, except for the coast brake mode. |
| AutonActions.TopOuttake | src/autons.cpp:79-85 | Hood up with the hood motor at -127, matchload and middle goal retracted, intake at -127; the flags are not updated. |
| AutonActions.TopOuttakeVersusOperator | src/autons.cpp:79-85 | Differs from the operator's top-outtake activation only in leaving the aligner and descore pistons alone. |
| AutonActions.TopOuttakeLeavesFlagsStale | src/autons.cpp:79-85 | From power-on, the helper leaves the hood up while the top-outtake flag is still off, so consistency no longer holds. |
| AutonActions.StopIntake | src/autons.cpp:87-91 | Zeroes both motors and lowers only the hood piston. |
| AutonActions.StopIntakeMatchesOperator | src/autons.cpp:87-91 | Issues the same commands as the operator stop and leaves the flags unchanged. |
| AutonActions.AlignerDown | src/autons.cpp:92-94 | Extends only the aligner. The pistons stay apart exactly when matchload was retracted. |
| AutonActions.AlignerDownBreaksApart | src/autons.cpp:92-94 | After an operator matchload activation, the helper leaves both space-sharing pistons extended, although the flags are consistent. |
| AutonActions.AlignerUp | src/autons.cpp:95-97 | Retracts only the aligner. |
| AutonActions.AlignerUpMatchesRelease | src/autons.cpp:95-97 | Issues the operator's aligner-release commands. |
| AutonActions.TopIntake | src/autons.cpp:99-102 | Stops the hood motor and lowers the hood; nothing else changes. |
| AutonActions.TopIntakeMatchesRelease | src/autons.cpp:99-102 | Issues the operator's top-outtake-release commands. |
| AutonActions.BottomOuttake | src/autons.cpp:104 | Intake at +127; nothing else changes. |
| AutonActions.BottomOuttakeMatchesRelease | src/autons.cpp:104 | Issues the operator's bottom-intake-release command. |
| AutonActions.MiddleGoalAction | src/autons.cpp:106-111 | Middle goal extended, hood down, both rollers at -127. |
| AutonActions.MiddleGoalActionMatchesActivation | src/autons.cpp:106-111 | Issues exactly the operator's middle-goal activation commands, but does not touch the flags. |
| DriveLoops.Unsigned | src/autons.cpp:29-30 | The residue of a value modulo 2^32, equal to the value when it is already in range. |
| DriveLoops.Trunc | src/autons.cpp:41-43 | Conversion to int truncates toward zero, within one unit of the real. |
| DriveLoops.Clamp | src/autons.cpp:45-47 | The result lies in the bounds and equals the input when the input does. |
| DriveLoops.Decide | src/autons.cpp:31-47 | A fault exactly when the reading is outside [10, 2000]. Settled exactly when it is valid and the truncated error is under 15. Otherwise the power is the capped integer formula: nonzero, within ±60, and negative exactly when the robot is too far. |
| DriveLoops.PowerMatchesIntegerFormula | src/autons.cpp:43-47 | Truncating `error * -1.5` and capping at ±60 equals −sign(error)·min(60, ⌊3·abs(error)/2⌋). |
| DriveLoops.ScheduleMeaning | src/autons.cpp:29-66 | The loop schedule in index form: the first iteration starts at the first check, each later one exactly one iteration (its wait plus its lag) after the previous, and the loop's last check when the last iteration ends; hence starts are at least one wait apart. |
| DriveLoops.CorrectLoop | src/autons.cpp:30-51 | The loop ends at the first check that finds the unsigned bound reached (timeout), a reading outside [10, 2000] (fault) or a settled reading, and the exit says which. Every driving iteration sampled before the bound and used the decided power. The first check is at the given start; each later check comes exactly 20 ms plus that iteration's lag after the previous one. |
| DriveLoops.CorrectLoopTiming | src/autons.cpp:30-51 | Checks are at least 20 ms apart, so a bound allows fewer than bound/20 + 1 iterations. The loop drives at all exactly when its first check finds time left and a drivable reading. |
| DriveLoops.DriveTrace | src/autons.cpp:49-50 | One (drive both sides, wait 20 ms) block per iteration. |
| DriveLoops.CorrectionTraceEffect | src/autons.cpp:49-53 | The correction's commands leave the drive at 0 with HOLD braking, change no other actuator, and wait 20 ms per iteration. |
| DriveLoops.CorrectToGoal | src/autons.cpp:26-54 | The loop's first check comes after the time spent before it. The trace is one drive-and-wait block per iteration, then `drive_set(0,0)` and HOLD on every exit path. The drive ends stopped and holding with nothing else changed, after 20 ms of delay per iteration. |
| DriveLoops.CorrectToGoalPowers | src/autons.cpp:42-49 | Both drive sides always receive the same power, within ±60. |
| DriveLoops.GarbageSensorNeverDrives | src/autons.cpp:33-34 | A garbage first reading ends the loop before any power is commanded. |
| DriveLoops.NegativeTimeoutIsLong | src/autons.cpp:30 | Timeout -1 compares as 2^32-1, so a drivable reading gets at least one iteration. |
| DriveLoops.JiggleLoop | src/autons.cpp:59-66 | Every pulse, the last included, starts only after a check that finds the bound not reached. The first pulse starts at the given start, each later one exactly 450 ms plus the previous pulse's lag after it, and the loop ends at the first check at or past the bound. |
| DriveLoops.JiggleLoopTiming | src/autons.cpp:59-66 | No pulse runs exactly when no time is left. Pulses are at least 450 ms apart, so the bound limits their number. |
| DriveLoops.JiggleWithoutLag | src/autons.cpp:59-66 | With no overhead, the pulse count is the time budget divided by 450, rounded up. |
| DriveLoops.JiggleTraceEffect | src/autons.cpp:58-68 | The jiggle's commands leave the drive at 0 with BRAKE braking, change no other actuator, and wait 450 ms per pulse. |
| DriveLoops.Jiggle | src/autons.cpp:56-69 | The trace is COAST, then whole pulses (forward 45 for 250 ms, stop for 100 ms, back 45 for 100 ms), then `drive_set(0,0)` and BRAKE. No pulse runs exactly when the budget is no more than the time spent before the first check. The drive ends stopped and braking with nothing else changed. |

## Left out

- The autonomous routines (`LEFT_SIDE_AWP` … `auton_button_8`) are left out. They are sequences of calls into the external drive library's motion controller. They also write pistons directly and bypass the flags, which `AutonActions.AlignerDownBreaksApart` illustrates.
- `default_constants` is left out: it only sets library tuning constants.
- `initialize`, `autonomous` and `opcontrol` are left out: selector registration and the infinite polling loop. `Mechanisms.Run` stands for any sequence of presses that loop dispatches. The hardware object constructors are reduced to the `Piston` and `Motor` names.
- `include/autons.hpp` is left out: it holds declarations only.
- Time is a logical clock. `pros::delay` is a `Delay` command. Loop overhead is the `lag` parameter, the time before a loop's first check is the `setup` parameter, and the distance sensor is the `read` parameter.
- The 32-bit wrap of `pros::millis()` after about 49 days is not modelled: the elapsed time is unbounded.
- Floating point is modelled with exact reals, including `target_in * 25.4` and the `int` conversions. An error outside the `int` range, which is undefined in C++, is not modelled.
- Motor powers are recorded as commanded. The motor firmware's clamping to ±127 is not modelled.
- The initial actuator record assumes pistons retracted, motors stopped and coast braking. These are the device defaults, not written by this code.
- Each handler writes its flags in one step. Within a handler, the flags are not observable between commands.
