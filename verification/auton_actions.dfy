/**
 The actuator helpers the autonomous routines call. They write pistons and
 motors directly and never read or update the operator's toggle flags, so
 after one of them the flags may no longer describe the robot.
 */
module AutonActions {
  import opened Hardware
  import Mechanisms

  type Machine = Mechanisms.Machine
  type Transition = Mechanisms.Transition

  function SetIntake(m: Machine, speed: int): (r: Transition)
    ensures Mechanisms.Sound(m, r) && NoDelay(r.trace)
    ensures r.after == m.(act := m.act.(intake := speed))
  {
    Mechanisms.Begin(m).Emit(Move(Intake, speed))
  }

  function SetHoodMotor(m: Machine, speed: int): (r: Transition)
    ensures Mechanisms.Sound(m, r) && NoDelay(r.trace)
    ensures r.after == m.(act := m.act.(hoodMotor := speed))
  {
    Mechanisms.Begin(m).Emit(Move(HoodMotor, speed))
  }

  /** Intake reversed (inward) with coast braking. */
  function BottomIntake(m: Machine): (r: Transition)
    ensures Mechanisms.Sound(m, r) && NoDelay(r.trace)
    ensures r.after == m.(act := m.act.(intake := -127, intakeBrake := Coast))
  {
    Mechanisms.Begin(m)
      .Emit(Move(Intake, -127))
      .Emit(IntakeBrake(Coast))
  }

  /** Shoot through the hood: hood motor reversed, hood up, matchload and middle goal retracted, intake reversed. */
  function TopOuttake(m: Machine): (r: Transition)
    ensures Mechanisms.Sound(m, r) && NoDelay(r.trace)
    ensures r.after == m.(act := m.act.(hoodMotor := -127, hood := true, matchload := false,
                                         middleGoal := false, intake := -127))
  {
    Mechanisms.Begin(m)
      .Emit(Move(HoodMotor, -127))
      .Emit(SetPiston(Hood, true))
      .Emit(SetPiston(Matchload, false))
      .Emit(SetPiston(MiddleGoal, false))
      .Emit(Move(Intake, -127))
  }

  /** Both rollers stopped and the hood lowered. */
  function StopIntake(m: Machine): (r: Transition)
    ensures Mechanisms.Sound(m, r) && NoDelay(r.trace)
    ensures r.after == m.(act := m.act.(intake := 0, hoodMotor := 0, hood := false))
  {
    Mechanisms.Begin(m)
      .Emit(Move(Intake, 0))
      .Emit(Move(HoodMotor, 0))
      .Emit(SetPiston(Hood, false))
  }

  /**
   Extends the aligner without retracting matchload first: the pistons stay
   apart throughout exactly when matchload was not extended.
   */
  function AlignerDown(m: Machine): (r: Transition)
    ensures r.before == m && r.Valid() && NoDelay(r.trace)
    ensures r.after == m.(act := m.act.(aligner := true))
    ensures r.AlwaysApart() <==> !m.act.matchload
  {
    Mechanisms.Begin(m).Emit(SetPiston(Aligner, true))
  }

  function AlignerUp(m: Machine): (r: Transition)
    ensures Mechanisms.Sound(m, r) && NoDelay(r.trace)
    ensures r.after == m.(act := m.act.(aligner := false))
  {
    Mechanisms.Begin(m).Emit(SetPiston(Aligner, false))
  }

  /** Hood motor stopped and hood lowered, so balls stay in the robot; the intake is left running. */
  function TopIntake(m: Machine): (r: Transition)
    ensures Mechanisms.Sound(m, r) && NoDelay(r.trace)
    ensures r.after == m.(act := m.act.(hoodMotor := 0, hood := false))
  {
    Mechanisms.Begin(m)
      .Emit(Move(HoodMotor, 0))
      .Emit(SetPiston(Hood, false))
  }

  function BottomOuttake(m: Machine): (r: Transition)
    ensures Mechanisms.Sound(m, r) && NoDelay(r.trace)
    ensures r.after == m.(act := m.act.(intake := 127))
  {
    Mechanisms.Begin(m).Emit(Move(Intake, 127))
  }

  /** Score in the middle goal: its piston extended, hood lowered, both rollers reversed. */
  function MiddleGoalAction(m: Machine): (r: Transition)
    ensures Mechanisms.Sound(m, r) && NoDelay(r.trace)
    ensures r.after == m.(act := m.act.(middleGoal := true, hood := false, hoodMotor := -127, intake := -127))
  {
    Mechanisms.Begin(m)
      .Emit(SetPiston(MiddleGoal, true))
      .Emit(SetPiston(Hood, false))
      .Emit(Move(HoodMotor, -127))
      .Emit(Move(Intake, -127))
  }

  // ---------------------------------------------------------------------------
  // The helpers against the operator handlers
  // ---------------------------------------------------------------------------

  /** The single-motor helpers issue one motor command each. */
  lemma MotorHelperTraces(m: Machine, speed: int)
    ensures SetIntake(m, speed).trace == [Move(Intake, speed)]
    ensures SetHoodMotor(m, speed).trace == [Move(HoodMotor, speed)]
  {
    assert [] + [Move(Intake, speed)] == [Move(Intake, speed)];
    assert [] + [Move(HoodMotor, speed)] == [Move(HoodMotor, speed)];
  }

  /**
   The roller helpers issue the commands of the `set_intake`/`set_hood_motor`
   calls they make, in order, followed by their own brake or piston write.
   */
  lemma RollerHelpersCallMotorWrites(m: Machine)
    ensures BottomIntake(m).trace == SetIntake(m, -127).trace + [IntakeBrake(Coast)]
    ensures BottomOuttake(m).trace == SetIntake(m, 127).trace
    ensures TopIntake(m).trace == SetHoodMotor(m, 0).trace + [SetPiston(Hood, false)]
    ensures StopIntake(m).trace == SetIntake(m, 0).trace + SetHoodMotor(m, 0).trace + [SetPiston(Hood, false)]
  {
    MotorHelperTraces(m, -127);
    MotorHelperTraces(m, 127);
    MotorHelperTraces(m, 0);
  }

  /** The helper outtake issues its `set_hood_motor` call first and its `set_intake` call last, around the piston writes. */
  lemma TopOuttakeCallsMotorWrites(m: Machine)
    ensures TopOuttake(m).trace == SetHoodMotor(m, -127).trace
              + [SetPiston(Hood, true), SetPiston(Matchload, false), SetPiston(MiddleGoal, false)]
              + SetIntake(m, -127).trace
  {
    MotorHelperTraces(m, -127);
  }

  /** The middle-goal helper issues its piston writes, then its `set_hood_motor` and `set_intake` calls. */
  lemma MiddleGoalActionCallsMotorWrites(m: Machine)
    ensures MiddleGoalAction(m).trace == [SetPiston(MiddleGoal, true), SetPiston(Hood, false)]
              + SetHoodMotor(m, -127).trace + SetIntake(m, -127).trace
  {
    MotorHelperTraces(m, -127);
  }

  /** The top intake after the top outtake stops and lowers the hood but leaves the intake reversed. */
  lemma TopIntakeAfterTopOuttake(m: Machine)
    ensures TopIntake(TopOuttake(m).after).after.act
              == m.act.(hoodMotor := 0, hood := false, matchload := false, middleGoal := false, intake := -127)
    ensures TopIntake(TopOuttake(m).after).after.flags == m.flags
  {
  }

  /** The helper and the operator's stop issue the same commands; only the operator also clears its flags. */
  lemma StopIntakeMatchesOperator(m: Machine)
    ensures StopIntake(m).trace == Mechanisms.StopIntake(m).trace
    ensures StopIntake(m).after.act == Mechanisms.StopIntake(m).after.act
    ensures StopIntake(m).after.flags == m.flags
  {
  }

  /** The helper issues exactly the operator's middle-goal activation, without touching the flags. */
  lemma MiddleGoalActionMatchesActivation(m: Machine)
    requires !m.flags.middleGoalOn
    ensures MiddleGoalAction(m).trace == Mechanisms.MiddleGoalD(m).trace
    ensures MiddleGoalAction(m).after.act == Mechanisms.MiddleGoalD(m).after.act
  {
  }

  /** Lowering the hood is the operator's top-outtake release. */
  lemma TopIntakeMatchesRelease(m: Machine)
    requires m.flags.topOutakeOn
    ensures TopIntake(m).trace == Mechanisms.TopOutakeD(m).trace
  {
  }

  /** Reversing the intake outward is the operator's bottom-intake release. */
  lemma BottomOuttakeMatchesRelease(m: Machine)
    requires m.flags.bottomIntakeOn
    ensures BottomOuttake(m).trace == Mechanisms.BottomIntakeD(m).trace
  {
  }

  /** Raising the aligner is the operator's aligner release. */
  lemma AlignerUpMatchesRelease(m: Machine)
    requires m.flags.alignerOn
    ensures AlignerUp(m).trace == Mechanisms.AlignerD(m).trace
  {
  }

  /** The helper intake matches the operator's activation except that it also sets coast braking. */
  lemma BottomIntakeVersusOperator(m: Machine)
    requires !m.flags.bottomIntakeOn
    ensures BottomIntake(m).after.act == Mechanisms.BottomIntakeD(m).after.act.(intakeBrake := Coast)
  {
  }

  /**
   The helper outtake leaves out two actuators the operator's activation
   writes: it neither lowers the aligner nor retracts the descore piston.
   */
  lemma TopOuttakeVersusOperator(m: Machine)
    requires !m.flags.topOutakeOn
    ensures Mechanisms.TopOutakeD(m).after.act == TopOuttake(m).after.act.(aligner := true, rightDescore := false)
  {
  }

  /**
   After the operator engages matchload from power-on, the autonomous
   aligner helper extends the aligner next to it: the flags still say the
   machine is consistent, but both space-sharing pistons are out.
   */
  lemma AlignerDownBreaksApart()
    ensures Mechanisms.Consistent(Mechanisms.MatchloadD(Mechanisms.Init).after)
    ensures !PistonsApart(AlignerDown(Mechanisms.MatchloadD(Mechanisms.Init).after).after.act)
  {
  }

  /** The helpers bypass the flags: after the helper outtake from power-on, the top-outtake flag is stale. */
  lemma TopOuttakeLeavesFlagsStale()
    ensures Mechanisms.Consistent(Mechanisms.Init)
    ensures !Mechanisms.Consistent(TopOuttake(Mechanisms.Init).after)
  {
  }
}
