/**
 The operator mechanism state machine: six toggle flags and the seven button
 handlers that rewrite them while commanding pistons and motors.

 A handler is a pure function from the current `Machine` to a `Transition`
 that records the commands it issued, in order, including its blocking delays.
 */
module Mechanisms {
  import opened Hardware

  /** The global toggle flags, one per mechanism. */
  datatype Flags = Flags(
    matchloadOn: bool, rightDescoreOn: bool, middleGoalOn: bool,
    topOutakeOn: bool, bottomIntakeOn: bool, alignerOn: bool)

  datatype Machine = Machine(flags: Flags, act: Actuators)

  /** Every flag starts false and every actuator idle. */
  const Init: Machine := Machine(Flags(false, false, false, false, false, false), Idle)

  /**
   One call of a handler: the state before and after, the commands issued in
   between, and the actuators at every instant (before the first command and
   after each one).
   */
  datatype Transition = Transition(before: Machine, after: Machine, trace: seq<Command>,
                                   instants: seq<Actuators>)
  {
    /** The instants are the stepwise execution of the trace, ending in the final actuators. */
    ghost predicate Valid()
    {
      Steps(before.act, trace, instants) && after.act == instants[|trace|]
    }

    /** Matchload and aligner are never both extended at any recorded instant. */
    predicate AlwaysApart()
    {
      AllApart(instants)
    }

    /** Issues `c`: appends it to the trace and applies it to the actuators. */
    function Emit(c: Command): (r: Transition)
      ensures r.before == before && r.after.flags == after.flags
      ensures Valid() ==> r.Valid()
      ensures r.AlwaysApart() <==> AlwaysApart() && PistonsApart(r.after.act)
      ensures MechanismsOnly(trace) && (c.SetPiston? || c.Move? || c.Delay?) ==> MechanismsOnly(r.trace)
    {
      var next := Apply(after.act, c);
      assert (instants + [next])[..|instants|] == instants;
      assert (trace + [c])[..|trace|] == trace;
      assert MechanismsOnly(trace) && (c.SetPiston? || c.Move? || c.Delay?) ==> MechanismsOnly(trace + [c]) by {
        assert forall k | 0 <= k < |trace| :: (trace + [c])[k] == trace[k];
      }
      Transition(before, after.(act := next), trace + [c], instants + [next])
    }

    /** Rewrites the flags; no command is issued. */
    function SetFlags(f: Flags): Transition
    {
      this.(after := after.(flags := f))
    }

    /** This transition followed by `next`, which starts where this one ends. */
    function Then(next: Transition): (r: Transition)
      requires next.before == after && |next.instants| > 0
      ensures r.before == before && r.after == next.after && r.trace == trace + next.trace
      ensures Valid() && next.Valid() ==> r.Valid()
      ensures AlwaysApart() && next.AlwaysApart() ==> r.AlwaysApart()
      ensures MechanismsOnly(trace) && MechanismsOnly(next.trace) ==> MechanismsOnly(r.trace)
    {
      var r := Transition(before, next.after, trace + next.trace, instants + next.instants[1..]);
      assert Valid() && next.Valid() ==> r.Valid() by {
        if Valid() && next.Valid() {
          StepsAppend(before.act, trace, instants, next.trace, next.instants);
        }
      }
      assert AlwaysApart() && next.AlwaysApart() ==> r.AlwaysApart() by {
        AllApartIndex(instants);
        AllApartIndex(next.instants);
        AllApartIndex(r.instants);
        assert forall i | |instants| <= i < |r.instants| :: r.instants[i] == next.instants[i - |instants| + 1];
      }
      r
    }
  }

  /** The empty transition that handlers start from. */
  function Begin(m: Machine): (r: Transition)
    ensures r.before == m && r.after == m && r.trace == []
    ensures r.Valid()
    ensures r.AlwaysApart() <==> PistonsApart(m.act)
  {
    var states := [m.act];
    assert states[..0] == [];
    assert AllApart(states) <==> PistonsApart(m.act);
    Transition(m, m, [], states)
  }

  /**
   What every handler guarantees about its transition: it starts from `m`,
   its instants are the stepwise execution of its trace, and if the matchload
   and aligner pistons were apart before, they stay apart at every instant.
   */
  ghost predicate Sound(m: Machine, r: Transition)
  {
    && r.before == m
    && r.Valid()
    && (PistonsApart(m.act) ==> r.AlwaysApart())
  }

  /** A sound transition's actuators are the replay of its trace, and it keeps the pistons apart throughout. */
  lemma SoundMeaning(m: Machine, r: Transition)
    requires Sound(m, r)
    ensures r.after.act == Replay(m.act, r.trace)
    ensures PistonsApart(m.act) ==> ApartThroughout(m.act, r.trace)
  {
    StepsApart(m.act, r.trace, r.instants);
  }

  // ---------------------------------------------------------------------------
  // The seven handlers
  // ---------------------------------------------------------------------------

  /**
   The consistency the handlers maintain: matchload and aligner are never both
   on; each piston-backed flag equals its piston (the hood piston for the
   top-outtake flag); an active top outtake has the hood motor reversed; an
   active bottom intake has the intake reversed.
   */
  predicate Consistent(m: Machine)
  {
    && !(m.flags.matchloadOn && m.flags.alignerOn)
    && m.flags.matchloadOn == m.act.matchload
    && m.flags.alignerOn == m.act.aligner
    && m.flags.middleGoalOn == m.act.middleGoal
    && m.flags.rightDescoreOn == m.act.rightDescore
    && m.flags.topOutakeOn == m.act.hood
    && (m.flags.topOutakeOn ==> m.act.hoodMotor == -127)
    && (m.flags.bottomIntakeOn ==> m.act.intake == -127)
  }

  /**
   The settle sequence that switches between the two space-sharing pistons:
   retract `off`, wait 250 ms, extend `on`. The flags are not touched.
   */
  function Settle(m: Machine, off: Piston, on: Piston): (r: Transition)
    requires (off == Matchload && on == Aligner) || (off == Aligner && on == Matchload)
    ensures Sound(m, r) && MechanismsOnly(r.trace) && r.after.flags == m.flags
    ensures off == Matchload ==> r.after.act == m.act.(matchload := false, aligner := true)
    ensures off == Aligner ==> r.after.act == m.act.(aligner := false, matchload := true)
    ensures SwitchAt(r.trace, off, on, 0, 1, 2) && |r.trace| == 3
  {
    Begin(m)
      .Emit(SetPiston(off, false))
      .Emit(Delay(250))
      .Emit(SetPiston(on, true))
  }

  function RightDescoreD(m: Machine): (r: Transition)
    ensures Consistent(m) ==> Consistent(r.after)
    ensures Sound(m, r) && MechanismsOnly(r.trace) && NoDelay(r.trace)
    ensures r.after.flags.rightDescoreOn == !m.flags.rightDescoreOn
    ensures r.after.act.rightDescore == r.after.flags.rightDescoreOn
    // activation also stops the hood and clears the top-outtake mode
    ensures !m.flags.rightDescoreOn ==>
      r.after == Machine(m.flags.(rightDescoreOn := true, topOutakeOn := false),
                         m.act.(rightDescore := true, hoodMotor := 0, hood := false))
    // deactivation only retracts the descore piston
    ensures m.flags.rightDescoreOn ==>
      r.after == Machine(m.flags.(rightDescoreOn := false), m.act.(rightDescore := false))
  {
    if !m.flags.rightDescoreOn then
      Begin(m)
        .Emit(SetPiston(RightDescore, true))
        .Emit(Move(HoodMotor, 0))
        .Emit(SetPiston(Hood, false))
        .SetFlags(m.flags.(rightDescoreOn := true, topOutakeOn := false))
    else
      Begin(m)
        .Emit(SetPiston(RightDescore, false))
        .SetFlags(m.flags.(rightDescoreOn := false))
  }

  function MiddleGoalD(m: Machine): (r: Transition)
    ensures Consistent(m) ==> Consistent(r.after)
    ensures Sound(m, r) && MechanismsOnly(r.trace) && NoDelay(r.trace)
    ensures r.after.flags.middleGoalOn == !m.flags.middleGoalOn
    ensures r.after.act.middleGoal == r.after.flags.middleGoalOn
    // activation runs both rollers in reverse yet clears the top-outtake and
    // bottom-intake flags; matchload, aligner and descore are left alone
    ensures !m.flags.middleGoalOn ==>
      r.after == Machine(m.flags.(middleGoalOn := true, topOutakeOn := false, bottomIntakeOn := false),
                         m.act.(middleGoal := true, hood := false, hoodMotor := -127, intake := -127))
    ensures m.flags.middleGoalOn ==>
      r.after == Machine(m.flags.(middleGoalOn := false), m.act.(middleGoal := false))
  {
    if !m.flags.middleGoalOn then
      Begin(m)
        .Emit(SetPiston(MiddleGoal, true))
        .Emit(SetPiston(Hood, false))
        .Emit(Move(HoodMotor, -127))
        .Emit(Move(Intake, -127))
        .SetFlags(m.flags.(middleGoalOn := true, topOutakeOn := false, bottomIntakeOn := false))
    else
      Begin(m)
        .Emit(SetPiston(MiddleGoal, false))
        .SetFlags(m.flags.(middleGoalOn := false))
  }

  function AlignerD(m: Machine): (r: Transition)
    ensures Consistent(m) ==> Consistent(r.after)
    ensures Sound(m, r) && MechanismsOnly(r.trace)
    ensures r.after.flags.alignerOn == !m.flags.alignerOn
    ensures r.after.act.aligner == r.after.flags.alignerOn
    // activation forces matchload off, waits 250 ms, then extends the aligner
    ensures !m.flags.alignerOn ==>
      && r.after == Machine(m.flags.(matchloadOn := false, alignerOn := true),
                            m.act.(matchload := false, aligner := true))
      && SettledSwitch(r.trace, Matchload, Aligner)
    ensures m.flags.alignerOn ==>
      && r.after == Machine(m.flags.(alignerOn := false), m.act.(aligner := false))
      && NoDelay(r.trace)
  {
    if !m.flags.alignerOn then
      Settle(m, Matchload, Aligner).SetFlags(m.flags.(matchloadOn := false, alignerOn := true))
    else
      Begin(m)
        .Emit(SetPiston(Aligner, false))
        .SetFlags(m.flags.(alignerOn := false))
  }

  function MatchloadD(m: Machine): (r: Transition)
    ensures Consistent(m) ==> Consistent(r.after)
    ensures Sound(m, r) && MechanismsOnly(r.trace)
    ensures r.after.flags.matchloadOn == !m.flags.matchloadOn
    ensures r.after.act.matchload == r.after.flags.matchloadOn
    // activation forces the aligner off, waits 250 ms, extends matchload, then
    // lowers the middle goal and hood, stops the hood motor and runs the intake in reverse
    ensures !m.flags.matchloadOn ==>
      && r.after == Machine(
           m.flags.(alignerOn := false, matchloadOn := true, middleGoalOn := false,
                    topOutakeOn := false, bottomIntakeOn := true),
           m.act.(aligner := false, matchload := true, middleGoal := false,
                  intake := -127, hood := false, hoodMotor := 0))
      && SettledSwitch(r.trace, Aligner, Matchload)
    // deactivation is not symmetric: it retracts matchload, waits, and extends the aligner
    ensures m.flags.matchloadOn ==>
      && r.after == Machine(m.flags.(matchloadOn := false, alignerOn := true),
                            m.act.(matchload := false, aligner := true))
      && SettledSwitch(r.trace, Matchload, Aligner)
  {
    if !m.flags.matchloadOn then MatchloadEngage(m) else MatchloadRelease(m)
  }

  /** The activating branch of `MatchloadD`. */
  function MatchloadEngage(m: Machine): (r: Transition)
    ensures Consistent(m) ==> Consistent(r.after)
    ensures Sound(m, r) && MechanismsOnly(r.trace)
    ensures r.after == Machine(
              m.flags.(alignerOn := false, matchloadOn := true, middleGoalOn := false,
                       topOutakeOn := false, bottomIntakeOn := true),
              m.act.(aligner := false, matchload := true, middleGoal := false,
                     intake := -127, hood := false, hoodMotor := 0))
    ensures SettledSwitch(r.trace, Aligner, Matchload)
  {
    var switched := Settle(m, Aligner, Matchload);
    var rest := LoadingPosture(switched.after);
    SwitchAtAppend(switched.trace, rest.trace, Aligner, Matchload, 0, 1, 2);
    switched.Then(rest)
      .SetFlags(m.flags.(alignerOn := false, matchloadOn := true, middleGoalOn := false,
                         topOutakeOn := false, bottomIntakeOn := true))
  }

  /** After matchload engages: middle goal down, intake reversed, hood down and its motor stopped. */
  function LoadingPosture(m: Machine): (r: Transition)
    ensures Sound(m, r) && MechanismsOnly(r.trace) && NoDelay(r.trace)
    ensures r.after == Machine(m.flags, m.act.(middleGoal := false, intake := -127, hood := false, hoodMotor := 0))
  {
    Begin(m)
      .Emit(SetPiston(MiddleGoal, false))
      .Emit(Move(Intake, -127))
      .Emit(SetPiston(Hood, false))
      .Emit(Move(HoodMotor, 0))
  }

  /** The deactivating branch of `MatchloadD`. */
  function MatchloadRelease(m: Machine): (r: Transition)
    ensures Consistent(m) ==> Consistent(r.after)
    ensures Sound(m, r) && MechanismsOnly(r.trace)
    ensures r.after == Machine(m.flags.(matchloadOn := false, alignerOn := true),
                               m.act.(matchload := false, aligner := true))
    ensures SettledSwitch(r.trace, Matchload, Aligner)
  {
    Settle(m, Matchload, Aligner).SetFlags(m.flags.(matchloadOn := false, alignerOn := true))
  }

  function BottomIntakeD(m: Machine): (r: Transition)
    ensures Consistent(m) ==> Consistent(r.after)
    ensures Sound(m, r) && MechanismsOnly(r.trace) && NoDelay(r.trace)
    // only the bottom-intake flag flips; the intake runs inward when turning on
    // and outward when turning off
    ensures r.after == Machine(m.flags.(bottomIntakeOn := !m.flags.bottomIntakeOn),
                               m.act.(intake := if m.flags.bottomIntakeOn then 127 else -127))
  {
    if !m.flags.bottomIntakeOn then
      Begin(m)
        .Emit(Move(Intake, -127))
        .SetFlags(m.flags.(bottomIntakeOn := true))
    else
      Begin(m)
        .Emit(Move(Intake, 127))
        .SetFlags(m.flags.(bottomIntakeOn := false))
  }

  /**
   The activating branch of `TopOutakeD`: shoot through the hood with the
   aligner forced down, matchload, middle goal and descore forced up, both
   rollers reversed, and no settle delay.
   */
  function TopOutakeEngage(m: Machine): (r: Transition)
    ensures Sound(m, r) && MechanismsOnly(r.trace) && NoDelay(r.trace)
    ensures r.after == Machine(
              m.flags.(topOutakeOn := true, alignerOn := true, bottomIntakeOn := true,
                       matchloadOn := false, middleGoalOn := false, rightDescoreOn := false),
              m.act.(hoodMotor := -127, hood := true, middleGoal := false, matchload := false,
                     aligner := true, rightDescore := false, intake := -127))
  {
    Begin(m)
      .Emit(Move(HoodMotor, -127))
      .Emit(SetPiston(Hood, true))
      .Emit(SetPiston(MiddleGoal, false))
      .Emit(SetPiston(Matchload, false))
      .Emit(SetPiston(Aligner, true))
      .Emit(SetPiston(RightDescore, false))
      .Emit(Move(Intake, -127))
      .SetFlags(m.flags.(topOutakeOn := true, alignerOn := true, bottomIntakeOn := true,
                         matchloadOn := false, middleGoalOn := false, rightDescoreOn := false))
  }

  function TopOutakeD(m: Machine): (r: Transition)
    ensures Consistent(m) ==> Consistent(r.after)
    ensures Sound(m, r) && MechanismsOnly(r.trace) && NoDelay(r.trace)
    ensures r.after.flags.topOutakeOn == !m.flags.topOutakeOn
    ensures r.after.act.hood == r.after.flags.topOutakeOn
    // activation shoots through the hood: aligner forced down, matchload, middle
    // goal and descore forced up, both rollers reversed, and no settle delay
    ensures !m.flags.topOutakeOn ==> r == TopOutakeEngage(m)
    // deactivation only stops the hood motor and lowers the hood, and clears the flag
    ensures m.flags.topOutakeOn ==> r.trace == [Move(HoodMotor, 0), SetPiston(Hood, false)]
    ensures m.flags.topOutakeOn ==>
      r.after == Machine(m.flags.(topOutakeOn := false), m.act.(hoodMotor := 0, hood := false))
  {
    if !m.flags.topOutakeOn then
      TopOutakeEngage(m)
    else
      Begin(m)
        .Emit(Move(HoodMotor, 0))
        .Emit(SetPiston(Hood, false))
        .SetFlags(m.flags.(topOutakeOn := false))
  }

  function StopIntake(m: Machine): (r: Transition)
    ensures Consistent(m) ==> Consistent(r.after)
    ensures Sound(m, r) && MechanismsOnly(r.trace) && NoDelay(r.trace)
    // both rollers stop, the hood drops, the two roller flags clear; the
    // matchload, aligner, middle-goal and descore pistons and flags are untouched
    ensures r.after == Machine(m.flags.(bottomIntakeOn := false, topOutakeOn := false),
                               m.act.(intake := 0, hoodMotor := 0, hood := false))
  {
    Begin(m)
      .Emit(Move(Intake, 0))
      .Emit(Move(HoodMotor, 0))
      .Emit(SetPiston(Hood, false))
      .SetFlags(m.flags.(bottomIntakeOn := false, topOutakeOn := false))
  }

  // ---------------------------------------------------------------------------
  // Button presses and runs of them
  // ---------------------------------------------------------------------------

  /**
   The seven buttons the operator loop dispatches, in its order: L1, Y, A,
   L2, R2, R1 and UP. Presses that arrive in the same polling tick are
   handled one after another in that order, which is one of the sequences `Run` covers.
   */
  datatype Button = RightDescoreButton | MiddleGoalButton | MatchloadButton | AlignerButton
                  | BottomIntakeButton | TopOutakeButton | StopIntakeButton

  function Handle(m: Machine, b: Button): (r: Transition)
    ensures Sound(m, r)
    ensures Consistent(m) ==> Consistent(r.after)
    // no handler commands the drivetrain or the intake brake mode, so they end as they began
    ensures MechanismsOnly(r.trace)
    ensures r.after.act.driveLeft == m.act.driveLeft && r.after.act.driveRight == m.act.driveRight
    ensures r.after.act.driveBrake == m.act.driveBrake && r.after.act.intakeBrake == m.act.intakeBrake
  {
    match b
    case RightDescoreButton => RightDescoreD(m)
    case MiddleGoalButton => MiddleGoalD(m)
    case MatchloadButton => MatchloadD(m)
    case AlignerButton => AlignerD(m)
    case BottomIntakeButton => BottomIntakeD(m)
    case TopOutakeButton => TopOutakeD(m)
    case StopIntakeButton => StopIntake(m)
  }

  /** The presses `bs` handled one after another; the trace is every handler's trace in turn. */
  function Run(m: Machine, bs: seq<Button>): (r: Transition)
    ensures Sound(m, r) && MechanismsOnly(r.trace)
    ensures Consistent(m) ==> Consistent(r.after)
    decreases |bs|
  {
    if |bs| == 0 then Begin(m)
    else
      var first := Handle(m, bs[0]);
      assert PistonsApart(m.act) ==> PistonsApart(first.after.act) by {
        if PistonsApart(m.act) { AllApartIndex(first.instants); }
      }
      first.Then(Run(first.after, bs[1..]))
  }

  /**
   From power-on, no sequence of presses ever lets matchload and aligner both
   be on, by flag or by piston, at any instant.
   */
  lemma ReachableSafety(bs: seq<Button>)
    ensures !(Run(Init, bs).after.flags.matchloadOn && Run(Init, bs).after.flags.alignerOn)
    ensures ApartThroughout(Init.act, Run(Init, bs).trace)
  {
    SoundMeaning(Init, Run(Init, bs));
  }

  /** In a consistent machine reached by a sound transition, each piston-backed flag is that piston's last write. */
  lemma FlagsAreLastWrites(m: Machine, r: Transition)
    requires Sound(m, r) && Consistent(r.after)
    ensures r.after.flags.matchloadOn == LastWritten(r.trace, Matchload, m.act.matchload)
    ensures r.after.flags.alignerOn == LastWritten(r.trace, Aligner, m.act.aligner)
    ensures r.after.flags.middleGoalOn == LastWritten(r.trace, MiddleGoal, m.act.middleGoal)
    ensures r.after.flags.rightDescoreOn == LastWritten(r.trace, RightDescore, m.act.rightDescore)
    ensures r.after.flags.topOutakeOn == LastWritten(r.trace, Hood, m.act.hood)
  {
    SoundMeaning(m, r);
    PistonIsLastWritten(m.act, r.trace, Matchload);
    PistonIsLastWritten(m.act, r.trace, Aligner);
    PistonIsLastWritten(m.act, r.trace, MiddleGoal);
    PistonIsLastWritten(m.act, r.trace, RightDescore);
    PistonIsLastWritten(m.act, r.trace, Hood);
  }

  /**
   From power-on, every piston-backed flag equals the value most recently
   written to its piston (false if never written).
   */
  lemma FlagsTrackLastWrites(bs: seq<Button>)
    ensures var r := Run(Init, bs);
      && r.after.flags.matchloadOn == LastWritten(r.trace, Matchload, false)
      && r.after.flags.alignerOn == LastWritten(r.trace, Aligner, false)
      && r.after.flags.middleGoalOn == LastWritten(r.trace, MiddleGoal, false)
      && r.after.flags.rightDescoreOn == LastWritten(r.trace, RightDescore, false)
      && r.after.flags.topOutakeOn == LastWritten(r.trace, Hood, false)
  {
    FlagsAreLastWrites(Init, Run(Init, bs));
  }

  /**
   The top-outtake handler switches from matchload to aligner with no settle
   delay: right after a matchload activation from power-on, pressing top
   outtake retracts the extended matchload piston and extends the aligner
   without the 250 ms wait the other two switching handlers observe.
   */
  lemma TopOutakeSkipsSettle()
    ensures MatchloadD(Init).after.act.matchload
    ensures TopOutakeD(MatchloadD(Init).after).after.act.aligner
    ensures !SettledSwitch(TopOutakeD(MatchloadD(Init).after).trace, Matchload, Aligner)
  {
  }
}
