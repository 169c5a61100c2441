/**
 The robot's actuators as a value, and the commands that change them.

 Every piece of control logic in the program ends in writes to five pneumatic
 outputs, two mechanism motors and the drivetrain, interleaved with blocking
 delays. The model records those writes as a trace of `Command`s; `Replay`
 gives the actuator record that a trace leaves behind.
 */
module Hardware {

  /** The five ADI digital outputs (ports A to E); `true` means extended. */
  datatype Piston = Matchload | RightDescore | MiddleGoal | Hood | Aligner

  /** The two mechanism motors; the drivetrain is addressed by `DriveSet`. */
  datatype Motor = Intake | HoodMotor

  datatype BrakeMode = Coast | Brake | Hold

  /** One observable effect: an actuator write, or a blocking delay in milliseconds. */
  datatype Command =
    | SetPiston(piston: Piston, extended: bool)
    | Move(motor: Motor, power: int)
    | IntakeBrake(mode: BrakeMode)
    | DriveSet(left: int, right: int)
    | DriveBrake(mode: BrakeMode)
    | Delay(ms: nat)

  /** The last value commanded to every actuator. */
  datatype Actuators = Actuators(
    matchload: bool, rightDescore: bool, middleGoal: bool, hood: bool, aligner: bool,
    intake: int, hoodMotor: int, intakeBrake: BrakeMode,
    driveLeft: int, driveRight: int, driveBrake: BrakeMode)

  /** Power-on state: digital outputs start low, motors stopped, default coast braking. */
  const Idle: Actuators := Actuators(false, false, false, false, false, 0, 0, Coast, 0, 0, Coast)

  function PistonOf(a: Actuators, p: Piston): bool
  {
    match p
    case Matchload => a.matchload
    case RightDescore => a.rightDescore
    case MiddleGoal => a.middleGoal
    case Hood => a.hood
    case Aligner => a.aligner
  }

  /** The effect of a single command. */
  function Apply(a: Actuators, c: Command): Actuators
  {
    match c
    case SetPiston(p, v) =>
      (match p
       case Matchload => a.(matchload := v)
       case RightDescore => a.(rightDescore := v)
       case MiddleGoal => a.(middleGoal := v)
       case Hood => a.(hood := v)
       case Aligner => a.(aligner := v))
    case Move(Intake, v) => a.(intake := v)
    case Move(HoodMotor, v) => a.(hoodMotor := v)
    case IntakeBrake(mode) => a.(intakeBrake := mode)
    case DriveSet(l, r) => a.(driveLeft := l, driveRight := r)
    case DriveBrake(mode) => a.(driveBrake := mode)
    case Delay(_) => a
  }

  /** The actuator record after executing every command of `t`, in order, from `a`. */
  function Replay(a: Actuators, t: seq<Command>): Actuators
    decreases |t|
  {
    if |t| == 0 then a else Apply(Replay(a, t[..|t| - 1]), t[|t| - 1])
  }

  lemma ReplaySnoc(a: Actuators, t: seq<Command>, c: Command)
    ensures Replay(a, t + [c]) == Apply(Replay(a, t), c)
  {
    assert (t + [c])[..|t|] == t;
  }

  /** Executing two traces one after the other is executing their concatenation. */
  lemma {:induction false} ReplayAppend(a: Actuators, t1: seq<Command>, t2: seq<Command>)
    ensures Replay(a, t1 + t2) == Replay(Replay(a, t1), t2)
    decreases |t2|
  {
    if |t2| == 0 {
      assert t1 + t2 == t1;
    } else {
      var init, c := t2[..|t2| - 1], t2[|t2| - 1];
      assert t2 == init + [c];
      assert t1 + t2 == (t1 + init) + [c];
      ReplaySnoc(a, t1 + init, c);
      ReplayAppend(a, t1, init);
      ReplaySnoc(Replay(a, t1), init, c);
    }
  }

  /** Executing `c` first, then `t`. */
  lemma ReplayCons(a: Actuators, c: Command, t: seq<Command>)
    ensures Replay(a, [c] + t) == Replay(Apply(a, c), t)
  {
    ReplayAppend(a, [c], t);
    assert [c][..0] == [];
  }

  /** The value of the last write to piston `p` in `t`, or `default` if `t` never writes it. */
  function LastWritten(t: seq<Command>, p: Piston, default: bool): bool
    decreases |t|
  {
    if |t| == 0 then default
    else if t[|t| - 1].SetPiston? && t[|t| - 1].piston == p then t[|t| - 1].extended
    else LastWritten(t[..|t| - 1], p, default)
  }

  lemma ApplyPiston(a: Actuators, c: Command, p: Piston)
    ensures PistonOf(Apply(a, c), p) == if c.SetPiston? && c.piston == p then c.extended else PistonOf(a, p)
  {
  }

  /** A piston holds exactly the value most recently written to it. */
  lemma {:induction false} PistonIsLastWritten(a: Actuators, t: seq<Command>, p: Piston)
    ensures PistonOf(Replay(a, t), p) == LastWritten(t, p, PistonOf(a, p))
    decreases |t|
  {
    if |t| > 0 {
      PistonIsLastWritten(a, t[..|t| - 1], p);
      ApplyPiston(Replay(a, t[..|t| - 1]), t[|t| - 1], p);
    }
  }

  /** The matchload and aligner pistons share space: at most one may be extended. */
  predicate PistonsApart(a: Actuators)
  {
    !(a.matchload && a.aligner)
  }

  /** At every instant while `t` executes from `a`, the two pistons are apart. */
  ghost predicate ApartThroughout(a: Actuators, t: seq<Command>)
  {
    forall k | 0 <= k <= |t| :: PistonsApart(Replay(a, t[..k]))
  }

  /**
   `states` lists the actuators at every instant while `t` executes from `a`:
   before the first command, then after each command.
   */
  ghost predicate Steps(a: Actuators, t: seq<Command>, states: seq<Actuators>)
    decreases |t|
  {
    && |states| == |t| + 1
    && if |t| == 0 then states[0] == a
       else Steps(a, t[..|t| - 1], states[..|t|]) && states[|t|] == Apply(states[|t| - 1], t[|t| - 1])
  }

  lemma StepsSnoc(a: Actuators, t: seq<Command>, states: seq<Actuators>, c: Command)
    requires Steps(a, t, states)
    ensures Steps(a, t + [c], states + [Apply(states[|t|], c)])
  {
    assert (t + [c])[..|t|] == t;
    assert (states + [Apply(states[|t|], c)])[..|t| + 1] == states;
  }

  /** The instants of a stepwise execution are the replays of the trace's prefixes. */
  lemma {:induction false} StepsReplay(a: Actuators, t: seq<Command>, states: seq<Actuators>)
    requires Steps(a, t, states)
    ensures forall k | 0 <= k <= |t| :: states[k] == Replay(a, t[..k])
    decreases |t|
  {
    if |t| > 0 {
      var n := |t| - 1;
      StepsReplay(a, t[..n], states[..n + 1]);
      forall k | 0 <= k <= |t|
        ensures states[k] == Replay(a, t[..k])
      {
        if k <= n {
          assert t[..n][..k] == t[..k];
        } else {
          assert t[..k][..n] == t[..n];
        }
      }
    } else {
      assert t[..0] == t;
    }
  }

  /** Two stepwise executions run back to back form one. */
  lemma {:induction false} StepsAppend(a: Actuators, t1: seq<Command>, s1: seq<Actuators>,
                                       t2: seq<Command>, s2: seq<Actuators>)
    requires Steps(a, t1, s1) && Steps(s1[|t1|], t2, s2)
    ensures Steps(a, t1 + t2, s1 + s2[1..])
    decreases |t2|
  {
    if |t2| == 0 {
      assert t1 + t2 == t1;
      assert s1 + s2[1..] == s1;
    } else {
      var n := |t2| - 1;
      StepsAppend(a, t1, s1, t2[..n], s2[..n + 1]);
      assert t1 + t2 == (t1 + t2[..n]) + [t2[n]];
      assert s1 + s2[1..] == (s1 + s2[..n + 1][1..]) + [s2[n + 1]];
      StepsSnoc(a, t1 + t2[..n], s1 + s2[..n + 1][1..], t2[n]);
    }
  }

  /** Matchload and aligner are apart in every state of `states`. */
  predicate AllApart(states: seq<Actuators>)
    decreases |states|
  {
    |states| == 0 || (AllApart(states[..|states| - 1]) && PistonsApart(states[|states| - 1]))
  }

  lemma {:induction false} AllApartIndex(states: seq<Actuators>)
    ensures AllApart(states) <==> forall i | 0 <= i < |states| :: PistonsApart(states[i])
    decreases |states|
  {
    if |states| > 0 {
      var n := |states| - 1;
      AllApartIndex(states[..n]);
      assert forall i | 0 <= i < n :: states[..n][i] == states[i];
    }
  }

  /** A stepwise execution whose every state is apart keeps the pistons apart throughout its trace. */
  lemma StepsApart(a: Actuators, t: seq<Command>, states: seq<Actuators>)
    requires Steps(a, t, states)
    ensures Replay(a, t) == states[|t|]
    ensures AllApart(states) ==> ApartThroughout(a, t)
  {
    StepsReplay(a, t, states);
    AllApartIndex(states);
    assert t[..|t|] == t;
  }

  /** The milliseconds `t` spends blocked in delays. */
  function TotalDelay(t: seq<Command>): nat
    decreases |t|
  {
    if |t| == 0 then 0
    else TotalDelay(t[..|t| - 1]) + (if t[|t| - 1].Delay? then t[|t| - 1].ms else 0)
  }

  lemma {:induction false} TotalDelayAppend(t1: seq<Command>, t2: seq<Command>)
    ensures TotalDelay(t1 + t2) == TotalDelay(t1) + TotalDelay(t2)
    decreases |t2|
  {
    if |t2| == 0 {
      assert t1 + t2 == t1;
    } else {
      var n := |t2| - 1;
      TotalDelayAppend(t1, t2[..n]);
      assert (t1 + t2)[..|t1 + t2| - 1] == t1 + t2[..n];
    }
  }

  lemma TotalDelayCons(c: Command, t: seq<Command>)
    ensures TotalDelay([c] + t) == (if c.Delay? then c.ms else 0) + TotalDelay(t)
  {
    TotalDelayAppend([c], t);
    assert [c][..0] == [];
  }

  /** The `i`-th block of `size` commands of `t`, counting from position `start`. */
  function Block(t: seq<Command>, start: nat, size: nat, i: nat): seq<Command>
    requires start + size * (i + 1) <= |t|
  {
    t[start + size * i..start + size * (i + 1)]
  }

  /** Blocks of `t` keep their place when commands are added after it. */
  lemma BlockAppend(t: seq<Command>, w: seq<Command>, size: nat, i: nat)
    requires size * (i + 1) <= |t|
    ensures Block(t + w, 0, size, i) == Block(t, 0, size, i)
  {
    assert (t + w)[size * i..size * (i + 1)] == t[size * i..size * (i + 1)];
  }

  /** Blocks of `t` keep their place, shifted, when commands are added on either side. */
  lemma BlockShift(u: seq<Command>, t: seq<Command>, w: seq<Command>, size: nat, i: nat)
    requires size * (i + 1) <= |t|
    ensures Block(u + t + w, |u|, size, i) == Block(t, 0, size, i)
  {
    var lo, hi := size * i, size * (i + 1);
    assert (u + t + w)[|u| + lo..|u| + hi] == t[lo..hi];
  }

  /** The trace only writes pistons, moves the mechanism motors and waits: no drive or brake-mode command. */
  predicate MechanismsOnly(t: seq<Command>)
  {
    forall k | 0 <= k < |t| :: t[k].SetPiston? || t[k].Move? || t[k].Delay?
  }

  /** The trace never blocks. */
  predicate NoDelay(t: seq<Command>)
  {
    forall k | 0 <= k < |t| :: !t[k].Delay?
  }

  /**
   Positions `i < j < k` of `t` switch from piston `off` to piston `on` with a
   settle delay: `off` is retracted at `i`, a 250 ms delay runs at `j`, `on` is
   extended at `k`; `off` is not re-extended in between, and `on` is not
   extended anywhere before `k`.
   */
  ghost predicate SwitchAt(t: seq<Command>, off: Piston, on: Piston, i: nat, j: nat, k: nat)
  {
    && i < j < k < |t|
    && t[i] == SetPiston(off, false)
    && t[j] == Delay(250)
    && t[k] == SetPiston(on, true)
    && (forall n | i < n < k :: t[n] != SetPiston(off, true))
    && (forall n | 0 <= n < k :: t[n] != SetPiston(on, true))
  }

  /** Somewhere in `t`, piston `off` gives way to piston `on` after a 250 ms settle delay. */
  ghost predicate SettledSwitch(t: seq<Command>, off: Piston, on: Piston)
  {
    exists i: nat, j: nat, k: nat :: SwitchAt(t, off, on, i, j, k)
  }

  /** A settled switch stays settled when more commands follow it. */
  lemma SwitchAtAppend(t: seq<Command>, u: seq<Command>, off: Piston, on: Piston, i: nat, j: nat, k: nat)
    requires SwitchAt(t, off, on, i, j, k)
    ensures SwitchAt(t + u, off, on, i, j, k)
  {
    assert forall n | 0 <= n < |t| :: (t + u)[n] == t[n];
  }
}
