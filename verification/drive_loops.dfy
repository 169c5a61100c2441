/**
 The two drive loops of the autonomous helpers: `correct_to_goal`,
 a proportional controller on the rear distance sensor, and `jiggle`, a
 timed forward/back shake.

 The controller's clock and sensor are parameters: `read(t)` is the distance
 sensor's reading (in millimetres) when the loop samples it `t` ms after it
 started, and `lag(t)` is the extra time an iteration that starts at `t`
 takes beyond its explicit delays (scheduling, sensor and motor calls).
 */
module DriveLoops {
  import opened Hardware

  // ---------------------------------------------------------------------------
  // Integer arithmetic as the controller performs it
  // ---------------------------------------------------------------------------

  /** Width of the millisecond clock and of the unsigned comparison it takes part in. */
  const U32: int := 0x1_0000_0000

  /** A 32-bit value read as unsigned: the residue modulo 2^32. */
  function Unsigned(x: int): (r: nat)
    ensures r < U32
    ensures (r - x) % U32 == 0
    ensures 0 <= x < U32 ==> r == x
  {
    x % U32
  }

  /** Conversion of a real to an integer, truncating toward zero as a C++ cast does. */
  function Trunc(x: real): (r: int)
    ensures x >= 0.0 ==> r as real <= x < r as real + 1.0
    ensures x < 0.0 ==> r as real - 1.0 < x <= r as real
  {
    if x >= 0.0 then x.Floor else -((-x).Floor)
  }

  function Abs(x: int): nat
  {
    if x < 0 then -x else x
  }

  function Min(x: int, y: int): int
  {
    if x <= y then x else y
  }

  /** Caps `x` to `[lo, hi]` the way the controller does: first from above, then from below. */
  function Clamp(x: int, lo: int, hi: int): (r: int)
    requires lo <= hi
    ensures lo <= r <= hi
    ensures lo <= x <= hi ==> r == x
    ensures x > hi ==> r == hi
    ensures x < lo ==> r == lo
  {
    var capped := if x > hi then hi else x;
    if capped < lo then lo else capped
  }

  // ---------------------------------------------------------------------------
  // One decision of the distance controller
  // ---------------------------------------------------------------------------

  /** The sensor's plausible range in millimetres; anything outside is a garbage reading. */
  const MinReading: int := 10
  const MaxReading: int := 2000

  /** Readings within this many millimetres of the target count as arrived. */
  const Tolerance: int := 15

  /** Largest drive power the controller commands in either direction. */
  const PowerCap: int := 60

  /** Millimetres per inch. */
  const MmPerInch: real := 25.4

  datatype Decision = Fault | Settled | Drive(power: int)

  /** The signed distance error, truncated to whole millimetres. */
  function Error(reading: int, targetMm: real): int
  {
    Trunc(reading as real - targetMm)
  }

  /**
   The capped proportional power for error `e` in integer terms: gain 3/2,
   opposite in sign to the error, at most `PowerCap` in magnitude.
   */
  function ProportionalPower(e: int): int
  {
    if e >= 0 then -Min(PowerCap, 3 * e / 2) else Min(PowerCap, 3 * -e / 2)
  }

  /** One loop body: reject a garbage reading, stop inside the tolerance, otherwise drive. */
  function Decide(reading: int, targetMm: real): (r: Decision)
    ensures r.Fault? <==> reading < MinReading || reading > MaxReading
    ensures r.Settled? <==> MinReading <= reading <= MaxReading && Abs(Error(reading, targetMm)) < Tolerance
    ensures r.Drive? ==> r.power == ProportionalPower(Error(reading, targetMm))
    ensures r.Drive? ==> -PowerCap <= r.power <= PowerCap && r.power != 0
    // too far (positive error) drives backward, too close drives forward
    ensures r.Drive? ==> (r.power < 0 <==> Error(reading, targetMm) > 0)
  {
    if reading < MinReading || reading > MaxReading then Fault
    else
      var error := Error(reading, targetMm);
      if Abs(error) < Tolerance then Settled
      else
        var power := Clamp(Trunc(error as real * -1.5), -PowerCap, PowerCap);
        PowerMatchesIntegerFormula(error);
        Drive(power)
  }

  /** Truncating `e * -1.5` and capping it gives the integer formula. */
  lemma PowerMatchesIntegerFormula(e: int)
    ensures Clamp(Trunc(e as real * -1.5), -PowerCap, PowerCap) == ProportionalPower(e)
  {
    var m := Abs(e);
    var q := 3 * m / 2;
    assert 3 * m == 2 * q + 3 * m % 2;
    assert (3 * m) as real == 2.0 * q as real + (3 * m % 2) as real;
    assert q as real <= m as real * 1.5 < q as real + 1.0;
    assert (m as real * 1.5).Floor == q;
    if e >= 0 {
      assert e as real * -1.5 == -(m as real * 1.5);
    } else {
      assert e as real * -1.5 == m as real * 1.5;
    }
  }

  // ---------------------------------------------------------------------------
  // loop timing
  // ---------------------------------------------------------------------------

  /**
   `times` are the elapsed times at which successive loop iterations start,
   each taking `step` ms plus the lag at its start: the first starts at `now`,
   each later one when the previous ends, and `end` is when the last ends
   (`now` when there is none).
   */
  predicate Schedule(times: seq<nat>, now: nat, step: nat, lag: nat -> nat, end: nat)
    decreases |times|
  {
    if |times| == 0 then end == now
    else times[0] == now && Schedule(times[1..], now + step + lag(now), step, lag, end)
  }

  /** A schedule in index form: the exact recurrence between successive starts, and its consequences. */
  lemma {:induction false} ScheduleMeaning(times: seq<nat>, now: nat, step: nat, lag: nat -> nat, end: nat)
    requires Schedule(times, now, step, lag, end)
    ensures |times| > 0 ==> times[0] == now
    ensures forall i | 0 < i < |times| :: times[i] == times[i - 1] + step + lag(times[i - 1])
    ensures end == if |times| == 0 then now else times[|times| - 1] + step + lag(times[|times| - 1])
    ensures forall i | 0 <= i < |times| :: now + step * i <= times[i]
    ensures now + step * |times| <= end
    decreases |times|
  {
    if |times| > 0 {
      var next := now + step + lag(now);
      var rest := times[1..];
      ScheduleMeaning(rest, next, step, lag, end);
      forall i | 0 < i < |times|
        ensures times[i] == times[i - 1] + step + lag(times[i - 1])
        ensures now + step * i <= times[i]
      {
        assert times[i] == rest[i - 1];
        if i > 1 {
          assert times[i - 1] == rest[i - 2];
        }
      }
      if |rest| > 0 {
        assert times[|times| - 1] == rest[|rest| - 1];
      }
    }
  }

  // ---------------------------------------------------------------------------
  // correct_to_goal
  // ---------------------------------------------------------------------------

  /** Milliseconds each driving iteration waits before sampling again. */
  const Period: nat := 20

  datatype Exit = SensorFault | WithinTolerance | TimedOut

  /**
   The iterations of the controller: the power of each, the elapsed time at
   which each sampled the sensor, how the loop ended, and the elapsed time of
   the check that ended it.
   */
  datatype LoopOutcome = LoopOutcome(powers: seq<int>, samples: seq<nat>, exit: Exit, stoppedAt: nat)

  /**
   The controller loop from elapsed time `now` with the unsigned timeout `bound`.
   The loop condition is checked at `now`; a driving iteration takes `Period`
   plus its lag, and the next check follows it.
   */
  function CorrectLoop(targetMm: real, bound: nat, read: nat -> int, lag: nat -> nat, now: nat): (r: LoopOutcome)
    decreases if now < bound then bound - now else 0
    ensures |r.powers| == |r.samples|
    // the loop ends at the first check that finds the time used up, a fault or a settled reading
    ensures r.exit == TimedOut <==> r.stoppedAt >= bound
    ensures r.exit == SensorFault ==> Decide(read(r.stoppedAt), targetMm).Fault?
    ensures r.exit == WithinTolerance ==> Decide(read(r.stoppedAt), targetMm).Settled?
    // every driving iteration sampled before the timeout and drove with the decided power
    ensures forall i | 0 <= i < |r.samples| ::
              r.samples[i] < bound && Decide(read(r.samples[i]), targetMm) == Drive(r.powers[i])
    // the checks are paced by the iterations: see `ScheduleMeaning`
    ensures Schedule(r.samples, now, Period, lag, r.stoppedAt)
  {
    if now >= bound then LoopOutcome([], [], TimedOut, now)
    else
      match Decide(read(now), targetMm)
      case Fault => LoopOutcome([], [], SensorFault, now)
      case Settled => LoopOutcome([], [], WithinTolerance, now)
      case Drive(p) =>
        var rest := CorrectLoop(targetMm, bound, read, lag, now + Period + lag(now));
        var r := LoopOutcome([p] + rest.powers, [now] + rest.samples, rest.exit, rest.stoppedAt);
        assert r.samples[1..] == rest.samples;
        assert forall i | 0 < i < |r.samples| :: r.samples[i] == rest.samples[i - 1] && r.powers[i] == rest.powers[i - 1];
        r
  }

  /**
   The checks are at least `Period` apart, so a timeout bounds the number of
   iterations; and the loop drives at all exactly when its first check finds
   time left and a drivable reading.
   */
  lemma CorrectLoopTiming(targetMm: real, bound: nat, read: nat -> int, lag: nat -> nat, now: nat)
    ensures var r := CorrectLoop(targetMm, bound, read, lag, now);
      && now + Period * |r.samples| <= r.stoppedAt
      && (|r.samples| == 0 <==> now >= bound || !Decide(read(now), targetMm).Drive?)
      && (|r.samples| > 0 ==> Period * (|r.samples| - 1) < bound - now)
  {
    var r := CorrectLoop(targetMm, bound, read, lag, now);
    ScheduleMeaning(r.samples, now, Period, lag, r.stoppedAt);
    if |r.samples| > 0 {
      assert now + Period * (|r.samples| - 1) <= r.samples[|r.samples| - 1] < bound;
    }
  }

  /** The commands of one driving iteration: set both sides to the power, then wait. */
  function Iteration(power: int): seq<Command>
  {
    [DriveSet(power, power), Delay(Period)]
  }

  /** The commands of the driving iterations, one `Iteration` per power. */
  function DriveTrace(powers: seq<int>): (t: seq<Command>)
    ensures |t| == 2 * |powers|
    ensures forall i | 0 <= i < |powers| :: Block(t, 0, 2, i) == Iteration(powers[i])
    decreases |powers|
  {
    if |powers| == 0 then []
    else
      var n := |powers| - 1;
      var prev := DriveTrace(powers[..n]);
      var t := prev + Iteration(powers[n]);
      assert forall i | 0 <= i < n :: Block(t, 0, 2, i) == Block(prev, 0, 2, i);
      assert Block(t, 0, 2, n) == Iteration(powers[n]);
      t
  }

  /** If every power is within `cap`, every drive command sets both sides to the same power within `cap`. */
  lemma {:induction false} DriveTraceCapped(powers: seq<int>, cap: int)
    requires forall i | 0 <= i < |powers| :: -cap <= powers[i] <= cap
    ensures forall k | 0 <= k < |DriveTrace(powers)| :: DriveTrace(powers)[k].DriveSet? ==>
              DriveTrace(powers)[k].left == DriveTrace(powers)[k].right && -cap <= DriveTrace(powers)[k].left <= cap
    decreases |powers|
  {
    if |powers| > 0 {
      var n := |powers| - 1;
      DriveTraceCapped(powers[..n], cap);
      assert DriveTrace(powers) == DriveTrace(powers[..n]) + Iteration(powers[n]);
    }
  }

  lemma IterationEffect(a: Actuators, p: int)
    ensures Replay(a, Iteration(p)) == a.(driveLeft := p, driveRight := p)
    ensures TotalDelay(Iteration(p)) == Period
  {
    ReplayCons(a, DriveSet(p, p), [Delay(Period)]);
    ReplayCons(a.(driveLeft := p, driveRight := p), Delay(Period), []);
    TotalDelayCons(DriveSet(p, p), [Delay(Period)]);
    TotalDelayCons(Delay(Period), []);
    assert [Delay(Period)] + [] == [Delay(Period)];
  }

  /** The driving iterations only touch the drive sides, and block `Period` ms each. */
  lemma {:induction false} DriveTraceEffect(a: Actuators, powers: seq<int>)
    ensures |powers| == 0 ==> Replay(a, DriveTrace(powers)) == a
    ensures |powers| > 0 ==>
      Replay(a, DriveTrace(powers)) == a.(driveLeft := powers[|powers| - 1], driveRight := powers[|powers| - 1])
    ensures TotalDelay(DriveTrace(powers)) == Period * |powers|
    decreases |powers|
  {
    if |powers| > 0 {
      var n := |powers| - 1;
      var prev := DriveTrace(powers[..n]);
      var p := powers[n];
      DriveTraceEffect(a, powers[..n]);
      assert DriveTrace(powers) == prev + Iteration(p);
      ReplayAppend(a, prev, Iteration(p));
      IterationEffect(Replay(a, prev), p);
      TotalDelayAppend(prev, Iteration(p));
    }
  }

  /** The closing commands of both loops: stop the drive, then set its brake mode. */
  function Stop(mode: BrakeMode): seq<Command>
  {
    [DriveSet(0, 0), DriveBrake(mode)]
  }

  lemma StopEffect(a: Actuators, mode: BrakeMode)
    ensures Replay(a, Stop(mode)) == a.(driveLeft := 0, driveRight := 0, driveBrake := mode)
    ensures TotalDelay(Stop(mode)) == 0
  {
    ReplayCons(a, DriveSet(0, 0), [DriveBrake(mode)]);
    ReplayCons(a.(driveLeft := 0, driveRight := 0), DriveBrake(mode), []);
    TotalDelayCons(DriveSet(0, 0), [DriveBrake(mode)]);
    TotalDelayCons(DriveBrake(mode), []);
    assert [DriveBrake(mode)] + [] == [DriveBrake(mode)];
  }

  /** The commands of the whole correction for the given iteration powers: drive, then stop and hold. */
  function CorrectionTrace(powers: seq<int>): (t: seq<Command>)
    ensures |t| == 2 * |powers| + 2
    ensures forall i | 0 <= i < |powers| :: Block(t, 0, 2, i) == Iteration(powers[i])
    ensures t[|t| - 2..] == Stop(Hold)
  {
    var drive := DriveTrace(powers);
    var tail := Stop(Hold);
    forall i | 0 <= i < |powers|
      ensures Block(drive + tail, 0, 2, i) == Iteration(powers[i])
    {
      BlockAppend(drive, tail, 2, i);
    }
    drive + tail
  }

  /** The correction leaves the drive stopped and holding, changes nothing else, and blocks `Period` ms per iteration. */
  lemma CorrectionTraceEffect(a: Actuators, powers: seq<int>)
    ensures Replay(a, CorrectionTrace(powers)) == a.(driveLeft := 0, driveRight := 0, driveBrake := Hold)
    ensures TotalDelay(CorrectionTrace(powers)) == Period * |powers|
  {
    var drive := DriveTrace(powers);
    var tail := Stop(Hold);
    assert CorrectionTrace(powers) == drive + tail;
    DriveTraceEffect(a, powers);
    ReplayAppend(a, drive, tail);
    StopEffect(Replay(a, drive), Hold);
    TotalDelayAppend(drive, tail);
  }

  datatype Correction = Correction(loop: LoopOutcome, trace: seq<Command>)

  /**
   Drives straight until the rear distance sensor reads `targetIn` inches,
   within `Tolerance` mm, or until `timeoutMs` ms have passed; then stops the
   drive and holds it. The elapsed-time check compares unsigned 32-bit values.
   `setup` is the elapsed time, after the start time is taken, at which the
   loop condition is first checked.
   */
  function CorrectToGoal(a: Actuators, targetIn: real, timeoutMs: int, setup: nat, read: nat -> int, lag: nat -> nat)
    : (r: Correction)
    ensures r.loop == CorrectLoop(targetIn * MmPerInch, Unsigned(timeoutMs), read, lag, setup)
    // one set-and-wait pair per iteration, then stop and hold
    ensures |r.trace| == 2 * |r.loop.powers| + 2
    ensures forall i | 0 <= i < |r.loop.powers| :: Block(r.trace, 0, 2, i) == Iteration(r.loop.powers[i])
    ensures r.trace[|r.trace| - 2..] == Stop(Hold)
    // afterwards the drive is stopped and holding, and nothing else has changed
    ensures Replay(a, r.trace) == a.(driveLeft := 0, driveRight := 0, driveBrake := Hold)
    ensures TotalDelay(r.trace) == Period * |r.loop.powers|
  {
    var loop := CorrectLoop(targetIn * MmPerInch, Unsigned(timeoutMs), read, lag, setup);
    CorrectionTraceEffect(a, loop.powers);
    Correction(loop, CorrectionTrace(loop.powers))
  }

  /** Capped iteration powers give a correction whose drive commands are symmetric and capped. */
  lemma CorrectionTraceCapped(powers: seq<int>, cap: int)
    requires 0 <= cap
    requires forall i | 0 <= i < |powers| :: -cap <= powers[i] <= cap
    ensures forall k | 0 <= k < |CorrectionTrace(powers)| :: CorrectionTrace(powers)[k].DriveSet? ==>
              CorrectionTrace(powers)[k].left == CorrectionTrace(powers)[k].right &&
              -cap <= CorrectionTrace(powers)[k].left <= cap
  {
    var t, drive := CorrectionTrace(powers), DriveTrace(powers);
    assert t == drive + Stop(Hold);
    DriveTraceCapped(powers, cap);
    forall k | 0 <= k < |t| && t[k].DriveSet?
      ensures t[k].left == t[k].right && -cap <= t[k].left <= cap
    {
      if k < |drive| {
        assert t[k] == drive[k];
      } else {
        assert t[k] == Stop(Hold)[k - |drive|];
      }
    }
  }

  /** Both drive sides always receive the same power, never more than `PowerCap` either way. */
  lemma CorrectToGoalPowers(a: Actuators, targetIn: real, timeoutMs: int, setup: nat, read: nat -> int, lag: nat -> nat)
    ensures var t := CorrectToGoal(a, targetIn, timeoutMs, setup, read, lag).trace;
      forall k | 0 <= k < |t| :: t[k].DriveSet? ==> t[k].left == t[k].right && -PowerCap <= t[k].left <= PowerCap
  {
    var loop := CorrectLoop(targetIn * MmPerInch, Unsigned(timeoutMs), read, lag, setup);
    forall i | 0 <= i < |loop.powers|
      ensures -PowerCap <= loop.powers[i] <= PowerCap
    {
      var d := Decide(read(loop.samples[i]), targetIn * MmPerInch);
      assert d == Drive(loop.powers[i]);
    }
    CorrectionTraceCapped(loop.powers, PowerCap);
  }

  /** A sensor that reports garbage from the start stops the robot without driving. */
  lemma GarbageSensorNeverDrives(a: Actuators, targetIn: real, timeoutMs: int, setup: nat, read: nat -> int, lag: nat -> nat)
    requires read(setup) < MinReading || read(setup) > MaxReading
    ensures CorrectToGoal(a, targetIn, timeoutMs, setup, read, lag).trace == Stop(Hold)
  {
  }

  /**
   A negative timeout does not mean "no time": compared unsigned, -1 ms
   becomes the largest possible bound, so with a drivable reading the loop runs.
   */
  lemma NegativeTimeoutIsLong(read: nat -> int, lag: nat -> nat, targetIn: real, setup: nat)
    requires setup < U32 - 1
    requires Decide(read(setup), targetIn * MmPerInch).Drive?
    ensures Unsigned(-1) == U32 - 1
    ensures |CorrectLoop(targetIn * MmPerInch, Unsigned(-1), read, lag, setup).powers| > 0
  {
  }

  // ---------------------------------------------------------------------------
  // jiggle
  // ---------------------------------------------------------------------------

  /** Drive power of a jiggle pulse. */
  const JigglePower: int := 45

  /** One forward/back pulse: forward 250 ms, pause 100 ms, backward 100 ms. */
  const Pulse: seq<Command> := [DriveSet(JigglePower, JigglePower), Delay(250), DriveSet(0, 0), Delay(100),
                                DriveSet(-JigglePower, -JigglePower), Delay(100)]

  /** Milliseconds of delay in one pulse. */
  const PulseDelay: nat := 450

  /** `n` pulses back to back. */
  function Pulses(n: nat): (t: seq<Command>)
    ensures |t| == |Pulse| * n
    ensures forall i | 0 <= i < n :: Block(t, 0, |Pulse|, i) == Pulse
  {
    if n == 0 then []
    else
      var prev := Pulses(n - 1);
      var t := prev + Pulse;
      assert forall i | 0 <= i < n - 1 :: Block(t, 0, |Pulse|, i) == Block(prev, 0, |Pulse|, i);
      assert Block(t, 0, |Pulse|, n - 1) == Pulse;
      t
  }

  lemma PulseEffect(a: Actuators)
    ensures Replay(a, Pulse) == a.(driveLeft := -JigglePower, driveRight := -JigglePower)
    ensures TotalDelay(Pulse) == PulseDelay
  {
    var c0, c1, c2 := DriveSet(JigglePower, JigglePower), Delay(250), DriveSet(0, 0);
    var c3, c4, c5 := Delay(100), DriveSet(-JigglePower, -JigglePower), Delay(100);
    var t5: seq<Command> := [c5];
    var t4 := [c4] + t5;
    var t3 := [c3] + t4;
    var t2 := [c2] + t3;
    var t1 := [c1] + t2;
    assert Pulse == [c0] + t1;
    var b := a.(driveLeft := JigglePower, driveRight := JigglePower);
    var c := a.(driveLeft := 0, driveRight := 0);
    var d := a.(driveLeft := -JigglePower, driveRight := -JigglePower);
    ReplayCons(a, c0, t1);
    ReplayCons(b, c1, t2);
    ReplayCons(b, c2, t3);
    ReplayCons(c, c3, t4);
    ReplayCons(c, c4, t5);
    ReplayCons(d, c5, []);
    assert t5 == [c5] + [];
    TotalDelayCons(c0, t1);
    TotalDelayCons(c1, t2);
    TotalDelayCons(c2, t3);
    TotalDelayCons(c3, t4);
    TotalDelayCons(c4, t5);
    TotalDelayCons(c5, []);
  }

  /** Pulses touch only the drive sides and block `PulseDelay` ms each. */
  lemma {:induction false} PulsesEffect(a: Actuators, n: nat)
    ensures n == 0 ==> Replay(a, Pulses(n)) == a
    ensures n > 0 ==> Replay(a, Pulses(n)) == a.(driveLeft := -JigglePower, driveRight := -JigglePower)
    ensures TotalDelay(Pulses(n)) == PulseDelay * n
  {
    if n > 0 {
      PulsesEffect(a, n - 1);
      assert Pulses(n) == Pulses(n - 1) + Pulse;
      ReplayAppend(a, Pulses(n - 1), Pulse);
      TotalDelayAppend(Pulses(n - 1), Pulse);
      PulseEffect(Replay(a, Pulses(n - 1)));
    }
  }

  /** The elapsed times at which the pulses started, and of the check that ended the loop. */
  datatype JiggleOutcome = JiggleOutcome(starts: seq<nat>, stoppedAt: nat)

  /**
   The pulse loop from elapsed time `now` with the unsigned bound `bound`.
   A pulse starts only after a check that finds time left; it takes
   `PulseDelay` plus its lag, and the next check follows it.
   */
  function JiggleLoop(bound: nat, lag: nat -> nat, now: nat): (r: JiggleOutcome)
    decreases if now < bound then bound - now else 0
    // every pulse, the last included, started before the bound; the loop ended at the first check past it
    ensures forall i | 0 <= i < |r.starts| :: r.starts[i] < bound
    ensures r.stoppedAt >= bound
    ensures Schedule(r.starts, now, PulseDelay, lag, r.stoppedAt)
  {
    if now >= bound then JiggleOutcome([], now)
    else
      var rest := JiggleLoop(bound, lag, now + PulseDelay + lag(now));
      JiggleOutcome([now] + rest.starts, rest.stoppedAt)
  }

  /** Pulses are at least `PulseDelay` apart, so the bound limits their number; none runs only when no time is left. */
  lemma JiggleLoopTiming(bound: nat, lag: nat -> nat, now: nat)
    ensures var r := JiggleLoop(bound, lag, now);
      && (|r.starts| == 0 <==> now >= bound)
      && now + PulseDelay * |r.starts| <= r.stoppedAt
      && (|r.starts| > 0 ==> PulseDelay * (|r.starts| - 1) < bound - now)
  {
    var r := JiggleLoop(bound, lag, now);
    ScheduleMeaning(r.starts, now, PulseDelay, lag, r.stoppedAt);
    if |r.starts| > 0 {
      assert now + PulseDelay * (|r.starts| - 1) <= r.starts[|r.starts| - 1] < bound;
    }
  }

  /** Without lag, the pulse count is the time budget divided by the pulse length, rounded up. */
  lemma {:induction false} JiggleWithoutLag(bound: nat, lag: nat -> nat, now: nat)
    requires forall t :: lag(t) == 0
    ensures now < bound ==> |JiggleLoop(bound, lag, now).starts| == (bound - now + PulseDelay - 1) / PulseDelay
    decreases if now < bound then bound - now else 0
  {
    if now < bound {
      JiggleWithoutLag(bound, lag, now + PulseDelay);
    }
  }

  /** The commands of a jiggle with `n` pulses: coast, the pulses, then stop and brake. */
  function JiggleTrace(n: nat): (t: seq<Command>)
    ensures |t| == |Pulse| * n + 3
    ensures t[0] == DriveBrake(Coast)
    ensures forall i | 0 <= i < n :: Block(t, 1, |Pulse|, i) == Pulse
    ensures t[|t| - 2..] == Stop(Brake)
  {
    var pulses := Pulses(n);
    var tail := Stop(Brake);
    var t := [DriveBrake(Coast)] + (pulses + tail);
    forall i | 0 <= i < n
      ensures Block(t, 1, |Pulse|, i) == Pulse
    {
      BlockShift([DriveBrake(Coast)], pulses, tail, |Pulse|, i);
      assert [DriveBrake(Coast)] + pulses + tail == t;
    }
    t
  }

  /** A jiggle leaves the drive stopped and braking, changes nothing else, and blocks `PulseDelay` ms per pulse. */
  lemma JiggleTraceEffect(a: Actuators, n: nat)
    ensures Replay(a, JiggleTrace(n)) == a.(driveLeft := 0, driveRight := 0, driveBrake := Brake)
    ensures TotalDelay(JiggleTrace(n)) == PulseDelay * n
  {
    var pulses := Pulses(n);
    var tail := Stop(Brake);
    var b := a.(driveBrake := Coast);
    assert JiggleTrace(n) == [DriveBrake(Coast)] + (pulses + tail);
    ReplayCons(a, DriveBrake(Coast), pulses + tail);
    PulsesEffect(b, n);
    ReplayAppend(b, pulses, tail);
    StopEffect(Replay(b, pulses), Brake);
    TotalDelayCons(DriveBrake(Coast), pulses + tail);
    TotalDelayAppend(pulses, tail);
  }

  datatype Jiggling = Jiggling(loop: JiggleOutcome, trace: seq<Command>)

  /**
   Shakes the robot for `timeMs` ms: coast, repeat the pulse while time
   remains (compared unsigned), then stop the drive and brake it. `setup` is
   the elapsed time, after the start time is taken, at which the loop
   condition is first checked: setting the brake mode comes in between.
   */
  function Jiggle(a: Actuators, timeMs: int, setup: nat, lag: nat -> nat): (r: Jiggling)
    ensures r.loop == JiggleLoop(Unsigned(timeMs), lag, setup)
    ensures |r.trace| == |Pulse| * |r.loop.starts| + 3
    ensures r.trace[0] == DriveBrake(Coast)
    ensures forall i | 0 <= i < |r.loop.starts| :: Block(r.trace, 1, |Pulse|, i) == Pulse
    ensures r.trace[|r.trace| - 2..] == Stop(Brake)
    // no pulse runs exactly when the budget is used up by the first check
    ensures |r.loop.starts| == 0 <==> Unsigned(timeMs) <= setup
    // afterwards the drive is stopped and braking, and nothing else has changed
    ensures Replay(a, r.trace) == a.(driveLeft := 0, driveRight := 0, driveBrake := Brake)
    ensures TotalDelay(r.trace) == PulseDelay * |r.loop.starts|
  {
    var loop := JiggleLoop(Unsigned(timeMs), lag, setup);
    JiggleLoopTiming(Unsigned(timeMs), lag, setup);
    JiggleTraceEffect(a, |loop.starts|);
    Jiggling(loop, JiggleTrace(|loop.starts|))
  }
}
