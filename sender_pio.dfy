/**
 * The step loop of the sender firmware (sender/pio.c): the axis-to-PIO
 * mapping, the clamped PID controller, and the two per-period step
 * routines do_steps and do_steps_nope. Each turns an axis reading into a
 * step length for the PIO, reads back the steps made in the previous
 * period, and reports the new position and velocity.
 *
 * Both routines call a seven-argument get_axis_config/update_axis_config
 * that sender/config.c does not define; their reading is a parameter here
 * and their write-back a result. The blocking read of the steps achieved
 * is a parameter too.
 */
module SenderPio {
  import opened CInt
  import opened Wrappers

  /** MAX_AXIS of sender/sender.h. */
  const MAX_AXIS: nat := 4
  const CLOCK_MULTIPLIER: nat := 133
  const STEP_LEN_OVERHEAD: nat := 15
  const MAX_VELOCITY: nat := 100

  /** A PIO block and one of its state machines. */
  datatype PioSm = PioSm(pio: nat, sm: nat)

  /** axis_to_pio (sender/pio.c:59-78): axes 0-3 are pio0 with sm = axis,
   *  axes 4-7 pio1 with sm = axis - 4; any other axis sets nothing. */
  function AxisToPio(axis: nat): (t: Option<PioSm>)
    ensures axis < 8 <==> t.Some?
    ensures t.Some? ==> t.value.sm < 4 && t.value.pio < 2 && 4 * t.value.pio + t.value.sm == axis
  {
    if axis < 4 then Some(PioSm(0, axis))
    else if axis < 8 then Some(PioSm(1, axis - 4))
    else None
  }

  /** C's conversion of a floating value to an integer type: toward zero. */
  function Trunc(x: real): (n: int)
    ensures Abs(n) as real <= (if x >= 0.0 then x else -x) < Abs(n) as real + 1.0
    ensures x >= 0.0 ==> n >= 0
    ensures x <= 0.0 ==> n <= 0
  {
    if x >= 0.0 then x.Floor else -((-x).Floor)
  }

  /** The gains of pid (sender/pio.c:84-88). kp is a double; ki and kd are
   *  int32_t initialised from 0.2 and 0.5. */
  const KP: real := 0.1
  const KI: int := Trunc(0.2)
  const KD: int := Trunc(0.5)

  /** The integral and derivative gains truncate to zero, so pid is a pure
   *  proportional controller. */
  lemma GainsAreZero()
    ensures KI == 0 && KD == 0
  {
    assert (0.2).Floor == 0;
    assert (0.5).Floor == 0;
  }

  /** The clamp of pid (sender/pio.c:95-99). */
  function Clamp(v: int): (c: int)
    ensures -(MAX_VELOCITY as int) <= c <= MAX_VELOCITY
    ensures -(MAX_VELOCITY as int) <= v <= MAX_VELOCITY ==> c == v
    ensures v > MAX_VELOCITY ==> c == MAX_VELOCITY
    ensures v < -(MAX_VELOCITY as int) ==> c == -(MAX_VELOCITY as int)
  {
    if v > MAX_VELOCITY then MAX_VELOCITY else if v < -(MAX_VELOCITY as int) then -(MAX_VELOCITY as int) else v
  }

  /** The velocity pid computes from an error, the updated integral and
   *  the derivative, with the double arithmetic taken exactly. */
  function PidVelocity(error: i32, integral: i32, derivative: i32): (v: i32)
    ensures -(MAX_VELOCITY as int) <= v <= MAX_VELOCITY
  {
    Clamp(Trunc(KP * error as real + (KI * integral) as real + (KD * derivative) as real))
  }

  /** pid's velocity is a tenth of the position error, truncated toward
   *  zero and clamped to [-100, 100], whatever the integral. */
  lemma PidIsTenth(error: i32, integral: i32, derivative: i32)
    ensures PidVelocity(error, integral, derivative) == Clamp(CDiv(error, 10))
  {
    GainsAreZero();
    var x := KP * error as real;
    assert KP * error as real + (KI * integral) as real + (KD * derivative) as real == x;
    var e := Abs(error);
    var q := e / 10;
    assert e == 10 * q + e % 10;
    assert 0.1 * e as real == q as real + (e % 10) as real / 10.0;
    assert (0.1 * e as real).Floor == q;
    if error < 0 {
      assert -x == 0.1 * e as real;
    } else {
      assert x == 0.1 * e as real;
    }
  }

  /** The step length of both routines (sender/pio.c:153-159, 247-253):
   *  half the period per step in ticks less 15, in uint32_t, read as
   *  int32_t, and 1 when that is below 3. */
  function StepLen(updateTimeUs: u32, count: u32): (len: i32)
    requires count > 0
    ensures len == 1 || len >= 3
  {
    var q := U32(updateTimeUs * CLOCK_MULTIPLIER) / count / 2;
    var s := I32(U32(q - STEP_LEN_OVERHEAD));
    if s < 3 then 1 else s
  }

  /** A step length equals the half period less the overhead exactly when
   *  that is at least 3, and is 1 otherwise. */
  lemma StepLenShape(updateTimeUs: u32, count: u32)
    requires count > 0
    ensures var q := U32(updateTimeUs * CLOCK_MULTIPLIER) / count / 2;
      var len := StepLen(updateTimeUs, count);
      && (q >= STEP_LEN_OVERHEAD + 3 ==> len == q - STEP_LEN_OVERHEAD)
      && (q < STEP_LEN_OVERHEAD + 3 ==> len == 1)
  {
    var n := U32(updateTimeUs * CLOCK_MULTIPLIER);
    var m := n / count;
    DivAtMost(n, count);
    OverheadOff(m / 2);
  }

  /** A quotient by a positive divisor is at most the dividend. */
  lemma DivAtMost(n: nat, d: nat)
    requires d > 0
    ensures n / d <= n
  {
    var q := n / d;
    if q > 0 {
      MulAtLeast(d, q);
      assert q * d <= n;
    }
  }

  /** The overhead taken off a half period below 2^31 in uint32_t and read
   *  as int32_t is plain subtraction. */
  lemma OverheadOff(q: nat)
    requires q < 0x8000_0000
    ensures I32(U32(q - STEP_LEN_OVERHEAD)) == q - STEP_LEN_OVERHEAD
  {
    if q < STEP_LEN_OVERHEAD {
      DivModUnique(q - STEP_LEN_OVERHEAD, 0x1_0000_0000, -1, q - STEP_LEN_OVERHEAD + 0x1_0000_0000);
    }
  }

  /** The position after the steps achieved, forwards or backwards by
   *  direction (sender/pio.c:171, 277). */
  function Advanced(position: u32, forward: bool, achieved: u32): u32
  {
    if forward then U32(position + achieved) else U32(position - achieved)
  }

  /** velocity_acheived (sender/pio.c:172, 278): the steps achieved, negated
   *  in uint32_t when backwards, read as int32_t. */
  function VelocityAchieved(forward: bool, achieved: u32): i32
  {
    if forward then I32(achieved) else I32(U32(-(achieved as int)))
  }

  /** The reported velocity accounts for the position change: adding it to
   *  the old position in uint32_t gives the new one. */
  lemma VelocityMatchesAdvance(position: u32, forward: bool, achieved: u32)
    ensures U32(position + VelocityAchieved(forward, achieved)) == Advanced(position, forward, achieved)
  {
    if forward {
      I32Congruent(position, achieved);
    } else {
      I32Congruent(position, U32(-(achieved as int)));
      ModAddBoth(-(achieved as int), position, 0x1_0000_0000);
    }
  }

  /**
   * The acceleration limit of do_steps_nope (sender/pio.c:219-240): a
   * change from the last velocity larger than max_accel_ticks is cut to
   * last ± max_accel_ticks, and a velocity of the opposite sign to the
   * last becomes 0. The int32_t sums wrap.
   */
  function Limited(requested: i32, last: i32, maxAccel: u32): i32
  {
    var accel := I32(requested - last);
    var applied :=
      if Abs(accel) > maxAccel then
        var newAccel := if accel > 0 then I32(maxAccel) else if accel < 0 then I32(U32(-(maxAccel as int))) else 0;
        I32(last + newAccel)
      else requested;
    if (applied > 0 && last < 0) || (applied < 0 && last > 0) then 0 else applied
  }

  /** Away from int32_t overflow, the limited velocity never reverses the
   *  direction of the last one, differs from it by at most the limit, and
   *  is the requested velocity whenever that is within the limit and does
   *  not reverse. */
  lemma LimitedBounds(requested: i32, last: i32, maxAccel: u32)
    requires Abs(requested - last) < 0x8000_0000 && Abs(last) + maxAccel < 0x8000_0000
    ensures var v := Limited(requested, last, maxAccel);
      && !(v > 0 && last < 0) && !(v < 0 && last > 0)
      && Abs(v - last) <= maxAccel
      && (Abs(requested - last) <= maxAccel && !(requested > 0 && last < 0) && !(requested < 0 && last > 0)
          ==> v == requested)
  {
    var accel := requested - last;
    assert I32(accel) == accel;
    if Abs(accel) > maxAccel {
      assert I32(maxAccel) == maxAccel;
      if accel < 0 && maxAccel > 0 {
        DivModUnique(-(maxAccel as int), 0x1_0000_0000, -1, 0x1_0000_0000 - maxAccel);
        assert I32(U32(-(maxAccel as int))) == -(maxAccel as int);
      }
    }
  }

  /** What the routines write back through update_axis_config. */
  datatype Feedback = Feedback(absPosAcheived: u32, velocityAcheived: i32)

  /** The PIO request and the direction pin of one period. */
  datatype Request = Request(target: PioSm, forward: bool, stepLenTicks: i32)

  /** The statics of sender/pio.c. */
  class StepLoop {
    /** pid's integral per axis; its last_error is never written, so it
     *  stays 0 and is not a field. */
    const integral: array<i32>
    /** do_steps's call counters. */
    var count: u32
    var failCount: u32
    /** do_steps_nope's call counters and last applied velocity per axis. */
    var countNope: u32
    var failCountNope: u32
    const lastVelocity: array<i32>

    ghost predicate Valid()
      reads this
    {
      integral.Length == MAX_AXIS && lastVelocity.Length == MAX_AXIS && integral != lastVelocity
    }

    constructor ()
      ensures Valid() && fresh(integral) && fresh(lastVelocity)
      ensures integral[..] == [0, 0, 0, 0] && lastVelocity[..] == [0, 0, 0, 0]
      ensures count == 0 && failCount == 0 && countNope == 0 && failCountNope == 0
    {
      integral := new i32[MAX_AXIS](_ => 0);
      lastVelocity := new i32[MAX_AXIS](_ => 0);
      count, failCount, countNope, failCountNope := 0, 0, 0, 0;
      new;
      assert integral[..] == [0, 0, 0, 0];
      assert lastVelocity[..] == [0, 0, 0, 0];
    }

    /** pid (sender/pio.c:80-102): the error is the position difference in
     *  uint32_t read as int32_t; it is added to the axis's integral and the
     *  clamped velocity returned. */
    method Pid(axis: nat, current: u32, desired: u32) returns (velocity: i32)
      requires Valid() && axis < MAX_AXIS
      modifies integral
      ensures var error := I32(desired - current);
        && integral[..] == old(integral[..])[axis := I32(old(integral[axis]) + error)]
        && velocity == PidVelocity(error, integral[axis], error)
    {
      var error := I32(desired as int - current);
      integral[axis] := I32(integral[axis] as int + error);
      var derivative := I32(error - 0);
      var v := Trunc(KP * error as real + (KI * integral[axis]) as real + (KD * derivative) as real);
      velocity := Clamp(v);
    }

    /**
     * do_steps (sender/pio.c:104-177). Nothing happens and 0 is returned
     * when the reading reports no update. Otherwise the PID velocity sets
     * the direction and, above one step, the step length; the steps
     * achieved in the previous period move the position.
     */
    method DoSteps(axis: nat, updateTimeUs: u32, updated: u32, absPosRequested: u32, absPosAcheived: u32,
                   stepsAchieved: u32)
      returns (result: u8, request: Request, back: Feedback)
      requires Valid() && (updated > 0 ==> axis < MAX_AXIS)
      modifies this, integral
      ensures updated == 0 ==>
        && result == 0 && integral[..] == old(integral[..]) && count == old(count) && failCount == old(failCount)
      ensures updated > 0 ==>
        var error := I32(absPosRequested - absPosAcheived);
        var velocity := PidVelocity(error, integral[axis], error);
        var steps := Abs(velocity);
        && result == 1
        && integral[..] == old(integral[..])[axis := I32(old(integral[axis]) + error)]
        && count == U32(old(count) + 1)
        && failCount == (if updated > 1 then U32(old(failCount) + 1) else old(failCount))
        && request == Request(PioSm(0, axis), velocity > 0, if steps > 1 then StepLen(updateTimeUs, steps) else 0)
        && back == Feedback(Advanced(absPosAcheived, velocity > 0, stepsAchieved),
                            VelocityAchieved(velocity > 0, stepsAchieved))
      ensures countNope == old(countNope) && failCountNope == old(failCountNope)
    {
      if updated <= 0 {
        return 0, Request(PioSm(0, 0), false, 0), Feedback(0, 0);
      }
      count := U32(count + 1);
      if updated > 1 {
        failCount := U32(failCount + 1);
      }
      var target := AxisToPio(axis).value;
      var velocity := Pid(axis, absPosAcheived, absPosRequested);
      var forward := velocity > 0;
      var steps: u32 := Abs(velocity);
      var stepLen: i32 := 0;
      if steps > 1 {
        stepLen := StepLen(updateTimeUs, steps);
      }
      request := Request(target, forward, stepLen);
      back := Feedback(Advanced(absPosAcheived, forward, stepsAchieved), VelocityAchieved(forward, stepsAchieved));
      result := 1;
    }

    /**
     * do_steps_nope (sender/pio.c:179-283): the requested velocity is the
     * position difference itself, limited in acceleration and direction
     * reversal against the last applied velocity, which it replaces; a
     * step length is computed above two steps.
     */
    method DoStepsNope(axis: nat, updateTimeUs: u32, updated: u32, absPosRequested: u32, absPosAcheived: u32,
                       maxAccelTicks: u32, stepsAchieved: u32)
      returns (result: u8, request: Request, back: Feedback)
      requires Valid() && (updated > 0 ==> axis < MAX_AXIS)
      modifies this, lastVelocity
      ensures updated == 0 ==>
        && result == 0 && lastVelocity[..] == old(lastVelocity[..])
        && countNope == old(countNope) && failCountNope == old(failCountNope)
      ensures updated > 0 ==>
        var applied := Limited(I32(absPosRequested - absPosAcheived), old(lastVelocity[axis]), maxAccelTicks);
        var steps := Abs(applied);
        && result == 1
        && lastVelocity[..] == old(lastVelocity[..])[axis := applied]
        && countNope == U32(old(countNope) + 1)
        && failCountNope == (if updated > 1 then U32(old(failCountNope) + 1) else old(failCountNope))
        && request == Request(PioSm(0, axis), applied > 0, if steps > 2 then StepLen(updateTimeUs, steps) else 0)
        && back == Feedback(Advanced(absPosAcheived, applied > 0, stepsAchieved),
                            VelocityAchieved(applied > 0, stepsAchieved))
      ensures count == old(count) && failCount == old(failCount)
    {
      if updated <= 0 {
        return 0, Request(PioSm(0, 0), false, 0), Feedback(0, 0);
      }
      countNope := U32(countNope + 1);
      if updated > 1 {
        failCountNope := U32(failCountNope + 1);
      }
      var target := AxisToPio(axis).value;
      var requested := I32(absPosRequested as int - absPosAcheived);
      var applied := Limited(requested, lastVelocity[axis], maxAccelTicks);
      lastVelocity[axis] := applied;
      var forward := applied > 0;
      var steps: u32 := Abs(applied);
      var stepLen: i32 := 0;
      if steps > 2 {
        stepLen := StepLen(updateTimeUs, steps);
      }
      request := Request(target, forward, stepLen);
      back := Feedback(Advanced(absPosAcheived, forward, stepsAchieved), VelocityAchieved(forward, stepsAchieved));
      result := 1;
    }
  }
}
