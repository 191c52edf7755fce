/**
 * The step-generation arithmetic of src/rp2040/pio.c: rounding division,
 * and do_steps, which once per period turns an axis's configuration into a
 * direction and a step length for the step-generating PIO, and reports the
 * position and velocity the step-counting PIO achieved.
 *
 * do_steps calls a get_axis_config/update_axis_config pair whose
 * signature is pio.c's own (nine pointers, the requested position as
 * uint32_t); its reading is a parameter here and its write-back a result.
 */
module RpPio {
  import opened CInt

  const MAX_AXIS: nat := 4
  /** clock_multiplier: system clock ticks per microsecond. */
  const CLOCK_MULTIPLIER: nat := 133
  const STEP_LEN_OVERHEAD: nat := 14
  /** max_retries: counter values drained from the RX FIFO at most. */
  const MAX_RETRIES: nat := 4

  /** divRoundClosest (pio.c:13-16): (n + d / 2) / d on uint32_t, where the
   *  sum wraps. */
  function DivRoundClosest(n: u32, d: u32): (r: u32)
    requires d > 0
    ensures n + d / 2 < 0x1_0000_0000 ==> r * d <= n + d / 2 < r * d + d
    ensures n + d / 2 >= 0x1_0000_0000 ==> r * d <= n + d / 2 - 0x1_0000_0000 < r * d + d
  {
    var s := U32(n + d / 2);
    DivBounds(s, d);
    s / d
  }

  /** The quotient of Euclidean division brackets the dividend. */
  lemma DivBounds(s: nat, d: nat)
    requires d > 0
    ensures (s / d) * d <= s < (s / d) * d + d
  {
  }

  /** When the sum does not wrap, divRoundClosest is the nearest quotient:
   *  n is within half a divisor of r * d, and an exact half rounds up. */
  lemma DivRoundClosestNearest(n: u32, d: u32)
    requires d > 0 && n + d / 2 < 0x1_0000_0000
    ensures var r := DivRoundClosest(n, d);
      && 2 * Abs(n - r * d) <= d
      && (2 * (r * d - n) == d ==> r > 0 && 2 * (n - (r - 1) * d) == d)
  {
    var h := d / 2;
    var r := (n + h) / d;
    var m := r * d;
    assert DivRoundClosest(n, d) == r;
    WithinHalf(n, h, d, m, (n + h) % d);
    if 2 * (m - n) == d {
      assert r != 0;
      assert (r - 1) * d == m - d;
    }
  }

  /** The linear core of the nearest-quotient argument: a multiple m that
   *  lies within a divisor below n + d / 2 lies within half a divisor of
   *  n. */
  lemma WithinHalf(n: int, h: int, d: int, m: int, e: int)
    requires n + h == m + e && 0 <= e < d && (d == 2 * h || d == 2 * h + 1)
    ensures 2 * Abs(n - m) <= d
    ensures 2 * (m - n) == d ==> m == n + h && m > n
  {
  }

  /** What the step-counting PIO reports: the FIFO holds counter values
   *  oldest first; up to four are read and the last one read wins. With
   *  nothing to read, the configured value stays. */
  function LastDrained(fifo: seq<u32>, configured: u32): (r: u32)
    ensures |fifo| == 0 ==> r == configured
    ensures 0 < |fifo| <= MAX_RETRIES ==> r == fifo[|fifo| - 1]
    ensures |fifo| > MAX_RETRIES ==> r == fifo[MAX_RETRIES - 1]
  {
    if |fifo| == 0 then configured
    else if |fifo| <= MAX_RETRIES then fifo[|fifo| - 1]
    else fifo[MAX_RETRIES - 1]
  }

  /** The drain loop of do_steps (pio.c:122-127). */
  method DrainFifo(fifo: seq<u32>, configured: u32) returns (achieved: u32)
    ensures achieved == LastDrained(fifo, configured)
  {
    achieved := configured;
    var retries := MAX_RETRIES;
    var level := |fifo|;
    while level > 0 && retries > 0
      invariant 0 <= retries <= MAX_RETRIES && level == |fifo| - (MAX_RETRIES - retries) >= 0
      invariant retries == MAX_RETRIES ==> achieved == configured
      invariant retries < MAX_RETRIES ==> achieved == fifo[MAX_RETRIES - retries - 1]
    {
      achieved := fifo[MAX_RETRIES - retries];
      retries := retries - 1;
      level := level - 1;
    }
  }

  /** The divisor of the step length as written (pio.c:151): twice the
   *  step count in uint32_t, which wraps. */
  function StepDivisorAsWritten(count: u32): u32
  {
    U32(count * 2)
  }

  /** abs(velocity) stored in a uint32_t: abs(INT32_MIN) yields INT32_MIN,
   *  which reads as 2^31. */
  function StepCount(velocity: i32): (c: u32)
    ensures c == Abs(velocity)
  {
    Abs(velocity)
  }

  /** For the velocity INT32_MIN the divisor of the step length wraps to
   *  zero, so divRoundClosest divides by zero. */
  lemma MinVelocityDividesByZero()
    ensures StepDivisorAsWritten(StepCount(INT32_MIN)) == 0
  {
  }

  /**
   * The step length in PIO ticks for a period and a step count
   * (pio.c:146-156), with the divisor 2 * count taken without wrapping:
   * half a step period rounded to the nearest tick less the loop overhead,
   * at least 1; no steps give 0. The quotient sits in a uint32_t and the
   * result in an int32_t.
   */
  function StepLen(updateTimeUs: u32, count: u32): (len: i32)
    ensures count == 0 <==> len == 0
    ensures count > 0 ==> len >= 1
  {
    if count == 0 then 0
    else
      var q := U32(U32(updateTimeUs * CLOCK_MULTIPLIER) + count) / (2 * count);
      var s := I32(U32(q - STEP_LEN_OVERHEAD));
      if s < 1 then 1 else s
  }

  /** Below the wrap of the divisor the step length is divRoundClosest
   *  less the overhead, floored at one. */
  lemma StepLenBounds(updateTimeUs: u32, count: u32)
    ensures 0 < count < 0x8000_0000 ==>
      var q := DivRoundClosest(U32(updateTimeUs * CLOCK_MULTIPLIER), StepDivisorAsWritten(count));
      StepLen(updateTimeUs, count) == if q <= STEP_LEN_OVERHEAD then 1 else q - STEP_LEN_OVERHEAD
  {
    if 0 < count < 0x8000_0000 {
      var n := U32(updateTimeUs * CLOCK_MULTIPLIER);
      assert StepDivisorAsWritten(count) == 2 * count;
      assert (2 * count) / 2 == count;
      var q := U32(n + count) / (2 * count);
      assert DivRoundClosest(n, 2 * count) == q;
      DivBelow(U32(n + count), 2 * count);
      OverheadOff(q);
    }
  }

  /** The overhead taken off a quotient below 2^31 in uint32_t and read as
   *  int32_t: the difference when it is positive, else at most zero. */
  lemma OverheadOff(q: nat)
    requires q < 0x8000_0000
    ensures var s := I32(U32(q - STEP_LEN_OVERHEAD));
      (q > STEP_LEN_OVERHEAD ==> s == q - STEP_LEN_OVERHEAD) && (q <= STEP_LEN_OVERHEAD ==> s <= 0)
  {
    if q < STEP_LEN_OVERHEAD {
      DivModUnique(q - STEP_LEN_OVERHEAD, 0x1_0000_0000, -1, q - STEP_LEN_OVERHEAD + 0x1_0000_0000);
    }
  }

  /** A quotient by at least two is at most half the dividend. */
  lemma DivBelow(n: nat, d: nat)
    requires d >= 2
    ensures n / d <= n / 2
  {
    var q := n / d;
    assert q * d <= n;
    assert q * 2 <= q * d;
  }

  /** The step length computation of do_steps (pio.c:144-156), with the
   *  divisor not wrapped. */
  method StepLenTicks(updateTimeUs: u32, steps: u32) returns (stepLen: i32)
    ensures stepLen == StepLen(updateTimeUs, steps)
  {
    stepLen := 0;
    if steps > 0 {
      var utt: int := U32(updateTimeUs * CLOCK_MULTIPLIER);
      var q: int := U32(utt + steps) / (2 * steps);
      stepLen := I32(U32(q - STEP_LEN_OVERHEAD));
      if stepLen < 1 {
        stepLen := 1;
      }
    }
  }

  /** The PIO command for one period: a direction (1 for positive
   *  velocity) and a step length. */
  datatype StepCommand = StepCommand(direction: u8, stepLenTicks: i32)

  /** What do_steps writes back through update_axis_config. */
  datatype Feedback = Feedback(absPosAcheived: u32, velocity: i32, velocityAcheived: i32)

  /** The velocity do_steps commands: the position controller's output when
   *  a position is requested, else the requested velocity (pio.c:136-141).
   *  get_velocity computes in float, so its value is an input. */
  function Velocity(absPosRequested: u32, controlled: i32, velocityRequested: i32): (v: i32)
    ensures absPosRequested == 0 ==> v == velocityRequested
    ensures absPosRequested != 0 ==> v == controlled
  {
    if absPosRequested != 0 then controlled else velocityRequested
  }

  /** The command for a velocity: direction is velocity > 0, and the step
   *  count is its magnitude. */
  function Command(updateTimeUs: u32, velocity: i32): (c: StepCommand)
    ensures c.direction == if velocity > 0 then 1 else 0
    ensures c.stepLenTicks == StepLen(updateTimeUs, StepCount(velocity))
  {
    StepCommand(if velocity > 0 then 1 else 0, StepLen(updateTimeUs, StepCount(velocity)))
  }

  /** The statics of do_steps. */
  class StepGenerator {
    /** last_pos: the counter value seen at the previous period, per axis. */
    const lastPos: array<u32>
    /** count and failcount: calls with an update, and those with more than
     *  one. */
    var count: u32
    var failCount: u32

    constructor ()
      ensures lastPos.Length == MAX_AXIS && fresh(lastPos)
      ensures lastPos[..] == [0, 0, 0, 0] && count == 0 && failCount == 0
    {
      lastPos := new u32[MAX_AXIS](_ => 0);
      count, failCount := 0, 0;
      new;
      assert lastPos[..] == [0, 0, 0, 0];
    }

    /**
     * do_steps (pio.c:82-177). updated is what get_axis_config returned;
     * absPosRequested, absPosAcheived and velocityRequested are what it
     * read; controlled is get_velocity's result; fifo is the RX FIFO of
     * the step counter. Returns 0 with nothing changed when there is no
     * update; else the command sent to the step generator and the
     * feedback written back, and last_pos[axis] becomes the achieved
     * position. get_axis_config reports no update for an axis out of
     * range, so only an updated call indexes last_pos.
     */
    method DoSteps(axis: u8, updateTimeUs: u32, updated: u32, absPosRequested: u32, absPosAcheived: u32,
                   velocityRequested: i32, controlled: i32, fifo: seq<u32>)
      returns (result: u8, cmd: StepCommand, back: Feedback)
      requires lastPos.Length == MAX_AXIS && (updated > 0 ==> axis < MAX_AXIS)
      modifies this, lastPos
      ensures updated == 0 ==>
        && result == 0 && lastPos[..] == old(lastPos[..])
        && count == old(count) && failCount == old(failCount)
      ensures updated > 0 ==>
        var achieved := LastDrained(fifo, absPosAcheived);
        var velocity := Velocity(absPosRequested, controlled, velocityRequested);
        && result == 1
        && cmd == Command(updateTimeUs, velocity)
        && back == Feedback(achieved, velocity, I32(achieved - old(lastPos[axis])))
        && lastPos[..] == old(lastPos[..])[axis := achieved]
        && count == U32(old(count) + 1)
        && failCount == if updated > 1 then U32(old(failCount) + 1) else old(failCount)
    {
      if updated <= 0 {
        return 0, StepCommand(0, 0), Feedback(0, 0, 0);
      }
      count := U32(count + 1);
      if updated > 1 {
        failCount := U32(failCount + 1);
      }
      var achieved := DrainFifo(fifo, absPosAcheived);
      var velocity := Velocity(absPosRequested, controlled, velocityRequested);
      var direction: u8 := if velocity > 0 then 1 else 0;
      var steps := StepCount(velocity);
      var stepLen := StepLenTicks(updateTimeUs, steps);
      cmd := StepCommand(direction, stepLen);
      var velocityAcheived := I32(U32(achieved as int - lastPos[axis]));
      lastPos[axis] := achieved;
      back := Feedback(achieved, velocity, velocityAcheived);
      result := 1;
    }
  }

  /** The velocity_acheived values reported for successive counter
   *  readings of one axis. */
  function Velocities(readings: seq<u32>): (vs: seq<i32>)
    ensures |readings| > 0 ==> |vs| == |readings| - 1
  {
    if |readings| < 2 then []
    else [I32(readings[1] as int - readings[0])] + Velocities(readings[1..])
  }

  /** A position advanced, in uint32_t, by each velocity in turn. */
  function Replay(start: u32, vs: seq<i32>): u32
    decreases |vs|
  {
    if vs == [] then start else Replay(U32(start + vs[0]), vs[1..])
  }

  /** The achieved velocities account for every counter step: replaying
   *  them from the first reading, with uint32_t wrap, reaches the last
   *  reading, however far the counter wrapped on the way. */
  lemma {:induction false} VelocitiesReplay(readings: seq<u32>)
    requires |readings| > 0
    ensures Replay(readings[0], Velocities(readings)) == readings[|readings| - 1]
  {
    if |readings| >= 2 {
      WrapDiff(readings[0], readings[1]);
      VelocitiesReplay(readings[1..]);
    }
  }
}
