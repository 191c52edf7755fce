/**
 * The stand-alone stepper driver of pico_stepper/pico_stepper.c: eight
 * steppers on two PIO blocks, each with a tracked absolute position and a
 * minimum step length. A request is turned into three words for the
 * stepper's state machine (direction, step length less the program's
 * overhead, step count less one) and the position is moved by the step
 * count, with uint wrap-around. `uint` is 32 bits wide on the RP2040.
 */
module PicoStepper {
  import opened CInt

  const STEPPERS: nat := 8
  /** The PIO program lengthens each step by 9 instructions and makes one
   *  step more than it is told. */
  const PIO_OVERHEAD: nat := 9
  const DEFAULT_MIN_STEP_LEN_US: nat := 1000
  const START_POSITION: u32 := UINT_MAX / 2

  /** A PIO block and one of its four state machines. */
  datatype StateMachine = StateMachine(pio: nat, sm: nat)

  /** The switch of send_pio_steps (pico_stepper.c:88-105): steppers 0-3
   *  drive pio0 with sm = stepper, steppers 4-7 pio1 with sm = stepper - 4. */
  function Target(stepper: nat): (t: StateMachine)
    requires stepper < STEPPERS
    ensures t.sm < 4 && t.pio < 2 && 4 * t.pio + t.sm == stepper
  {
    if stepper < 4 then StateMachine(0, stepper) else StateMachine(1, stepper - 4)
  }

  /** A position moved by count steps, forwards when direction > 0. */
  function Moved(position: u32, count: u32, direction: u32): u32
  {
    if direction > 0 then U32(position + count) else U32(position - count)
  }

  /** Moving forwards and back by the same count returns to the start. */
  lemma MovedBack(position: u32, count: u32)
    ensures Moved(Moved(position, count, 1), count, 0) == position
    ensures Moved(Moved(position, count, 0), count, 1) == position
  {
    var f := position + count;
    if f >= 0x1_0000_0000 {
      DivModUnique(f, 0x1_0000_0000, 1, f - 0x1_0000_0000);
    }
    var b := position - count;
    if b < 0 {
      DivModUnique(b, 0x1_0000_0000, -1, b + 0x1_0000_0000);
      DivModUnique(position + 0x1_0000_0000, 0x1_0000_0000, 1, position);
    }
    ModBackForth(position, count);
  }

  /** The modular core of MovedBack. */
  lemma ModBackForth(position: u32, count: u32)
    ensures U32(U32(position + count) - count) == position
    ensures U32(U32(position - count) + count) == position
  {
    ModAddBoth(position + count, -(count as int), 0x1_0000_0000);
    ModAddBoth(position - count, count, 0x1_0000_0000);
  }

  /** Whether send_pio_steps acts on a request: some steps, each longer
   *  than the program's overhead (pico_stepper.c:107-116). */
  predicate Accepted(stepCount: u32, stepLenUs: u32)
  {
    stepCount != 0 && stepLenUs > PIO_OVERHEAD
  }

  /** The words sent to the state machine for an accepted request: the
   *  direction, the step length raised to the stepper's minimum less the
   *  overhead, and the step count less one (pico_stepper.c:118-140). */
  function PioWords(stepCount: u32, stepLenUs: u32, direction: u32, minStepLenUs: u32): (w: seq<u32>)
    requires Accepted(stepCount, stepLenUs)
    ensures |w| == 3 && w[0] == direction && w[2] as int + 1 == stepCount
    ensures w[1] + PIO_OVERHEAD >= stepLenUs && w[1] + PIO_OVERHEAD >= minStepLenUs
    ensures w[1] + PIO_OVERHEAD == stepLenUs || w[1] + PIO_OVERHEAD == minStepLenUs
  {
    var len := if stepLenUs < minStepLenUs then minStepLenUs else stepLenUs;
    [direction, len - PIO_OVERHEAD, stepCount - 1]
  }

  /** The step length set_relative_position asks for: the time slice shared
   *  out over the steps (pico_stepper.c:149). */
  function StepLenFor(diff: i32, timeSlice: u32): (len: u32)
    requires diff != 0 && diff != INT32_MIN
    ensures len * Abs(diff) <= timeSlice < (len + 1) * Abs(diff)
  {
    timeSlice / Abs(diff)
  }

  /** The static arrays of pico_stepper.c. */
  class Steppers {
    /** position: the absolute position of each stepper. */
    const position: array<u32>
    /** min_step_len_us: the shortest step each stepper may make. */
    const minStepLenUs: array<u32>

    ghost predicate Valid()
      reads this
    {
      position.Length == STEPPERS && minStepLenUs.Length == STEPPERS && position != minStepLenUs
    }

    /** The initial values (pico_stepper.c:15-36). */
    constructor ()
      ensures Valid() && fresh(position) && fresh(minStepLenUs)
      ensures forall s :: 0 <= s < STEPPERS ==> position[s] == START_POSITION
      ensures forall s :: 0 <= s < STEPPERS ==> minStepLenUs[s] == DEFAULT_MIN_STEP_LEN_US
    {
      position := new u32[STEPPERS](_ => START_POSITION);
      minStepLenUs := new u32[STEPPERS](_ => DEFAULT_MIN_STEP_LEN_US);
    }

    /** get_absolute_position (pico_stepper.c:166-168). */
    function AbsolutePosition(stepper: nat): (p: u32)
      requires Valid() && stepper < STEPPERS
      reads this, position
    {
      position[stepper]
    }

    /**
     * send_pio_steps (pico_stepper.c:80-143). A request without steps, or
     * with steps no longer than the program's overhead, changes nothing
     * and returns the position. Otherwise the position moves by the step
     * count in the direction given, the words for the state machine are
     * returned with it, and the new position is returned.
     */
    method SendPioSteps(stepper: nat, stepCount: u32, stepLenUs: u32, direction: u32)
      returns (p: u32, target: StateMachine, words: seq<u32>)
      requires Valid() && stepper < STEPPERS
      modifies position
      ensures target == Target(stepper)
      ensures !Accepted(stepCount, stepLenUs) ==>
        && position[..] == old(position[..]) && p == position[stepper] && words == []
      ensures Accepted(stepCount, stepLenUs) ==>
        && position[..] == old(position[..])[stepper := Moved(old(position[stepper]), stepCount, direction)]
        && p == position[stepper]
        && words == PioWords(stepCount, stepLenUs, direction, minStepLenUs[stepper])
    {
      if stepper < 4 {
        target := StateMachine(0, stepper);
      } else {
        target := StateMachine(1, stepper - 4);
      }
      if stepCount == 0 {
        return position[stepper], target, [];
      }
      if stepLenUs <= PIO_OVERHEAD {
        return position[stepper], target, [];
      }
      var len := stepLenUs;
      if len < minStepLenUs[stepper] {
        len := minStepLenUs[stepper];
      }
      if direction > 0 {
        position[stepper] := U32(position[stepper] + stepCount);
      } else {
        position[stepper] := U32(position[stepper] - stepCount);
      }
      var count := stepCount - 1;
      len := len - PIO_OVERHEAD;
      words := [direction, len, count];
      p := position[stepper];
    }

    /** set_relative_position (pico_stepper.c:145-156): steps |diff| over
     *  the time slice, forwards exactly when diff > 0. abs(diff) must be
     *  defined and non-zero. */
    method SetRelativePosition(stepper: nat, diff: i32, timeSlice: u32)
      returns (p: u32, target: StateMachine, words: seq<u32>)
      requires Valid() && stepper < STEPPERS && diff != 0 && diff != INT32_MIN
      modifies position
      ensures var len := StepLenFor(diff, timeSlice);
        var direction: u32 := if diff > 0 then 1 else 0;
        && target == Target(stepper)
        && (!Accepted(Abs(diff), len) ==>
          position[..] == old(position[..]) && p == position[stepper] && words == [])
        && (Accepted(Abs(diff), len) ==>
          && position[..] == old(position[..])[stepper := Moved(old(position[stepper]), Abs(diff), direction)]
          && p == position[stepper]
          && words == PioWords(Abs(diff), len, direction, minStepLenUs[stepper]))
    {
      var len := timeSlice / Abs(diff);
      var direction: u32 := 0;
      if diff > 0 {
        direction := 1;
      }
      p, target, words := SendPioSteps(stepper, Abs(diff), len, direction);
    }

    /**
     * set_absolute_position (pico_stepper.c:158-164): the difference to
     * the new position, taken in uint and read as int, is stepped over the
     * time slice. When the request is accepted the stepper's position
     * becomes new_position, however the counter wraps; the difference must
     * be neither zero nor INT_MIN.
     */
    method SetAbsolutePosition(stepper: nat, newPosition: u32, timeSlice: u32)
      returns (p: u32, target: StateMachine, words: seq<u32>)
      requires Valid() && stepper < STEPPERS
      requires newPosition != position[stepper] && U32(newPosition - position[stepper]) != 0x8000_0000
      modifies position
      ensures var diff := I32(newPosition - old(position[stepper]));
        Accepted(Abs(diff), timeSlice / Abs(diff)) ==>
          && position[..] == old(position[..])[stepper := newPosition]
          && p == newPosition
      ensures var diff := I32(newPosition - old(position[stepper]));
        !Accepted(Abs(diff), timeSlice / Abs(diff)) ==> position[..] == old(position[..]) && p == position[stepper]
    {
      var before := position[stepper];
      var diff := I32(newPosition as int - before);
      WrapDiff(before, newPosition);
      p, target, words := SetRelativePosition(stepper, diff, timeSlice);
      if Accepted(Abs(diff), timeSlice / Abs(diff)) {
        if diff > 0 {
          assert Moved(before, Abs(diff), 1) == newPosition;
        } else {
          assert U32(before - Abs(diff)) == U32(before + diff);
        }
      }
    }
  }
}
