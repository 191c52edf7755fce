/**
 * The axis configuration of the sender firmware (sender/config.c): one
 * record per axis, written by core 0 and read by core 1 through a
 * one-bit "updated" flag. Unlike the controller firmware's counters, the
 * flag only says whether there has been an update since core 1 last read,
 * not how many. The mutex is left out: the model is sequential.
 */
module SenderConfig {
  import opened CInt
  import opened Wrappers

  /** MAX_AXIS of sender/sender.h. */
  const MAX_AXIS: nat := 4
  const DEFAULT_MIN_STEP_LEN_TICKS: nat := 50
  const DEFAULT_MAX_ACCEL_TICKS: nat := 200

  /** The data fields of an axis. */
  datatype AxisValues = AxisValues(absPos: u32, minStepLenTicks: u32, maxAccelTicks: u32, velocity: i32)

  /** An axis record: its values and the updated_c0 flag. */
  datatype Axis = Axis(updated: u8, values: AxisValues)

  /** The fields an update_axis call passes; None is a NULL pointer. */
  datatype Update = Update(absPos: Option<u32>, minStepLenTicks: Option<u32>, maxAccelTicks: Option<u32>,
                           velocity: Option<i32>)

  function Or<T>(o: Option<T>, keep: T): T
  {
    if o.Some? then o.value else keep
  }

  /** An axis as initialised (sender/config.c:13-41): the middle of the
   *  position range, 50 ticks, 200 ticks, flag clear; velocity has no
   *  initialiser and is zero. */
  const INITIAL_AXIS: Axis :=
    Axis(0, AxisValues(UINT_MAX / 2, DEFAULT_MIN_STEP_LEN_TICKS, DEFAULT_MAX_ACCEL_TICKS, 0))

  /** The values after an update: the passed fields replace, the others
   *  stay. */
  function Applied(v: AxisValues, u: Update): (r: AxisValues)
    ensures u.absPos.Some? ==> r.absPos == u.absPos.value
    ensures u.absPos.None? ==> r.absPos == v.absPos
    ensures u.minStepLenTicks.Some? ==> r.minStepLenTicks == u.minStepLenTicks.value
    ensures u.minStepLenTicks.None? ==> r.minStepLenTicks == v.minStepLenTicks
    ensures u.maxAccelTicks.Some? ==> r.maxAccelTicks == u.maxAccelTicks.value
    ensures u.maxAccelTicks.None? ==> r.maxAccelTicks == v.maxAccelTicks
    ensures u.velocity.Some? ==> r.velocity == u.velocity.value
    ensures u.velocity.None? ==> r.velocity == v.velocity
  {
    AxisValues(Or(u.absPos, v.absPos), Or(u.minStepLenTicks, v.minStepLenTicks),
               Or(u.maxAccelTicks, v.maxAccelTicks), Or(u.velocity, v.velocity))
  }

  /** What get_axis hands back and leaves: the flag's value, the caller's
   *  variables (overwritten only when the flag was set) and the axis with
   *  its flag cleared. */
  function Read(a: Axis, callers: AxisValues): (r: (u8, AxisValues, Axis))
    ensures r.0 == a.updated && r.2 == Axis(0, a.values)
    ensures r.1 == if a.updated > 0 then a.values else callers
  {
    (a.updated, if a.updated > 0 then a.values else callers, Axis(0, a.values))
  }

  /** An update followed by a read hands over the updated values and the
   *  flag 1, however many updates came before. */
  lemma UpdateThenRead(a: Axis, u: Update, callers: AxisValues)
    ensures Read(Axis(1, Applied(a.values, u)), callers).0 == 1
    ensures Read(Axis(1, Applied(a.values, u)), callers).1 == Applied(a.values, u)
  {
  }

  /** Two reads with no update between them: the second returns 0 and
   *  leaves the caller's variables alone. */
  lemma ReadTwice(a: Axis, callers: AxisValues, callers2: AxisValues)
    ensures var first := Read(a, callers);
      var second := Read(first.2, callers2);
      second.0 == 0 && second.1 == callers2 && second.2 == first.2
  {
  }

  /** The global config of sender/config.c. */
  class Config {
    var axes: seq<Axis>

    ghost predicate Valid()
      reads this
    {
      |axes| == MAX_AXIS
    }

    constructor ()
      ensures Valid() && axes == seq(MAX_AXIS, _ => INITIAL_AXIS)
    {
      axes := seq(MAX_AXIS, _ => INITIAL_AXIS);
    }

    /** update_axis (sender/config.c:79-110): an axis beyond MAX_AXIS is
     *  ignored; otherwise the passed fields are written and the flag set
     *  to 1. */
    method UpdateAxis(axis: u8, u: Update)
      requires Valid()
      modifies this
      ensures Valid()
      ensures axis >= MAX_AXIS ==> axes == old(axes)
      ensures axis < MAX_AXIS ==> axes == old(axes)[axis := Axis(1, Applied(old(axes[axis].values), u))]
    {
      if axis >= MAX_AXIS {
        return;
      }
      var v := axes[axis].values;
      if u.absPos.Some? {
        v := v.(absPos := u.absPos.value);
      }
      if u.minStepLenTicks.Some? {
        v := v.(minStepLenTicks := u.minStepLenTicks.value);
      }
      if u.maxAccelTicks.Some? {
        v := v.(maxAccelTicks := u.maxAccelTicks.value);
      }
      if u.velocity.Some? {
        v := v.(velocity := u.velocity.value);
      }
      axes := axes[axis := Axis(1, v)];
    }

    /** get_axis (sender/config.c:113-139): returns the flag and clears
     *  it; the caller's variables are overwritten only when it was set.
     *  get_axis does not check the axis, so the caller must. */
    method GetAxis(axis: u8, callers: AxisValues) returns (updated: u8, values: AxisValues)
      requires Valid() && axis < MAX_AXIS
      modifies this
      ensures Valid()
      ensures (updated, values, axes[axis]) == Read(old(axes[axis]), callers)
      ensures axes == old(axes)[axis := Axis(0, old(axes[axis].values))]
    {
      updated := axes[axis].updated;
      values := callers;
      if updated > 0 {
        values := axes[axis].values;
      }
      axes := axes[axis := Axis(0, axes[axis].values)];
    }
  }
}
