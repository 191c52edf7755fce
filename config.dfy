/**
 * The controller-wide configuration of src/rp2040/config.c: the update
 * period, the last timing message seen, and one record per axis that core 0
 * (network) and core 1 (stepper) write with update_axis_config and read with
 * get_axis_config. Each write bumps the writer's 8-bit "updated" counter; a
 * read returns the other core's counter and resets it, which is how each
 * core learns that the other one has new data.
 */
module RpConfig {
  import opened Wrappers
  import opened CInt

  const MAX_AXIS: nat := 4
  const CORE0: u8 := 0
  const CORE1: u8 := 1

  /** struct ConfigAxis as config.c uses it. Doubles and floats are raw bits. */
  datatype AxisConfig = AxisConfig(
    updatedFromC0: u8,
    updatedFromC1: u8,
    enabled: u8,
    ioPosStep: i8,
    ioPosDir: i8,
    relPosRequested: F64,
    absPosRequested: F64,
    absPosAcheived: i32,
    maxVelocity: F64,
    maxAccelTicks: F64,
    velocityRequested: i32,
    velocityAcheived: i32,
    posError: i32,
    stepLenTicks: i32,
    kp: F32)

  /** The thirteen optional pointer arguments of update_axis_config and
   *  get_axis_config: None stands for a NULL pointer. */
  datatype AxisFields = AxisFields(
    enabled: Option<u8>,
    ioPosStep: Option<i8>,
    ioPosDir: Option<i8>,
    relPosRequested: Option<F64>,
    absPosRequested: Option<F64>,
    absPosAcheived: Option<i32>,
    maxVelocity: Option<F64>,
    maxAccelTicks: Option<F64>,
    velocityRequested: Option<i32>,
    velocityAcheived: Option<i32>,
    posError: Option<i32>,
    stepLenTicks: Option<i32>,
    kp: Option<F32>)

  datatype Field =
    | Enabled | IoPosStep | IoPosDir | RelPosRequested | AbsPosRequested
    | AbsPosAcheived | MaxVelocity | MaxAccelTicks | VelocityRequested
    | VelocityAcheived | PosError | StepLenTicks | Kp

  const NO_FIELDS: AxisFields :=
    AxisFields(None, None, None, None, None, None, None, None, None, None, None, None, None)

  /** want names exactly the non-NULL pointers of u. Stated field by field
   *  so that no quantifier over Field is needed. */
  predicate NamesExactly(u: AxisFields, want: set<Field>)
  {
    && (u.enabled.Some? <==> Enabled in want) && (u.ioPosStep.Some? <==> IoPosStep in want)
    && (u.ioPosDir.Some? <==> IoPosDir in want) && (u.relPosRequested.Some? <==> RelPosRequested in want)
    && (u.absPosRequested.Some? <==> AbsPosRequested in want)
    && (u.absPosAcheived.Some? <==> AbsPosAcheived in want)
    && (u.maxVelocity.Some? <==> MaxVelocity in want) && (u.maxAccelTicks.Some? <==> MaxAccelTicks in want)
    && (u.velocityRequested.Some? <==> VelocityRequested in want)
    && (u.velocityAcheived.Some? <==> VelocityAcheived in want)
    && (u.posError.Some? <==> PosError in want) && (u.stepLenTicks.Some? <==> StepLenTicks in want)
    && (u.kp.Some? <==> Kp in want)
  }

  /** No field in want has a non-NULL pointer in u. */
  predicate NamesNone(u: AxisFields, want: set<Field>)
  {
    && (u.enabled.Some? ==> Enabled !in want) && (u.ioPosStep.Some? ==> IoPosStep !in want)
    && (u.ioPosDir.Some? ==> IoPosDir !in want) && (u.relPosRequested.Some? ==> RelPosRequested !in want)
    && (u.absPosRequested.Some? ==> AbsPosRequested !in want)
    && (u.absPosAcheived.Some? ==> AbsPosAcheived !in want)
    && (u.maxVelocity.Some? ==> MaxVelocity !in want) && (u.maxAccelTicks.Some? ==> MaxAccelTicks !in want)
    && (u.velocityRequested.Some? ==> VelocityRequested !in want)
    && (u.velocityAcheived.Some? ==> VelocityAcheived !in want)
    && (u.posError.Some? ==> PosError !in want) && (u.stepLenTicks.Some? ==> StepLenTicks !in want)
    && (u.kp.Some? ==> Kp !in want)
  }

  function Pick<T>(o: Option<T>, old_: T): T
  {
    if o.Some? then o.value else old_
  }

  /** The data-field writes of update_axis_config (config.c:218-256). */
  function WriteFields(a: AxisConfig, u: AxisFields): (r: AxisConfig)
    ensures r.updatedFromC0 == a.updatedFromC0 && r.updatedFromC1 == a.updatedFromC1
    ensures u == NO_FIELDS ==> r == a
  {
    a.(enabled := Pick(u.enabled, a.enabled),
       ioPosStep := Pick(u.ioPosStep, a.ioPosStep),
       ioPosDir := Pick(u.ioPosDir, a.ioPosDir),
       relPosRequested := Pick(u.relPosRequested, a.relPosRequested),
       absPosRequested := Pick(u.absPosRequested, a.absPosRequested),
       absPosAcheived := Pick(u.absPosAcheived, a.absPosAcheived),
       maxVelocity := Pick(u.maxVelocity, a.maxVelocity),
       maxAccelTicks := Pick(u.maxAccelTicks, a.maxAccelTicks),
       velocityRequested := Pick(u.velocityRequested, a.velocityRequested),
       velocityAcheived := Pick(u.velocityAcheived, a.velocityAcheived),
       posError := Pick(u.posError, a.posError),
       stepLenTicks := Pick(u.stepLenTicks, a.stepLenTicks),
       kp := Pick(u.kp, a.kp))
  }

  function Opt<T>(want: bool, v: T): Option<T>
  {
    if want then Some(v) else None
  }

  /** What get_axis_config writes through the non-NULL pointers in `want`
   *  (config.c:309-347). */
  function ReadFields(a: AxisConfig, want: set<Field>): (r: AxisFields)
    ensures NamesExactly(r, want)
  {
    AxisFields(
      Opt(Enabled in want, a.enabled),
      Opt(IoPosStep in want, a.ioPosStep),
      Opt(IoPosDir in want, a.ioPosDir),
      Opt(RelPosRequested in want, a.relPosRequested),
      Opt(AbsPosRequested in want, a.absPosRequested),
      Opt(AbsPosAcheived in want, a.absPosAcheived),
      Opt(MaxVelocity in want, a.maxVelocity),
      Opt(MaxAccelTicks in want, a.maxAccelTicks),
      Opt(VelocityRequested in want, a.velocityRequested),
      Opt(VelocityAcheived in want, a.velocityAcheived),
      Opt(PosError in want, a.posError),
      Opt(StepLenTicks in want, a.stepLenTicks),
      Opt(Kp in want, a.kp))
  }

  /** One update_axis_config on a valid axis: the writes, then the writer's
   *  own counter incremented with uint8_t wrap-around (config.c:258-265). */
  function UpdateAxis(a: AxisConfig, core: u8, u: AxisFields): (r: AxisConfig)
    ensures r.updatedFromC0 == if core == CORE0 then U8(a.updatedFromC0 + 1) else a.updatedFromC0
    ensures r.updatedFromC1 == if core == CORE1 then U8(a.updatedFromC1 + 1) else a.updatedFromC1
  {
    var w := WriteFields(a, u);
    if core == CORE0 then w.(updatedFromC0 := U8(w.updatedFromC0 + 1))
    else if core == CORE1 then w.(updatedFromC1 := U8(w.updatedFromC1 + 1))
    else w
  }

  /** The counter side of get_axis_config (config.c:297-307): the other
   *  core's counter is returned and reset. */
  function TakeOther(a: AxisConfig, core: u8): (r: (AxisConfig, u32))
    requires core == CORE0 || core == CORE1
    ensures core == CORE0 ==> r.1 == a.updatedFromC1 && r.0 == a.(updatedFromC1 := 0)
    ensures core == CORE1 ==> r.1 == a.updatedFromC0 && r.0 == a.(updatedFromC0 := 0)
  {
    if core == CORE0 then (a.(updatedFromC1 := 0), a.updatedFromC1)
    else (a.(updatedFromC0 := 0), a.updatedFromC0)
  }

  /** The initial values of the global `config` (config.c:27-98); fields
   *  the initialiser does not name are zero. */
  function InitialAxis(maxAccelTicks: F64): (a: AxisConfig)
    ensures a.updatedFromC0 == 0 && a.updatedFromC1 == 0 && a.ioPosStep == -1 && a.ioPosDir == -1
  {
    AxisConfig(0, 0, 0, -1, -1, 0, 0, 0, DOUBLE_50, maxAccelTicks, 0, 0, 0, 0, FLOAT_0_2)
  }

  const DOUBLE_50: F64 := 0x4049_0000_0000_0000
  const DOUBLE_2: F64 := 0x4000_0000_0000_0000
  const DOUBLE_10: F64 := 0x4024_0000_0000_0000
  const DOUBLE_200: F64 := 0x4069_0000_0000_0000
  const FLOAT_0_2: F32 := 0x3E4C_CCCD

  function InitialAxes(): (axes: seq<AxisConfig>)
    ensures |axes| == MAX_AXIS
  {
    [InitialAxis(DOUBLE_2), InitialAxis(DOUBLE_10), InitialAxis(DOUBLE_200), InitialAxis(DOUBLE_200)]
  }

  /** The int32_t difference of two uint32_t counters, as
   *  update_packet_metrics computes it (config.c:156-157). */
  function WrappedDiff(now: u32, last: u32): (d: i32)
    ensures -0x8000_0000 <= now - last < 0x8000_0000 ==> d == now - last
    ensures now - last >= 0x8000_0000 ==> d == now - last - 0x1_0000_0000
    ensures now - last < -0x8000_0000 ==> d == now - last + 0x1_0000_0000
  {
    I32(now - last)
  }

  /** struct ConfigGlobal, the `config` global shared by both cores. */
  class Config {
    var lastUpdateId: u32
    var lastUpdateTime: u32
    var updateTimeUs: u32
    var axes: seq<AxisConfig>

    predicate Valid()
      reads this
    {
      |axes| == MAX_AXIS
    }

    constructor ()
      ensures Valid()
      ensures lastUpdateId == 0 && lastUpdateTime == 0 && updateTimeUs == 1000
      ensures axes == InitialAxes()
    {
      lastUpdateId, lastUpdateTime, updateTimeUs := 0, 0, 1000;
      axes := InitialAxes();
    }

    /** update_period (config.c:122-130). */
    method UpdatePeriod(t: u32)
      requires Valid()
      modifies this
      ensures Valid() && updateTimeUs == t
      ensures lastUpdateId == old(lastUpdateId) && lastUpdateTime == old(lastUpdateTime)
      ensures axes == old(axes)
    {
      updateTimeUs := t;
    }

    /** get_period (config.c:134-144). */
    method GetPeriod() returns (t: u32)
      requires Valid()
      ensures t == updateTimeUs
    {
      t := updateTimeUs;
    }

    /** update_packet_metrics (config.c:147-183): the differences to the
     *  previous timing message, then that message becomes the previous one. */
    method UpdatePacketMetrics(updateId: u32, time: u32) returns (idDiff: i32, timeDiff: i32)
      requires Valid()
      modifies this
      ensures Valid()
      ensures idDiff == WrappedDiff(updateId, old(lastUpdateId))
      ensures timeDiff == WrappedDiff(time, old(lastUpdateTime))
      ensures lastUpdateId == updateId && lastUpdateTime == time
      ensures updateTimeUs == old(updateTimeUs) && axes == old(axes)
    {
      idDiff := I32(updateId - lastUpdateId);
      timeDiff := I32(time - lastUpdateTime);
      lastUpdateId := updateId;
      lastUpdateTime := time;
    }

    /** has_new_c0_data (config.c:185-191); the C indexes without a bound
     *  check, so the axis must exist. */
    method HasNewC0Data(axis: u8) returns (updated: u8)
      requires Valid() && axis < MAX_AXIS
      ensures updated == axes[axis].updatedFromC0
    {
      updated := axes[axis].updatedFromC0;
    }

    /** update_axis_config (config.c:193-268). */
    method UpdateAxisConfig(axis: u8, core: u8, u: AxisFields)
      requires Valid()
      modifies this
      ensures Valid()
      ensures axis >= MAX_AXIS ==> axes == old(axes)
      ensures axis < MAX_AXIS ==> axes == old(axes)[axis := UpdateAxis(old(axes)[axis], core, u)]
      ensures updateTimeUs == old(updateTimeUs)
      ensures lastUpdateId == old(lastUpdateId) && lastUpdateTime == old(lastUpdateTime)
    {
      if axis >= MAX_AXIS {
        return;
      }
      var a := axes[axis];
      a := WriteFields(a, u);
      if core == CORE0 {
        a := a.(updatedFromC0 := U8(a.updatedFromC0 + 1));
      } else if core == CORE1 {
        a := a.(updatedFromC1 := U8(a.updatedFromC1 + 1));
      }
      axes := axes[axis := a];
    }

    /**
     * get_axis_config (config.c:271-352). For a valid axis the returned
     * count is the other core's counter, which is reset; `r` holds the
     * values written through the non-NULL pointers in `want`. A core other
     * than CORE0 or CORE1 would return an uninitialised value, so the
     * caller must name one of them.
     */
    method GetAxisConfig(axis: u8, core: u8, want: set<Field>) returns (updated: u32, r: AxisFields)
      requires Valid() && (axis >= MAX_AXIS || core == CORE0 || core == CORE1)
      modifies this
      ensures Valid()
      ensures axis >= MAX_AXIS ==> updated == 0 && r == NO_FIELDS && axes == old(axes)
      ensures axis < MAX_AXIS ==>
        && (axes, updated) == (old(axes)[axis := TakeOther(old(axes)[axis], core).0], TakeOther(old(axes)[axis], core).1)
        && r == ReadFields(old(axes)[axis], want)
      ensures updateTimeUs == old(updateTimeUs)
      ensures lastUpdateId == old(lastUpdateId) && lastUpdateTime == old(lastUpdateTime)
    {
      if axis >= MAX_AXIS {
        return 0, NO_FIELDS;
      }
      var a := axes[axis];
      if core == CORE0 {
        updated := a.updatedFromC1;
        axes := axes[axis := a.(updatedFromC1 := 0)];
      } else {
        updated := a.updatedFromC0;
        axes := axes[axis := a.(updatedFromC0 := 0)];
      }
      r := ReadFields(a, want);
    }

    /**
     * The guards of serialise_timing (config.c:355-371): the reply carries
     * the current period, and `packed` is what pack_nw_buff returned for it.
     */
    method SerialiseTiming(packed: u16) returns (ok: bool, rpUpdateLen: u32)
      requires Valid()
      ensures ok <==> packed != 0
      ensures rpUpdateLen == updateTimeUs
    {
      rpUpdateLen := GetPeriod();
      ok := packed != 0;
    }

    /**
     * serialise_axis_movement (config.c:374-426) with wait_for_data false:
     * reads abs_pos_acheived and velocity_acheived as core 0, which resets
     * the axis' core-1 counter, and reports whether pack_nw_buff accepted
     * the reply. An invalid axis is refused before anything is read.
     */
    method SerialiseAxisMovement(axis: u32, packed: u16) returns (ok: bool, reading: AxisFields)
      requires Valid()
      modifies this
      ensures Valid()
      ensures ok <==> axis < MAX_AXIS && packed != 0
      ensures axis >= MAX_AXIS ==> axes == old(axes)
      ensures axis < MAX_AXIS ==>
        && axes == old(axes)[axis := old(axes)[axis].(updatedFromC1 := 0)]
        && reading == ReadFields(old(axes)[axis], {AbsPosAcheived, VelocityAcheived})
      ensures updateTimeUs == old(updateTimeUs)
      ensures lastUpdateId == old(lastUpdateId) && lastUpdateTime == old(lastUpdateTime)
    {
      if axis >= MAX_AXIS {
        return false, NO_FIELDS;
      }
      var updated;
      updated, reading := GetAxisConfig(axis as u8, CORE0, {AbsPosAcheived, VelocityAcheived});
      ok := packed != 0;
    }

    /** serialise_axis_config (config.c:445-492). */
    method SerialiseAxisConfig(axis: u32, packed: u16) returns (ok: bool, reading: AxisFields)
      requires Valid()
      modifies this
      ensures Valid()
      ensures ok <==> axis < MAX_AXIS && packed != 0
      ensures axis >= MAX_AXIS ==> axes == old(axes)
      ensures axis < MAX_AXIS ==>
        && axes == old(axes)[axis := old(axes)[axis].(updatedFromC1 := 0)]
        && reading == ReadFields(old(axes)[axis], {Enabled, IoPosStep, IoPosDir, MaxVelocity, MaxAccelTicks})
      ensures updateTimeUs == old(updateTimeUs)
      ensures lastUpdateId == old(lastUpdateId) && lastUpdateTime == old(lastUpdateTime)
    {
      if axis >= MAX_AXIS {
        return false, NO_FIELDS;
      }
      var updated;
      updated, reading := GetAxisConfig(axis as u8, CORE0, {Enabled, IoPosStep, IoPosDir, MaxVelocity, MaxAccelTicks});
      ok := packed != 0;
    }

    /** serialise_axis_metrics (config.c:495-538). */
    method SerialiseAxisMetrics(axis: u32, packed: u16) returns (ok: bool, reading: AxisFields)
      requires Valid()
      modifies this
      ensures Valid()
      ensures ok <==> axis < MAX_AXIS && packed != 0
      ensures axis >= MAX_AXIS ==> axes == old(axes)
      ensures axis < MAX_AXIS ==>
        && axes == old(axes)[axis := old(axes)[axis].(updatedFromC1 := 0)]
        && reading == ReadFields(old(axes)[axis], {VelocityRequested, StepLenTicks})
      ensures updateTimeUs == old(updateTimeUs)
      ensures lastUpdateId == old(lastUpdateId) && lastUpdateTime == old(lastUpdateTime)
    {
      if axis >= MAX_AXIS {
        return false, NO_FIELDS;
      }
      var updated;
      updated, reading := GetAxisConfig(axis as u8, CORE0, {VelocityRequested, StepLenTicks});
      ok := packed != 0;
    }
  }

  /** serialise_spindle_speed (config.c:428-442) succeeds iff the reply was packed. */
  function SerialiseSpindleSpeed(packed: u16): (ok: bool)
    ensures ok <==> packed != 0
  {
    packed != 0
  }
}

/** What the per-axis handshake between the two cores promises. */
module RpConfigProps {
  import opened Wrappers
  import opened CInt
  import opened RpConfig

  /** Reading back exactly the fields an update wrote returns the update. */
  lemma UpdateThenReadWritten(a: AxisConfig, core: u8, u: AxisFields, want: set<Field>)
    requires NamesExactly(u, want)
    ensures ReadFields(UpdateAxis(a, core, u), want) == u
  {
  }

  /** Fields the update did not name read back as before. */
  lemma UpdateKeepsOthers(a: AxisConfig, core: u8, u: AxisFields, want: set<Field>)
    requires NamesNone(u, want)
    ensures ReadFields(UpdateAxis(a, core, u), want) == ReadFields(a, want)
  {
  }

  /** A read never changes a data field: only the other core's counter moves. */
  lemma TakeKeepsData(a: AxisConfig, core: u8, want: set<Field>)
    requires core == CORE0 || core == CORE1
    ensures ReadFields(TakeOther(a, core).0, want) == ReadFields(a, want)
    ensures core == CORE0 ==> TakeOther(a, core).0.updatedFromC0 == a.updatedFromC0
    ensures core == CORE1 ==> TakeOther(a, core).0.updatedFromC1 == a.updatedFromC1
  {
  }

  /** Two reads with no update between them: the second reports nothing new. */
  lemma SecondTakeIsZero(a: AxisConfig, core: u8)
    requires core == CORE0 || core == CORE1
    ensures TakeOther(TakeOther(a, core).0, core).1 == 0
  {
  }

  /**
   * The handshake: after the other core has read (counter 0), n updates by
   * one core are reported to the other as n, as long as n stays below 256.
   */
  lemma {:induction false} UpdatesAreCounted(a: AxisConfig, writer: u8, us: seq<AxisFields>)
    requires writer == CORE0 || writer == CORE1
    requires |us| < 0x100
    requires (if writer == CORE0 then a.updatedFromC0 else a.updatedFromC1) == 0
    ensures TakeOther(UpdateAll(a, writer, us), 1 - writer).1 == |us|
  {
    if us != [] {
      UpdatesAreCounted(a, writer, us[..|us| - 1]);
    }
  }

  /** Apply the updates in order. */
  function UpdateAll(a: AxisConfig, core: u8, us: seq<AxisFields>): (r: AxisConfig)
    ensures core != CORE0 ==> r.updatedFromC0 == a.updatedFromC0
    ensures core != CORE1 ==> r.updatedFromC1 == a.updatedFromC1
  {
    if us == [] then a else UpdateAxis(UpdateAll(a, core, us[..|us| - 1]), core, us[|us| - 1])
  }

  /** An update names a counter only for cores 0 and 1; other cores write data silently. */
  lemma OtherCoreCountsNothing(a: AxisConfig, core: u8, u: AxisFields)
    requires core != CORE0 && core != CORE1
    ensures UpdateAxis(a, core, u) == WriteFields(a, u)
  {
  }

  /** The counter wraps: the 256th update reads as 0. */
  lemma CounterWraps(a: AxisConfig)
    requires a.updatedFromC0 == 0xFF
    ensures UpdateAxis(a, CORE0, NO_FIELDS).updatedFromC0 == 0
  {
  }

  /**
   * A timing message d after the previous one (both counters wrapping at
   * 2^32) yields difference d, for any d that fits in int32_t.
   */
  lemma WrappedDiffOfAdvance(last: u32, d: i32)
    ensures WrappedDiff(U32(last + d), last) == d
  {
    var now := U32(last + d);
    var k := (last + d) / 0x1_0000_0000;
    assert now - last == d + (-k) * 0x1_0000_0000;
    ModShift(d, -k, 0x1_0000_0000);
    assert U32(now - last) == U32(d);
  }
}
