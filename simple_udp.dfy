/**
 * The smaller UDP test client of src/test_client/simple_udp.c. Each call
 * of populate_data_loop turns the same four swinging axes as the client
 * of src/test_client/udp.c and packs their positions, with no timing
 * message in front, through its own serialize_data. That serialize_data
 * knows a different set of message types; like the other one it copies
 * the struct before it checks the space, and it never reduces the space
 * left. The axes, the message structs and the packing of words are those
 * of ClientUdp; the sockets, the clock and the busy wait are not modelled.
 */
module SimpleUdp {
  import opened CInt
  import opened Wrappers
  import ClientUdp

  const BUFSIZE: nat := 1024
  const MAX_AXIS: nat := 4

  // Message types numbered in src/shared/messages.h:15, 18.
  const MSG_SET_AXIS_ABS_POS: u32 := 4
  const MSG_SET_AXIS_MAX_ACCEL: u32 := 7

  /** The codes of the types this serialize_data handles that
   *  src/shared/messages.h does not number. */
  datatype Codes = Codes(
    updateRate: u32, relPos: u32, maxSpeed: u32, absPosAtTime: u32,
    pidKp: u32, pidKi: u32, pidKd: u32,
    globalConfig: u32, axisConfig: u32, axisPos: u32)

  /** The case labels of the switch all differ, as C requires. */
  predicate Distinct(c: Codes)
  {
    var own := [c.updateRate, c.relPos, c.maxSpeed, c.absPosAtTime, c.pidKp, c.pidKi, c.pidKd,
                c.globalConfig, c.axisConfig, c.axisPos];
    && (forall i :: 0 <= i < |own| ==> own[i] != MSG_SET_AXIS_ABS_POS && own[i] != MSG_SET_AXIS_MAX_ACCEL)
    && (forall i, j :: 0 <= i < j < |own| ==> own[i] != own[j])
  }

  /** The cases of serialize_data (src/test_client/simple_udp.c:48-107). */
  datatype Kind = UpdateRate | AbsPos | RelPos | Gain | GlobalConfig | AxisConfig | AxisPos | Unknown

  /** The case a message type reaches, in the order of the switch;
   *  MAX_SPEED, MAX_ACCEL, ABS_POS_AT_TIME, PID_KP and PID_KI fall
   *  through to PID_KD. */
  function KindOf(t: u32, c: Codes): Kind
  {
    if t == c.updateRate then UpdateRate
    else if t == MSG_SET_AXIS_ABS_POS then AbsPos
    else if t == c.relPos then RelPos
    else if t == c.maxSpeed || t == MSG_SET_AXIS_MAX_ACCEL || t == c.absPosAtTime
         || t == c.pidKp || t == c.pidKi || t == c.pidKd then Gain
    else if t == c.globalConfig then GlobalConfig
    else if t == c.axisConfig then AxisConfig
    else if t == c.axisPos then AxisPos
    else Unknown
  }

  /** With distinct labels every set-message label reaches its own case. */
  lemma KindsOfSetLabels(c: Codes)
    requires Distinct(c)
    ensures KindOf(c.updateRate, c) == UpdateRate && KindOf(MSG_SET_AXIS_ABS_POS, c) == AbsPos
    ensures KindOf(c.relPos, c) == RelPos
    ensures KindOf(c.maxSpeed, c) == Gain && KindOf(MSG_SET_AXIS_MAX_ACCEL, c) == Gain
    ensures KindOf(c.absPosAtTime, c) == Gain
    ensures KindOf(c.pidKp, c) == Gain && KindOf(c.pidKi, c) == Gain && KindOf(c.pidKd, c) == Gain
  {
    var own := [c.updateRate, c.relPos, c.maxSpeed, c.absPosAtTime, c.pidKp, c.pidKi, c.pidKd,
                c.globalConfig, c.axisConfig, c.axisPos];
    assert own[0] == c.updateRate && own[1] == c.relPos && own[2] == c.maxSpeed;
    assert own[3] == c.absPosAtTime && own[4] == c.pidKp && own[5] == c.pidKi && own[6] == c.pidKd;
  }

  /** With distinct labels every get-message label reaches its own case. */
  lemma KindsOfGetLabels(c: Codes)
    requires Distinct(c)
    ensures KindOf(c.globalConfig, c) == GlobalConfig && KindOf(c.axisConfig, c) == AxisConfig
    ensures KindOf(c.axisPos, c) == AxisPos
  {
    var own := [c.updateRate, c.relPos, c.maxSpeed, c.absPosAtTime, c.pidKp, c.pidKi, c.pidKd,
                c.globalConfig, c.axisConfig, c.axisPos];
    assert own[0] == c.updateRate && own[1] == c.relPos && own[2] == c.maxSpeed;
    assert own[3] == c.absPosAtTime && own[4] == c.pidKp && own[5] == c.pidKi && own[6] == c.pidKd;
    assert own[7] == c.globalConfig && own[8] == c.axisConfig && own[9] == c.axisPos;
  }

  /**
   * The struct serialize_data fills from the four values for their type
   * (src/test_client/simple_udp.c:48-103), or None for a type it does not
   * know, where it ends the program (lines 104-107). The struct is the
   * first one, two or three values as they are: the int32_t value of a
   * relative position takes the 32 bits of values[2], and the float of
   * the gain cases their raw bits.
   */
  function MessageFor(values: seq<u32>, c: Codes): (r: Option<ClientUdp.Message>)
    requires |values| == 4
    ensures r.None? <==> KindOf(values[0], c) == Unknown
    ensures r.Some? ==> ClientUdp.Words(r.value) == values[..|ClientUdp.Words(r.value)|]
    ensures r.Some? ==>
      |ClientUdp.Words(r.value)| == match KindOf(values[0], c)
        case GlobalConfig => 1 case UpdateRate => 2 case AxisConfig => 2 case AxisPos => 2 case _ => 3
  {
    var t, v1, v2 := values[0], values[1], values[2];
    match KindOf(t, c)
    case UpdateRate => Some(ClientUdp.Uint(t, v1))
    case AbsPos => Some(ClientUdp.UintUint(t, v1, v2))
    case RelPos => I32Congruent(0, v2); Some(ClientUdp.UintInt(t, v1, I32(v2)))
    case Gain => Some(ClientUdp.UintFloat(t, v1, v2))
    case GlobalConfig => Some(ClientUdp.Header(t))
    case AxisConfig => Some(ClientUdp.Uint(t, v1))
    case AxisPos => Some(ClientUdp.Uint(t, v1))
    case Unknown => None
  }

  /**
   * serialize_data as the code stands (src/test_client/simple_udp.c:36-118),
   * with *packet a byte offset into main's BUFSIZE-byte packet: the
   * message, the new *packet and the new *packet_space. The struct is
   * copied before the space is checked, so a copy past the packet's end
   * is Overflow; `packet_space -= message_size` moves the local pointer,
   * so *packet_space is the same after the call.
   */
  function Serialize(values: seq<u32>, at: nat, space: nat, c: Codes): (r: Result<(ClientUdp.Message, nat, nat), ClientUdp.Outcome>)
    requires |values| == 4
    ensures r.Ok? ==> var (m, at', space') := r.value;
      && MessageFor(values, c) == Some(m)
      && at' == at + ClientUdp.Size(m) <= BUFSIZE && space' == space && ClientUdp.Size(m) <= space
    ensures r.Err? ==> r.error in {ClientUdp.InvalidType(values[0]), ClientUdp.Overflow, ClientUdp.NoSpace}
    ensures KindOf(values[0], c) == Unknown ==> r == Err(ClientUdp.InvalidType(values[0]))
    ensures KindOf(values[0], c) != Unknown && at + 12 <= BUFSIZE && space >= 12 ==> r.Ok?
  {
    match MessageFor(values, c)
    case None => Err(ClientUdp.InvalidType(values[0]))
    case Some(m) =>
      if at + ClientUdp.Size(m) > BUFSIZE then Err(ClientUdp.Overflow)
      else if space < ClientUdp.Size(m) then Err(ClientUdp.NoSpace)
      else Ok((m, at + ClientUdp.Size(m), space))
  }

  /** A position message at byte `at` is stored, three words long, and the
   *  space left stays where it was. */
  lemma PositionStored(k: u32, pos: u32, at: nat, space: nat, c: Codes)
    requires Distinct(c) && at + 12 <= BUFSIZE && space >= 12
    ensures Serialize([MSG_SET_AXIS_ABS_POS, k, pos, 0], at, space, c)
         == Ok((ClientUdp.UintUint(MSG_SET_AXIS_ABS_POS, k, pos), at + 12, space))
  {
    var own := [c.updateRate, c.relPos, c.maxSpeed, c.absPosAtTime, c.pidKp, c.pidKi, c.pidKd,
                c.globalConfig, c.axisConfig, c.axisPos];
    assert own[0] == c.updateRate;
  }

  /** The speed stores of the init block (src/test_client/simple_udp.c:174-177). */
  const SPEED_STORES: seq<(nat, u32)> := [(0, 1), (1, 10), (2, 100), (3, 1000)]

  /** Unlike the init block of src/test_client/udp.c, this one stores one
   *  speed per axis and no more: the axes start as ClientUdp.Initials. */
  lemma SpeedsFit()
    ensures ClientUdp.Stored(seq(MAX_AXIS, _ => 0), SPEED_STORES) == Ok(ClientUdp.SPEEDS)
  {
    ClientUdp.SpeedsOverflow();
    assert ClientUdp.SPEED_STORES[..MAX_AXIS] == SPEED_STORES;
  }

  /** One pass of the loop over the axes
   *  (src/test_client/simple_udp.c:194-219): turn axis `k` after the axes
   *  `done`, and store its position at byte `at`, after theirs. */
  method ReportAxis(osc: ClientUdp.Oscillator, k: nat, at: nat, c: Codes,
                    ghost start: seq<ClientUdp.Swing>, ghost done: seq<ClientUdp.Swing>)
    returns (ws: seq<u32>, at': nat, ghost done': seq<ClientUdp.Swing>)
    requires Distinct(c) && at + 12 <= BUFSIZE
    requires k < MAX_AXIS == |start| && (forall j :: 0 <= j < MAX_AXIS ==> ClientUdp.Bounded(start[j]))
    requires done == ClientUdp.TurnAll(start[..k], osc.runCount) && osc.axes == done + start[k..]
    modifies osc
    ensures osc.runCount == old(osc.runCount)
    ensures done' == ClientUdp.TurnAll(start[..k + 1], osc.runCount) && osc.axes == done' + start[k + 1..]
    ensures ClientUdp.Flat(ClientUdp.Reports(done')) == ClientUdp.Flat(ClientUdp.Reports(done)) + ws
    ensures at' == at + 12
  {
    assert osc.axes[k] == start[k];
    assert ClientUdp.Bounded(start[k]);
    var pos := osc.TurnAxis(k);
    var x := osc.axes[k];
    done' := done + [x];
    assert osc.axes == done' + start[k + 1..];
    ClientUdp.TurnAllSnoc(start, osc.runCount, k);
    ClientUdp.ReportsSnoc(done, x);
    ClientUdp.FlatSnoc(ClientUdp.Reports(done), ClientUdp.Report(k, x));
    PositionStored(k as u32, pos, at, BUFSIZE - 4, c);
    var r := Serialize([MSG_SET_AXIS_ABS_POS, k as u32, pos, 0], at, BUFSIZE - 4, c);
    ws, at' := ClientUdp.Words(r.value.0), r.value.1;
  }

  /** The loop over the axes (src/test_client/simple_udp.c:194-219):
   *  every axis turned, and its position stored after the ones before. */
  method ReportAxes(osc: ClientUdp.Oscillator, c: Codes) returns (packet: seq<u32>, packetSize: nat)
    requires Distinct(c) && |osc.axes| == MAX_AXIS
    requires forall j :: 0 <= j < MAX_AXIS ==> ClientUdp.Bounded(osc.axes[j])
    modifies osc
    ensures osc.runCount == old(osc.runCount)
    ensures osc.axes == ClientUdp.TurnAll(old(osc.axes), osc.runCount)
    ensures packet == ClientUdp.Flat(ClientUdp.Reports(osc.axes)) && packetSize == 48
    ensures forall j :: 0 <= j < MAX_AXIS ==> ClientUdp.Bounded(osc.axes[j])
  {
    ghost var start := osc.axes;
    var run := osc.runCount;
    ghost var done: seq<ClientUdp.Swing> := [];
    packet, packetSize := [], 0;
    var axis := 0;
    while axis < MAX_AXIS
      invariant axis <= MAX_AXIS && osc.runCount == run
      invariant done == ClientUdp.TurnAll(start[..axis], run) && osc.axes == done + start[axis..]
      invariant packet == ClientUdp.Flat(ClientUdp.Reports(done)) && packetSize == 12 * axis
    {
      var more;
      more, packetSize, done := ReportAxis(osc, axis, packetSize, c, start, done);
      packet := packet + more;
      axis := axis + 1;
    }
    assert start[..MAX_AXIS] == start;
    forall k | 0 <= k < MAX_AXIS
      ensures ClientUdp.Bounded(osc.axes[k])
    {
      ClientUdp.TurnAllAt(start, run, k);
    }
  }

  /**
   * populate_data_loop (src/test_client/simple_udp.c:157-245): set the
   * axes up on the first call (and again when run_count wraps to 0), turn
   * each axis and store its position, and count the call. The words of
   * the packet up to packet_size, and the size: four positions, none of
   * them refused, though *packet_space stays at BUFSIZE - 4 throughout.
   */
  method PopulateDataLoop(osc: ClientUdp.Oscillator, c: Codes) returns (packet: seq<u32>, packetSize: nat)
    requires osc.Valid() && Distinct(c)
    modifies osc
    ensures osc.Valid() && osc.runCount == U32(old(osc.runCount) + 1)
    ensures var from := if old(osc.runCount) == 0 then ClientUdp.Initials() else old(osc.axes);
      (forall k :: 0 <= k < MAX_AXIS ==> ClientUdp.Bounded(from[k]))
      && osc.axes == ClientUdp.TurnAll(from, old(osc.runCount))
    ensures packet == ClientUdp.Flat(ClientUdp.Reports(osc.axes))
    ensures packetSize == 4 * |packet| == 48
  {
    osc.Start();
    packet, packetSize := ReportAxes(osc, c);
    osc.Tick();
  }
}
