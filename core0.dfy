/**
 * process_received_buffer of src/rp2040/core0.c: core 0 walks the bytes of
 * a received UDP packet as a stream of message structs, each introduced by
 * a 32-bit type word, until it meets a type word of 0. A timing message
 * updates the packet metrics and queues a metrics reply in tx_buf; every
 * other recognised message writes one field of one axis through
 * update_axis_config. An unknown type stops the walk and discards the
 * reply. Finally the whole receive buffer is zeroed.
 *
 * The message codes and struct sizes come from a messages.h that the
 * repository does not show in the version core0.c uses (it names codes
 * such as MSG_SET_AXIS_PID_KP that src/shared/messages.h lacks), so they
 * are a parameter of the model: a Wire value.
 */
module RpCore0 {
  import opened Wrappers
  import opened CInt
  import opened RpConfig
  import Checksum

  /** DATA_BUF_SIZE (src/rp2040/stepper_control.h:19). */
  const DATA_BUF_SIZE: nat := 1024
  /** REPLY_METRICS and sizeof(struct Reply_metrics) (src/shared/messages.h:81, 88-93). */
  const REPLY_METRICS: u32 := 1
  const METRICS_SIZE: nat := 16

  /** The message types process_received_buffer recognises, in switch order. */
  datatype Kind = Timing | Enable | AbsPos | RelPos | MaxSpeed | MaxAccel | PidKp | IoStep | IoDir

  /** A value per message kind. */
  datatype PerKind<T> = PerKind(timing: T, enable: T, absPos: T, relPos: T, maxSpeed: T,
                                maxAccel: T, pidKp: T, ioStep: T, ioDir: T)

  function Of<T>(p: PerKind<T>, k: Kind): T
  {
    match k
    case Timing => p.timing
    case Enable => p.enable
    case AbsPos => p.absPos
    case RelPos => p.relPos
    case MaxSpeed => p.maxSpeed
    case MaxAccel => p.maxAccel
    case PidKp => p.pidKp
    case IoStep => p.ioStep
    case IoDir => p.ioDir
  }

  /** The message codes and struct sizes of the messages.h core0.c is built with. */
  datatype Wire = Wire(codes: PerKind<u32>, sizes: PerKind<nat>)
  {
    function code(k: Kind): u32 { Of(codes, k) }
    function size(k: Kind): nat { Of(sizes, k) }
  }

  /** Bytes of the value that follows the type word and the second word:
   *  a uint32_t time, a uint8_t, a double or a float. */
  function Width(k: Kind): (n: nat)
    ensures 1 <= n <= 8
  {
    match k
    case Timing => 4
    case Enable => 1
    case IoStep => 1
    case IoDir => 1
    case PidKp => 4
    case _ => 8
  }

  /** Every struct holds its type word, its second word and its value. */
  predicate WireOk(w: Wire)
  {
    && w.sizes.timing >= 12 && w.sizes.enable >= 9 && w.sizes.absPos >= 16 && w.sizes.relPos >= 16
    && w.sizes.maxSpeed >= 16 && w.sizes.maxAccel >= 16 && w.sizes.pidKp >= 12 && w.sizes.ioStep >= 9
    && w.sizes.ioDir >= 9
  }

  /** WireOk for one kind at a time. */
  lemma WireOkOf(w: Wire, k: Kind)
    requires WireOk(w)
    ensures w.size(k) >= 8 + Width(k)
  {
  }

  /** What C demands of the case labels of one switch: they are distinct,
   *  and none is 0, which ends the walk instead. */
  predicate CodesOk(w: Wire)
  {
    && (forall k :: w.code(k) != 0)
    && (forall j, k :: w.code(j) == w.code(k) ==> j == k)
  }

  /** The case of the switch (core0.c:83-197) that a type word selects,
   *  trying the labels in order. */
  function KindOf(w: Wire, t: u32): (r: Option<Kind>)
    ensures r.Some? ==> w.code(r.value) == t
  {
    if t == w.codes.timing then Some(Timing)
    else if t == w.codes.enable then Some(Enable)
    else if t == w.codes.absPos then Some(AbsPos)
    else if t == w.codes.relPos then Some(RelPos)
    else if t == w.codes.maxSpeed then Some(MaxSpeed)
    else if t == w.codes.maxAccel then Some(MaxAccel)
    else if t == w.codes.pidKp then Some(PidKp)
    else if t == w.codes.ioStep then Some(IoStep)
    else if t == w.codes.ioDir then Some(IoDir)
    else None
  }

  /** With distinct labels, each kind's code selects that kind's case, and
   *  a word that is no kind's code selects none. */
  lemma KindOfCode(w: Wire, k: Kind)
    requires CodesOk(w)
    ensures KindOf(w, w.code(k)) == Some(k)
  {
    assert w.codes.timing == w.code(Timing) && w.codes.enable == w.code(Enable);
    assert w.codes.absPos == w.code(AbsPos) && w.codes.relPos == w.code(RelPos);
    assert w.codes.maxSpeed == w.code(MaxSpeed) && w.codes.maxAccel == w.code(MaxAccel);
    assert w.codes.pidKp == w.code(PidKp) && w.codes.ioStep == w.code(IoStep);
    assert w.codes.ioDir == w.code(IoDir);
  }

  /**
   * One received message: its kind, the 32-bit word after the type (the
   * update_id of a timing message, the axis of the others) and the raw
   * bytes of its value.
   */
  datatype Msg = Msg(kind: Kind, first: u32, value: seq<u8>)

  predicate MsgOk(m: Msg)
  {
    |m.value| == Width(m.kind)
  }

  /** Every message of a list is well formed. */
  predicate AllOk(ms: seq<Msg>)
  {
    ms == [] || (MsgOk(ms[0]) && AllOk(ms[1..]))
  }

  /** The uint32_t stored little-endian at buf[at..at+4]. */
  function WordAt(buf: seq<u8>, at: nat): u32
    requires at + 4 <= |buf|
  {
    LeWord32(buf[at..])
  }

  /** The message of kind k whose struct starts at buf[at]. */
  function MsgAt(w: Wire, buf: seq<u8>, at: nat, k: Kind): (m: Msg)
    requires at + 8 + Width(k) <= |buf|
    ensures MsgOk(m) && m.kind == k
  {
    Msg(k, WordAt(buf, at + 4), buf[at + 8..at + 8 + Width(k)])
  }

  /** The bytes a sender lays down for one message (padding as zeros). */
  function Encode(w: Wire, m: Msg): (bs: seq<u8>)
    requires WireOk(w) && MsgOk(m)
    ensures |bs| == w.size(m.kind)
  {
    WireOkOf(w, m.kind);
    LeBytes32(w.code(m.kind)) + LeBytes32(m.first) + m.value + Zeros(w.size(m.kind) - 8 - Width(m.kind))
  }

  function EncodeAll(w: Wire, ms: seq<Msg>): (bs: seq<u8>)
    requires WireOk(w) && AllOk(ms)
  {
    if ms == [] then [] else Encode(w, ms[0]) + EncodeAll(w, ms[1..])
  }

  function Zeros(n: nat): (z: seq<u8>)
    ensures |z| == n && forall i :: 0 <= i < n ==> z[i] == 0
  {
    seq(n, _ => 0)
  }

  /** A struct laid down by Encode reads back as its message: its type word
   *  selects its kind's case, and MsgAt recovers the second word and the
   *  value, whatever follows the struct. */
  lemma {:induction false} EncodeRead(w: Wire, m: Msg, rest: seq<u8>)
    requires WireOk(w) && CodesOk(w) && MsgOk(m)
    ensures |Encode(w, m) + rest| >= 8 + Width(m.kind)
    ensures WordAt(Encode(w, m) + rest, 0) == w.code(m.kind)
    ensures KindOf(w, WordAt(Encode(w, m) + rest, 0)) == Some(m.kind)
    ensures MsgAt(w, Encode(w, m) + rest, 0, m.kind) == m
  {
    WireOkOf(w, m.kind);
    var c, f := LeBytes32(w.code(m.kind)), LeBytes32(m.first);
    var pad := Zeros(w.size(m.kind) - 8 - Width(m.kind));
    var bs := Encode(w, m) + rest;
    assert bs == c + f + m.value + (pad + rest);
    assert bs[..4] == c;
    assert bs[4..8] == f;
    assert bs[8..8 + Width(m.kind)] == m.value;
    ReadsFour(bs, 0, c);
    ReadsFour(bs, 4, f);
    KindOfCode(w, m.kind);
  }

  /** LeWord32 reads only the four bytes at its offset. */
  lemma ReadsFour(bs: seq<u8>, at: nat, four: seq<u8>)
    requires at + 4 <= |bs| && bs[at..at + 4] == four
    ensures WordAt(bs, at) == LeWord32(four)
  {
    assert bs[at..][..4] == four;
  }

  /** A struct laid down by Encode at buf[at] reads back as its message. */
  lemma EncodedAt(w: Wire, buf: seq<u8>, at: nat, m: Msg, rest: seq<u8>)
    requires WireOk(w) && CodesOk(w) && MsgOk(m)
    requires at <= |buf| && buf[at..] == Encode(w, m) + rest
    ensures at + w.size(m.kind) <= |buf| && at + 8 + Width(m.kind) <= |buf|
    ensures WordAt(buf, at) == w.code(m.kind) && KindOf(w, WordAt(buf, at)) == Some(m.kind)
    ensures MsgAt(w, buf, at, m.kind) == m
  {
    EncodeRead(w, m, rest);
    WireOkOf(w, m.kind);
    var bs := buf[at..];
    assert bs[0..] == bs;
    assert buf[at + 4..] == bs[4..];
    assert buf[at + 8..at + 8 + Width(m.kind)] == bs[8..8 + Width(m.kind)];
  }

  /** The structs of ms lie one after another from buf[at], each read back
   *  by its type word and MsgAt, and a 0 type word follows them. */
  predicate Placed(w: Wire, buf: seq<u8>, at: nat, ms: seq<Msg>)
    decreases |ms|
  {
    if ms == [] then at + 4 <= |buf| && WordAt(buf, at) == 0
    else
      && at + w.size(ms[0].kind) <= |buf| && at + 8 + Width(ms[0].kind) <= |buf|
      && WordAt(buf, at) != 0 && KindOf(w, WordAt(buf, at)) == Some(ms[0].kind)
      && MsgAt(w, buf, at, ms[0].kind) == ms[0]
      && Placed(w, buf, at + w.size(ms[0].kind), ms[1..])
  }

  /** The walk over placed messages handles exactly those messages and
   *  stops at the 0 word after them. */
  lemma {:induction false} DecodePlaced(w: Wire, buf: seq<u8>, at: nat, ms: seq<Msg>)
    requires WireOk(w) && Placed(w, buf, at, ms)
    ensures Decode(w, buf, at).msgs == ms && Decode(w, buf, at).stop == AtZero
    ensures Decode(w, buf, at).end == at + SizeSum(w, ms)
    decreases |ms|
  {
    if ms == [] {
      DecodeAtZero(w, buf, at);
    } else {
      var m, rest := ms[0], ms[1..];
      var next := at + w.size(m.kind);
      PlacedHead(w, buf, at, ms);
      DecodePlaced(w, buf, next, rest);
      DecodeTurn(w, buf, at, m.kind);
      assert [m] + rest == ms;
    }
  }

  /** The first of the placed messages, read off the buffer. */
  lemma PlacedHead(w: Wire, buf: seq<u8>, at: nat, ms: seq<Msg>)
    requires WireOk(w) && ms != [] && Placed(w, buf, at, ms)
    ensures at + 4 <= |buf| && at + w.size(ms[0].kind) <= |buf|
    ensures WordAt(buf, at) != 0 && KindOf(w, WordAt(buf, at)) == Some(ms[0].kind)
    ensures MsgAt(w, buf, at, ms[0].kind) == ms[0]
    ensures Placed(w, buf, at + w.size(ms[0].kind), ms[1..])
  {
  }

  /** The walk stops at once at a 0 type word. */
  lemma DecodeAtZero(w: Wire, buf: seq<u8>, at: nat)
    requires WireOk(w) && at + 4 <= |buf| && WordAt(buf, at) == 0
    ensures Decode(w, buf, at) == Walked([], at, AtZero)
  {
  }

  /** Messages that Encode lays down one after another from buf[at],
   *  followed by a 0 type word, are placed there. */
  lemma {:induction false} EncodeAllPlaced(w: Wire, buf: seq<u8>, at: nat, ms: seq<Msg>, tail: seq<u8>)
    requires WireOk(w) && CodesOk(w) && AllOk(ms)
    requires |tail| >= 4 && LeWord32(tail) == 0
    requires at <= |buf| && buf[at..] == EncodeAll(w, ms) + tail
    ensures Placed(w, buf, at, ms)
    decreases |ms|
  {
    if ms == [] {
      assert buf[at..] == tail;
    } else {
      EncodedHead(w, buf, at, ms, tail);
      EncodeAllPlaced(w, buf, at + w.size(ms[0].kind), ms[1..], tail);
    }
  }

  /** The first of the messages laid down from buf[at] reads back, and the
   *  others follow it. */
  lemma EncodedHead(w: Wire, buf: seq<u8>, at: nat, ms: seq<Msg>, tail: seq<u8>)
    requires WireOk(w) && CodesOk(w) && AllOk(ms) && ms != []
    requires at <= |buf| && buf[at..] == EncodeAll(w, ms) + tail
    ensures at + w.size(ms[0].kind) <= |buf| && at + 4 <= |buf| && at + 8 + Width(ms[0].kind) <= |buf|
    ensures WordAt(buf, at) != 0 && KindOf(w, WordAt(buf, at)) == Some(ms[0].kind)
    ensures MsgAt(w, buf, at, ms[0].kind) == ms[0]
    ensures AllOk(ms[1..])
    ensures buf[at + w.size(ms[0].kind)..] == EncodeAll(w, ms[1..]) + tail
  {
    var m := ms[0];
    var after := EncodeAll(w, ms[1..]) + tail;
    assert buf[at..] == Encode(w, m) + after;
    EncodedAt(w, buf, at, m, after);
    assert w.code(m.kind) != 0;
    assert buf[at + w.size(m.kind)..] == buf[at..][w.size(m.kind)..] == after;
  }

  /** A packet of messages closed by a 0 type word decodes to exactly those
   *  messages: the round trip of the struct layout. */
  lemma DecodeEncoded(w: Wire, ms: seq<Msg>)
    requires WireOk(w) && CodesOk(w) && AllOk(ms)
    ensures Decode(w, EncodeAll(w, ms) + LeBytes32(0), 0) == Walked(ms, SizeSum(w, ms), AtZero)
  {
    var buf := EncodeAll(w, ms) + LeBytes32(0);
    assert buf[0..] == buf;
    EncodeAllPlaced(w, buf, 0, ms, LeBytes32(0));
    DecodePlaced(w, buf, 0, ms);
  }

  /** Total struct size of a list of messages. */
  function SizeSum(w: Wire, ms: seq<Msg>): nat
  {
    if ms == [] then 0 else w.size(ms[0].kind) + SizeSum(w, ms[1..])
  }

  /** Why the walk stopped: a 0 type word, a type no case handles, or a
   *  struct or type word that would lie past the end of the buffer. */
  datatype Stop = AtZero | AtUnknown | Overrun

  /** The messages the walk handles, where it stops and why. */
  datatype Walked = Walked(msgs: seq<Msg>, end: nat, stop: Stop)

  /** The walk of the while loop of process_received_buffer (core0.c:82-198)
   *  over buf from the struct at buf[at], as the messages it handles. */
  function Decode(w: Wire, buf: seq<u8>, at: nat): (r: Walked)
    requires WireOk(w)
    ensures AllOk(r.msgs) && at <= r.end
    ensures r.stop != Overrun ==> r.end + 4 <= |buf|
    decreases |buf| - at
  {
    if at + 4 > |buf| then Walked([], at, Overrun)
    else
      var t := WordAt(buf, at);
      if t == 0 then Walked([], at, AtZero)
      else match KindOf(w, t)
        case None => Walked([], at, AtUnknown)
        case Some(k) =>
          WireOkOf(w, k);
          if at + w.size(k) > |buf| then Walked([], at, Overrun)
          else
            var rest := Decode(w, buf, at + w.size(k));
            Walked([MsgAt(w, buf, at, k)] + rest.msgs, rest.end, rest.stop)
  }

  /** Why the walk from buf[at] stops. */
  function StopOf(w: Wire, buf: seq<u8>, at: nat): Stop
    requires WireOk(w)
  {
    Decode(w, buf, at).stop
  }

  /** The walk from buf[at] ends at a 0 type word or an unknown type
   *  without reading past the buffer: what the C demands of rx_buf. */
  predicate Terminated(w: Wire, buf: seq<u8>, at: nat)
    requires WireOk(w)
  {
    StopOf(w, buf, at) != Overrun
  }

  /**
   * What process_received_buffer sees and changes besides rx_buf: the
   * global config's packet metrics, period and axes, the received counter,
   * and tx_buf with the local tx_buf_len.
   */
  datatype Core0 = Core0(
    axes: seq<AxisConfig>,
    lastUpdateId: u32,
    lastUpdateTime: u32,
    updateTimeUs: u32,
    count: u8,
    tx: seq<u8>,
    txLen: nat)

  predicate Core0Ok(s: Core0)
  {
    |s.axes| == MAX_AXIS && |s.tx| == DATA_BUF_SIZE && s.txLen <= DATA_BUF_SIZE
  }

  /** The 16 bytes of a struct Reply_metrics. */
  function MetricsBytes(updateId: u32, timeDiff: i32, period: u32): (bs: seq<u8>)
    ensures |bs| == METRICS_SIZE
  {
    LeBytes32(REPLY_METRICS) + LeBytes32(updateId) + LeBytes32(U32(timeDiff)) + LeBytes32(period)
  }

  /**
   * serialise_metrics, which the repository calls but does not show, as
   * src/test/rp_network_tx_test.c:21-59 pins it: a Reply_metrics carrying
   * the period is written at tx_buf_len and tx_buf_len grows by its size,
   * unless the reply and a terminating word would not fit in the buffer.
   */
  function SerialiseMetrics(tx: seq<u8>, txLen: nat, updateId: u32, timeDiff: i32, period: u32): (r: (seq<u8>, nat))
    requires |tx| == DATA_BUF_SIZE && txLen <= DATA_BUF_SIZE
    ensures |r.0| == DATA_BUF_SIZE && r.1 <= DATA_BUF_SIZE
  {
    if txLen + METRICS_SIZE + 4 <= DATA_BUF_SIZE then
      (tx[..txLen] + MetricsBytes(updateId, timeDiff, period) + tx[txLen + METRICS_SIZE..], txLen + METRICS_SIZE)
    else (tx, txLen)
  }

  /** The one field a set-message names, as update_axis_config's pointer list. */
  function FieldOf(k: Kind): Field
    requires k != Timing
  {
    match k
    case Enable => Enabled
    case AbsPos => AbsPosRequested
    case RelPos => RelPosRequested
    case MaxSpeed => MaxVelocity
    case MaxAccel => MaxAccelTicks
    case PidKp => Kp
    case IoStep => IoPosStep
    case IoDir => IoPosDir
  }

  /** A double or float from its raw little-endian bytes. */
  function F64Of(bs: seq<u8>): F64
    requires |bs| == 8
  {
    LeWord32(bs) + 0x1_0000_0000 * LeWord32(bs[4..])
  }

  function F32Of(bs: seq<u8>): F32
    requires |bs| == 4
  {
    LeWord32(bs)
  }

  /** The update_axis_config arguments of a set-message (core0.c:97-191):
   *  one non-NULL pointer, to the message's value. */
  function UpdateOf(m: Msg): (u: AxisFields)
    requires MsgOk(m) && m.kind != Timing
  {
    match m.kind
    case Enable => NO_FIELDS.(enabled := Some(m.value[0]))
    case AbsPos => NO_FIELDS.(absPosRequested := Some(F64Of(m.value)))
    case RelPos => NO_FIELDS.(relPosRequested := Some(F64Of(m.value)))
    case MaxSpeed => NO_FIELDS.(maxVelocity := Some(F64Of(m.value)))
    case MaxAccel => NO_FIELDS.(maxAccelTicks := Some(F64Of(m.value)))
    case PidKp => NO_FIELDS.(kp := Some(F32Of(m.value)))
    case IoStep => NO_FIELDS.(ioPosStep := Some(I8(m.value[0])))
    case IoDir => NO_FIELDS.(ioPosDir := Some(I8(m.value[0])))
  }

  /** update_axis_config on a list of axes; the uint32_t axis of the
   *  message arrives as the uint8_t parameter, so it is reduced mod 256. */
  function AxesAfter(axes: seq<AxisConfig>, axis: u8, u: AxisFields): (r: seq<AxisConfig>)
    requires |axes| == MAX_AXIS
    ensures |r| == MAX_AXIS
  {
    if axis >= MAX_AXIS then axes else axes[axis := UpdateAxis(axes[axis], CORE0, u)]
  }

  /** One case of the switch: the effects of one recognised message. */
  function Apply(s: Core0, m: Msg): (r: Core0)
    requires Core0Ok(s) && MsgOk(m)
    ensures Core0Ok(r) && r.count == U8(s.count + 1) && r.updateTimeUs == s.updateTimeUs
    ensures m.kind != Timing ==>
      r.tx == s.tx && r.txLen == s.txLen && r.lastUpdateId == s.lastUpdateId && r.lastUpdateTime == s.lastUpdateTime
    ensures m.kind == Timing ==> r.axes == s.axes
  {
    if m.kind == Timing then
      var time := LeWord32(m.value);
      var timeDiff := WrappedDiff(time, s.lastUpdateTime);
      var (tx, txLen) := SerialiseMetrics(s.tx, s.txLen, m.first, timeDiff, s.updateTimeUs);
      s.(lastUpdateId := m.first, lastUpdateTime := time, tx := tx, txLen := txLen, count := U8(s.count + 1))
    else
      s.(axes := AxesAfter(s.axes, U8(m.first), UpdateOf(m)), count := U8(s.count + 1))
  }

  /** The messages handled in order. */
  function ApplyAll(s: Core0, ms: seq<Msg>): (r: Core0)
    requires Core0Ok(s) && AllOk(ms)
    ensures Core0Ok(r) && r.updateTimeUs == s.updateTimeUs
    decreases |ms|
  {
    if ms == [] then s else ApplyAll(Apply(s, ms[0]), ms[1..])
  }

  /** An unknown type drops the replies queued so far (core0.c:192-196). */
  function Finish(s: Core0, unknown: bool): (r: Core0)
    ensures r.txLen == (if unknown then 0 else s.txLen)
    ensures r.(txLen := s.txLen) == s
  {
    if unknown then s.(txLen := 0) else s
  }

  /** The effect of the while loop of process_received_buffer from the
   *  message at buf[at] (core0.c:82-198): handle the decoded messages in
   *  order, then drop the replies if the walk met an unknown type. Only
   *  meaningful where Terminated holds. */
  function Run(w: Wire, buf: seq<u8>, at: nat, s: Core0): (r: Core0)
    requires WireOk(w) && Core0Ok(s)
    ensures Core0Ok(r) && r.updateTimeUs == s.updateTimeUs
  {
    var d := Decode(w, buf, at);
    Finish(ApplyAll(s, d.msgs), d.stop == AtUnknown)
  }

  /** The part of the state that process_received_buffer changes, read
   *  off the objects. */
  function StateOf(cfg: Config, tx: array<u8>, txLen: nat, count: u8): Core0
    reads cfg, tx
  {
    Core0(cfg.axes, cfg.lastUpdateId, cfg.lastUpdateTime, cfg.updateTimeUs, count, tx[..], txLen)
  }

  /** serialise_metrics on the tx_buf array. */
  method SerialiseMetricsInto(tx: array<u8>, txLen: nat, updateId: u32, timeDiff: i32, period: u32)
    returns (newLen: nat)
    requires tx.Length == DATA_BUF_SIZE && txLen <= DATA_BUF_SIZE
    modifies tx
    ensures (tx[..], newLen) == SerialiseMetrics(old(tx[..]), txLen, updateId, timeDiff, period)
  {
    if txLen + METRICS_SIZE + 4 > DATA_BUF_SIZE {
      return txLen;
    }
    var bytes := MetricsBytes(updateId, timeDiff, period);
    forall i | 0 <= i < METRICS_SIZE {
      tx[txLen + i] := bytes[i];
    }
    assert tx[..] == old(tx[..])[..txLen] + bytes + old(tx[..])[txLen + METRICS_SIZE..];
    newLen := txLen + METRICS_SIZE;
  }

  /** One case of the switch on the objects. */
  method Handle(m: Msg, cfg: Config, tx: array<u8>, txLen: nat, count: u8) returns (newLen: nat, newCount: u8)
    requires MsgOk(m) && cfg.Valid() && tx.Length == DATA_BUF_SIZE && txLen <= DATA_BUF_SIZE
    modifies cfg, tx
    ensures cfg.Valid()
    ensures StateOf(cfg, tx, newLen, newCount) == Apply(old(StateOf(cfg, tx, txLen, count)), m)
  {
    if m.kind == Timing {
      var idDiff, timeDiff := cfg.UpdatePacketMetrics(m.first, LeWord32(m.value));
      var period := cfg.GetPeriod();
      newLen := SerialiseMetricsInto(tx, txLen, m.first, timeDiff, period);
    } else {
      cfg.UpdateAxisConfig(U8(m.first), CORE0, UpdateOf(m));
      newLen := txLen;
    }
    newCount := U8(count + 1);
  }

  /** A terminated walk has at least its first type word to read. */
  lemma TerminatedRoom(w: Wire, buf: seq<u8>, at: nat)
    requires WireOk(w) && Terminated(w, buf, at)
    ensures at + 4 <= |buf|
  {
    assert Decode(w, buf, at).end + 4 <= |buf|;
  }

  /**
   * Why core0_main meets Terminated: get_UDP stores at most NW_BUF_LEN
   * bytes (src/rp2040/network.c:32-34) into the DATA_BUF_SIZE rx_buf, which
   * is all zero before every receive (core0.c:199, 206, 218). So when no
   * struct is longer than the zero tail less one type word, every walk
   * that starts with a type word inside the buffer ends at a 0 word or an
   * unknown type.
   */
  lemma {:induction false} ReceivedTerminated(w: Wire, buf: seq<u8>, at: nat)
    requires WireOk(w) && |buf| == DATA_BUF_SIZE && at + 4 <= |buf|
    requires forall i :: Checksum.NW_BUF_LEN <= i < |buf| ==> buf[i] == 0
    requires forall k :: w.size(k) <= DATA_BUF_SIZE - Checksum.NW_BUF_LEN - 4
    ensures Terminated(w, buf, at)
    decreases |buf| - at
  {
    if at >= Checksum.NW_BUF_LEN {
      assert buf[at..][0] == buf[at] == 0 && buf[at..][1] == buf[at + 1] == 0;
      assert buf[at..][2] == buf[at + 2] == 0 && buf[at..][3] == buf[at + 3] == 0;
      assert WordAt(buf, at) == 0;
    } else if WordAt(buf, at) != 0 && KindOf(w, WordAt(buf, at)).Some? {
      var k := KindOf(w, WordAt(buf, at)).value;
      WireOkOf(w, k);
      ReceivedTerminated(w, buf, at + w.size(k));
      DecodeTurn(w, buf, at, k);
    }
  }

  /** One turn of the decoder over a struct of a known kind that lies
   *  inside the buffer. */
  lemma DecodeTurn(w: Wire, buf: seq<u8>, at: nat, k: Kind)
    requires WireOk(w) && at + 4 <= |buf|
    requires WordAt(buf, at) != 0 && KindOf(w, WordAt(buf, at)) == Some(k)
    requires at + w.size(k) <= |buf|
    ensures w.size(k) >= 8 + Width(k)
    ensures Decode(w, buf, at).msgs == [MsgAt(w, buf, at, k)] + Decode(w, buf, at + w.size(k)).msgs
    ensures Decode(w, buf, at).stop == Decode(w, buf, at + w.size(k)).stop
    ensures Decode(w, buf, at).end == Decode(w, buf, at + w.size(k)).end
  {
    WireOkOf(w, k);
    var rest := Decode(w, buf, at + w.size(k));
    assert Decode(w, buf, at) == Walked([MsgAt(w, buf, at, k)] + rest.msgs, rest.end, rest.stop);
  }

  /** On a terminated walk a struct of a known kind lies inside the buffer
   *  and the walk from the next struct is terminated too. */
  lemma NextTerminated(w: Wire, buf: seq<u8>, at: nat, k: Kind)
    requires WireOk(w) && at + 4 <= |buf| && Terminated(w, buf, at)
    requires WordAt(buf, at) != 0 && KindOf(w, WordAt(buf, at)) == Some(k)
    ensures at + w.size(k) + 4 <= |buf| && StopOf(w, buf, at + w.size(k)) != Overrun
  {
    WireOkOf(w, k);
    if at + w.size(k) <= |buf| {
      DecodeTurn(w, buf, at, k);
      TerminatedRoom(w, buf, at + w.size(k));
    }
  }

  /** One turn of the walk over a struct of a known kind: handle its
   *  message, then walk on from the next struct. */
  lemma RunTurn(w: Wire, buf: seq<u8>, at: nat, s: Core0, k: Kind)
    requires WireOk(w) && at + 4 <= |buf| && Core0Ok(s)
    requires WordAt(buf, at) != 0 && KindOf(w, WordAt(buf, at)) == Some(k)
    requires at + w.size(k) <= |buf|
    ensures w.size(k) >= 8 + Width(k)
    ensures Run(w, buf, at, s) == Run(w, buf, at + w.size(k), Apply(s, MsgAt(w, buf, at, k)))
  {
    DecodeTurn(w, buf, at, k);
    ApplyAllCons(s, MsgAt(w, buf, at, k), Decode(w, buf, at + w.size(k)).msgs);
  }

  /** Handling [m] + ms is handling m, then ms. */
  lemma ApplyAllCons(s: Core0, m: Msg, ms: seq<Msg>)
    requires Core0Ok(s) && MsgOk(m) && AllOk(ms)
    ensures AllOk([m] + ms)
    ensures ApplyAll(s, [m] + ms) == ApplyAll(Apply(s, m), ms)
  {
    assert ([m] + ms)[0] == m && ([m] + ms)[1..] == ms;
  }

  /** A 0 word or an unknown type ends both the walk and the decoder. */
  lemma StopTurn(w: Wire, buf: seq<u8>, at: nat, s: Core0)
    requires WireOk(w) && at + 4 <= |buf| && Core0Ok(s)
    requires WordAt(buf, at) == 0 || KindOf(w, WordAt(buf, at)).None?
    ensures Decode(w, buf, at) == Walked([], at, if WordAt(buf, at) == 0 then AtZero else AtUnknown)
    ensures Run(w, buf, at, s) == if WordAt(buf, at) == 0 then s else s.(txLen := 0)
  {
    assert ApplyAll(s, []) == s;
  }

  /** The walk's goal is kept across one turn: the walk from the next
   *  struct, started after handling this one, is terminated and ends in
   *  goal. */
  lemma WalkTurn(w: Wire, buf: seq<u8>, at: nat, s: Core0, k: Kind, goal: Core0)
    requires WireOk(w) && at + 4 <= |buf| && StopOf(w, buf, at) != Overrun
    requires Core0Ok(s) && Run(w, buf, at, s) == goal
    requires WordAt(buf, at) != 0 && KindOf(w, WordAt(buf, at)) == Some(k)
    ensures at + w.size(k) + 4 <= |buf| && w.size(k) >= 8 + Width(k)
    ensures StopOf(w, buf, at + w.size(k)) != Overrun
    ensures Run(w, buf, at + w.size(k), Apply(s, MsgAt(w, buf, at, k))) == goal
  {
    NextTerminated(w, buf, at, k);
    RunTurn(w, buf, at, s, k);
  }

  /** WalkTurn, stated for the cursor and the state after the turn. */
  lemma WalkedTo(w: Wire, buf: seq<u8>, at: nat, s: Core0, k: Kind, goal: Core0, next: nat, s': Core0)
    requires WireOk(w) && at + 4 <= |buf| && StopOf(w, buf, at) != Overrun
    requires Core0Ok(s) && Run(w, buf, at, s) == goal
    requires WordAt(buf, at) != 0 && KindOf(w, WordAt(buf, at)) == Some(k)
    requires next == at + w.size(k) && at + 8 + Width(k) <= |buf| && s' == Apply(s, MsgAt(w, buf, at, k))
    ensures next + 4 <= |buf| && StopOf(w, buf, next) != Overrun
    ensures Core0Ok(s') && Run(w, buf, next, s') == goal
  {
    WalkTurn(w, buf, at, s, k, goal);
  }

  /** A 0 word or an unknown type ends the walk. */
  lemma WalkStop(w: Wire, buf: seq<u8>, at: nat, s: Core0, goal: Core0)
    requires WireOk(w) && at + 4 <= |buf| && Core0Ok(s) && Run(w, buf, at, s) == goal
    requires WordAt(buf, at) == 0 || KindOf(w, WordAt(buf, at)).None?
    ensures goal == if WordAt(buf, at) == 0 then s else s.(txLen := 0)
  {
    StopTurn(w, buf, at, s);
  }

  /** One turn of the while loop over a struct of a known kind: handle
   *  its message and step the cursor past it. */
  method Turn(w: Wire, rx: array<u8>, tx: array<u8>, cfg: Config, at: nat, k: Kind,
              txLen: nat, received: u8, ghost st: Core0)
    returns (next: nat, newLen: nat, newReceived: u8)
    requires rx != tx && tx.Length == DATA_BUF_SIZE && cfg.Valid() && txLen <= DATA_BUF_SIZE
    requires at + 8 + Width(k) <= rx.Length && StateOf(cfg, tx, txLen, received) == st && Core0Ok(st)
    modifies tx, cfg
    ensures cfg.Valid() && newLen <= DATA_BUF_SIZE && next == at + w.size(k)
    ensures StateOf(cfg, tx, newLen, newReceived) == Apply(st, MsgAt(w, old(rx[..]), at, k))
  {
    next := at + w.size(k);
    var m := MsgAt(w, rx[..], at, k);
    newLen, newReceived := Handle(m, cfg, tx, txLen, received);
  }

  /**
   * The while loop of process_received_buffer (core0.c:82-198) with the
   * counters and tx_buf_len it updates. Returns where an unknown type
   * stopped it, if one did.
   */
  method Walk(w: Wire, rx: array<u8>, tx: array<u8>, cfg: Config, count: u8)
    returns (txLen: nat, received: u8, unknownAt: Option<nat>)
    requires WireOk(w) && tx.Length == DATA_BUF_SIZE && rx != tx
    requires cfg.Valid() && Terminated(w, rx[..], 0)
    modifies tx, cfg
    ensures cfg.Valid()
    ensures StateOf(cfg, tx, txLen, received) == Run(w, rx[..], 0, old(StateOf(cfg, tx, 0, count)))
    ensures unknownAt.Some? ==> unknownAt.value + 4 <= rx.Length
  {
    ghost var buf := rx[..];
    ghost var st := StateOf(cfg, tx, 0, count);
    ghost var goal := Run(w, buf, 0, st);
    TerminatedRoom(w, buf, 0);
    var at: nat := 0;
    txLen, received := 0, count;
    while LeWord32(rx[at..]) != 0
      invariant cfg.Valid() && txLen <= DATA_BUF_SIZE
      invariant rx[..] == buf && StateOf(cfg, tx, txLen, received) == st
      invariant at + 4 <= |buf| && StopOf(w, buf, at) != Overrun
      invariant Core0Ok(st) && Run(w, buf, at, st) == goal
      decreases rx.Length - at
    {
      var k := KindOf(w, LeWord32(rx[at..]));
      if k.None? {
        WalkStop(w, buf, at, st, goal);
        txLen := 0;
        return txLen, received, Some(at);
      }
      WalkTurn(w, buf, at, st, k.value, goal);
      ghost var at0, st0 := at, st;
      at, txLen, received := Turn(w, rx, tx, cfg, at, k.value, txLen, received, st);
      st := Apply(st0, MsgAt(w, buf, at0, k.value));
      WalkedTo(w, buf, at0, st0, k.value, goal, at, st);
    }
    WalkStop(w, buf, at, st, goal);
    unknownAt := None;
  }

  /**
   * process_received_buffer (core0.c:75-202). Returns tx_buf_len and the
   * new value of *received_count. The final state is the walk of the
   * received bytes; an unknown type word is overwritten with 0, which ends
   * the walk, and then all of rx_buf is zeroed.
   */
  method ProcessReceivedBuffer(w: Wire, rx: array<u8>, tx: array<u8>, cfg: Config, count: u8)
    returns (txLen: nat, received: u8)
    requires WireOk(w) && rx.Length == DATA_BUF_SIZE && tx.Length == DATA_BUF_SIZE && rx != tx
    requires cfg.Valid() && Terminated(w, rx[..], 0)
    modifies rx, tx, cfg
    ensures cfg.Valid()
    ensures StateOf(cfg, tx, txLen, received) == Run(w, old(rx[..]), 0, old(StateOf(cfg, tx, 0, count)))
    ensures forall i :: 0 <= i < rx.Length ==> rx[i] == 0
  {
    var unknownAt;
    txLen, received, unknownAt := Walk(w, rx, tx, cfg, count);
    if unknownAt.Some? {
      var at := unknownAt.value;
      rx[at], rx[at + 1], rx[at + 2], rx[at + 3] := 0, 0, 0, 0;
    }
    forall i | 0 <= i < DATA_BUF_SIZE {
      rx[i] := 0;
    }
  }
}

/** What the walk of process_received_buffer does, in terms of the decoded message list. */
module RpCore0Props {
  import opened Wrappers
  import opened CInt
  import opened RpConfig
  import Checksum
  import opened RpConfigProps
  import opened RpCore0

  /** Every handled message increments *received_count once, mod 256. */
  lemma {:induction false} ApplyAllCounts(s: Core0, ms: seq<Msg>)
    requires Core0Ok(s) && AllOk(ms)
    ensures ApplyAll(s, ms).count == U8(s.count + |ms|)
    decreases |ms|
  {
    if ms != [] {
      ApplyAllCounts(Apply(s, ms[0]), ms[1..]);
      ModAddBoth(s.count + 1, |ms| - 1, 0x100);
    }
  }

  /** No message of a list is a timing message. */
  predicate NoTiming(ms: seq<Msg>)
  {
    ms == [] || (ms[0].kind != Timing && NoTiming(ms[1..]))
  }

  /** Set-messages alone leave the metrics and tx_buf as they were. */
  lemma {:induction false} ApplyAllSetsKeepTx(s: Core0, ms: seq<Msg>)
    requires Core0Ok(s) && AllOk(ms) && NoTiming(ms)
    ensures ApplyAll(s, ms).tx == s.tx && ApplyAll(s, ms).txLen == s.txLen
    ensures ApplyAll(s, ms).lastUpdateId == s.lastUpdateId && ApplyAll(s, ms).lastUpdateTime == s.lastUpdateTime
    decreases |ms|
  {
    if ms != [] {
      ApplyAllSetsKeepTx(Apply(s, ms[0]), ms[1..]);
    }
  }

  /** *received_count grows by the number of recognised messages (mod 256). */
  lemma ReceivedCountsMessages(w: Wire, buf: seq<u8>, s: Core0)
    requires WireOk(w) && Core0Ok(s)
    ensures Run(w, buf, 0, s).count == U8(s.count + |Decode(w, buf, 0).msgs|)
  {
    ApplyAllCounts(s, Decode(w, buf, 0).msgs);
  }

  /** A walk that stops at an unknown type returns tx_buf_len 0. */
  lemma UnknownTypeDropsReplies(w: Wire, buf: seq<u8>, s: Core0)
    requires WireOk(w) && Core0Ok(s)
    ensures Decode(w, buf, 0).stop == AtUnknown ==> Run(w, buf, 0, s).txLen == 0
    ensures Decode(w, buf, 0).stop != AtUnknown && NoTiming(Decode(w, buf, 0).msgs)
      ==> Run(w, buf, 0, s).txLen == s.txLen
  {
    if Decode(w, buf, 0).stop != AtUnknown && NoTiming(Decode(w, buf, 0).msgs) {
      ApplyAllSetsKeepTx(s, Decode(w, buf, 0).msgs);
    }
  }

  /**
   * A set-message names exactly one field. On a valid axis (the uint32_t
   * axis reduced to uint8_t) that field reads back as the message's value,
   * every other field and every other axis is unchanged, and core 0's
   * counter moves; an invalid axis changes no axis. Only the counter moves
   * besides.
   */
  lemma SetMessageWritesOneField(s: Core0, m: Msg, want: set<Field>)
    requires Core0Ok(s) && MsgOk(m) && m.kind != Timing
    ensures NamesExactly(UpdateOf(m), {FieldOf(m.kind)})
    ensures var a := U8(m.first);
      a < MAX_AXIS ==>
        && ReadFields(Apply(s, m).axes[a], {FieldOf(m.kind)}) == UpdateOf(m)
        && (FieldOf(m.kind) !in want ==> ReadFields(Apply(s, m).axes[a], want) == ReadFields(s.axes[a], want))
        && Apply(s, m).axes[a].updatedFromC0 == U8(s.axes[a].updatedFromC0 + 1)
        && Apply(s, m).axes[a].updatedFromC1 == s.axes[a].updatedFromC1
    ensures forall j :: 0 <= j < MAX_AXIS && j != U8(m.first) ==> Apply(s, m).axes[j] == s.axes[j]
    ensures Apply(s, m).(axes := s.axes, count := s.count) == s
    ensures Apply(s, m).count == U8(s.count + 1)
  {
    var a := U8(m.first);
    if a < MAX_AXIS {
      UpdateThenReadWritten(s.axes[a], CORE0, UpdateOf(m), {FieldOf(m.kind)});
      if FieldOf(m.kind) !in want {
        UpdateKeepsOthers(s.axes[a], CORE0, UpdateOf(m), want);
      }
    }
  }

  /** The four little-endian words of a Reply_metrics. */
  lemma MetricsWords(updateId: u32, timeDiff: i32, period: u32)
    ensures var bs := MetricsBytes(updateId, timeDiff, period);
      && LeWord32(bs) == REPLY_METRICS && LeWord32(bs[4..]) == updateId
      && I32(LeWord32(bs[8..])) == timeDiff && LeWord32(bs[12..]) == period
  {
    var bs := MetricsBytes(updateId, timeDiff, period);
    assert bs[..4] == LeBytes32(REPLY_METRICS);
    assert bs[4..][..4] == LeBytes32(updateId);
    assert bs[8..][..4] == LeBytes32(U32(timeDiff));
    assert bs[12..][..4] == LeBytes32(period);
  }

  /** The words of a Reply_metrics written into a buffer at `at`. */
  lemma MetricsWordsAt(tx: seq<u8>, at: nat, bs: seq<u8>)
    requires |bs| == METRICS_SIZE && at + METRICS_SIZE <= |tx| && tx[at..at + METRICS_SIZE] == bs
    ensures LeWord32(tx[at..]) == LeWord32(bs) && LeWord32(tx[at + 4..]) == LeWord32(bs[4..])
    ensures LeWord32(tx[at + 8..]) == LeWord32(bs[8..]) && LeWord32(tx[at + 12..]) == LeWord32(bs[12..])
  {
    forall i | 0 <= i < METRICS_SIZE
      ensures tx[at + i] == bs[i]
    {
      assert tx[at..at + METRICS_SIZE][i] == tx[at + i];
    }
  }

  /**
   * A timing message records its update_id and time as the last seen, and
   * keeps the axes and the period; the reply, if it fits, goes after the
   * bytes already queued.
   */
  lemma TimingMessageRecords(s: Core0, m: Msg)
    requires Core0Ok(s) && MsgOk(m) && m.kind == Timing
    ensures Apply(s, m).lastUpdateId == m.first && Apply(s, m).lastUpdateTime == LeWord32(m.value)
    ensures Apply(s, m).tx[..s.txLen] == s.tx[..s.txLen]
    ensures s.txLen + METRICS_SIZE + 4 > DATA_BUF_SIZE ==> Apply(s, m).tx == s.tx && Apply(s, m).txLen == s.txLen
  {
  }

  /**
   * When the reply and a terminator fit, a timing message queues a
   * Reply_metrics at the old tx_buf_len whose words are REPLY_METRICS, the
   * update_id, the wrapped time difference and the period; bytes after it
   * are kept.
   */
  lemma TimingMessageReplies(s: Core0, m: Msg)
    requires Core0Ok(s) && MsgOk(m) && m.kind == Timing
    requires s.txLen + METRICS_SIZE + 4 <= DATA_BUF_SIZE
    ensures Apply(s, m).txLen == s.txLen + METRICS_SIZE
    ensures LeWord32(Apply(s, m).tx[s.txLen..]) == REPLY_METRICS
    ensures LeWord32(Apply(s, m).tx[s.txLen + 4..]) == m.first
    ensures I32(LeWord32(Apply(s, m).tx[s.txLen + 8..])) == WrappedDiff(LeWord32(m.value), s.lastUpdateTime)
    ensures LeWord32(Apply(s, m).tx[s.txLen + 12..]) == s.updateTimeUs
    ensures Apply(s, m).tx[s.txLen + METRICS_SIZE..] == s.tx[s.txLen + METRICS_SIZE..]
  {
    var r := Apply(s, m);
    var bs := MetricsBytes(m.first, WrappedDiff(LeWord32(m.value), s.lastUpdateTime), s.updateTimeUs);
    assert r.tx == s.tx[..s.txLen] + bs + s.tx[s.txLen + METRICS_SIZE..];
    assert r.tx[s.txLen..s.txLen + METRICS_SIZE] == bs;
    MetricsWords(m.first, WrappedDiff(LeWord32(m.value), s.lastUpdateTime), s.updateTimeUs);
    MetricsWordsAt(r.tx, s.txLen, bs);
  }
}
