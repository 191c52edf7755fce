/**
 * The spindle-inverter (VFD) status record that every MODBUS driver of the
 * firmware keeps (struct vfd_status, src/rp2040/modbus.h:29-54 and
 * src/rp2040/modbus.c:96-112), the cycle-counter arithmetic that decides
 * when a reading is due or stale, and what a driver loop reports.
 */
module ModbusVfd {
  import opened CInt

  /** vfd.stats of the newer drivers: counters of replies that were not
   *  understood, failed the CRC or never came, and the freshness flags of
   *  the last loop. */
  datatype Stats = Stats(unknown: nat, crcErrors: nat, unanswered: nat,
                         gotStatus: bool, gotSetFrequency: bool, gotActFrequency: bool)

  /**
   * struct vfd_status. setFreq, actFreq and reqFreq are the union members
   * set_freq_x100/act_freq_x100/req_freq_x100 (Huanyang, hundredths of a
   * hertz) and set_freq_x10/act_freq_x10/req_freq_x10 (Fuling, Weiken,
   * tenths of a hertz), which share storage.
   */
  datatype Vfd = Vfd(
    cycle: u32,
    lastStatusUpdate: u32,
    lastSetFreqUpdate: u32,
    lastActFreqUpdate: u32,
    setFreq: i16,
    actFreq: i16,
    reqFreq: i16,
    ampsX10: u16,
    rpm: u16,
    statusRun: bool,
    statusReverse: bool,
    statusRunning: bool,
    spindleAtSpeed: bool,
    commandRun: bool,
    commandReverse: bool,
    stats: Stats)

  /** Cycles between two polls of the same value. */
  const REFRESH_DELAY: nat := 1000
  /** Cycles after which a value counts as lost. */
  const FRESHNESS_LIMIT: nat := 10000

  /** vfd.cycle - last as uint32_t: the age of a reading, wrapping. */
  function Age(v: Vfd, last: u32): u32
  {
    U32(v.cycle - last)
  }

  predicate Due(v: Vfd, last: u32)
  {
    Age(v, last) > REFRESH_DELAY
  }

  predicate Fresh(v: Vfd, last: u32)
  {
    Age(v, last) < FRESHNESS_LIMIT
  }

  /** All three readings arrived within the freshness limit. */
  predicate AllFresh(v: Vfd)
  {
    Fresh(v, v.lastStatusUpdate) && Fresh(v, v.lastSetFreqUpdate) && Fresh(v, v.lastActFreqUpdate)
  }

  /**
   * The float argument of the loop functions, as much of it as they use:
   * whether it is non-zero, whether it is negative, and its product with
   * the unit scale converted to int16_t. The float product and conversion
   * are not modelled.
   */
  datatype Frequency = Frequency(nonZero: bool, negative: bool, scaled: i16)

  /** abs((int16_t)(frequency * scale)) stored back into an int16_t: abs of
   *  -32768 is 32768, which wraps to -32768. */
  function Requested(f: Frequency): (r: i16)
    ensures f.scaled > -0x8000 ==> r == Abs(f.scaled)
    ensures f.scaled == -0x8000 ==> r == -0x8000
  {
    I16(Abs(f.scaled))
  }

  /** What a loop returns: MODBUS_RESULT_NOT_CONFIGURED, MODBUS_RESULT_NOT_READY,
   *  0, or the signed actual frequency (the float quotient by the unit
   *  scale is left as the raw reading and its sign). */
  datatype LoopResult = NotConfigured | NotReady | Stopped | Running(reverse: bool, rawFreq: int)

  /** The tail of the Huanyang and Fuling loops: not ready unless all three
   *  readings are fresh; 0 unless the spindle runs; else the signed
   *  actual frequency. */
  function Report(v: Vfd, current: bool): (r: LoopResult)
    ensures r != NotReady <==> current
    ensures r.Running? ==> r.reverse == v.statusReverse && r.rawFreq == v.actFreq
  {
    if !current then NotReady
    else if !v.statusRunning then Stopped
    else Running(v.statusReverse, v.actFreq)
  }

  /** The freshness flags the newer loops store before reporting. */
  function WithFreshness(v: Vfd, actFromSet: bool): (r: Vfd)
    ensures r.stats.gotStatus == Fresh(v, v.lastStatusUpdate)
    ensures r.stats.gotSetFrequency == Fresh(v, v.lastSetFreqUpdate)
    ensures r.stats.gotActFrequency == Fresh(v, if actFromSet then v.lastSetFreqUpdate else v.lastActFreqUpdate)
    ensures r.(stats := v.stats) == v
  {
    var got := Fresh(v, v.lastSetFreqUpdate);
    v.(stats := v.stats.(gotStatus := Fresh(v, v.lastStatusUpdate),
                         gotSetFrequency := got,
                         gotActFrequency := if actFromSet then got else Fresh(v, v.lastActFreqUpdate)))
  }

  predicate GotAll(v: Vfd)
  {
    v.stats.gotStatus && v.stats.gotSetFrequency && v.stats.gotActFrequency
  }
}

/**
 * src/rp2040/modbus.c: the MODBUS RTU port on uart1 and the Huanyang
 * protocol on top of it. The request builders lay a frame into
 * modbus_command, modbus_transmit appends the CRC, the receive routine
 * checks the CRC of a reply and decodes it into the vfd record, and
 * modbus_loop, called once per cycle, polls stale readings first and
 * writes the requested frequency and run state when they differ from the
 * inverter's. The globals of the port are the fields of a ModbusPort; the
 * newer drivers (ModbusHuanyang, ModbusFuling, ModbusWeiken) use the same
 * object.
 */
module ModbusRtu {
  import opened CInt
  import opened ModbusCrc
  import opened ModbusVfd

  /** modbus_command holds 16 bytes in modbus.c and 128 in the newer
   *  drivers (modbus.h:13); its length is a uint8_t. */
  const OLD_COMMAND_SIZE: nat := 16
  const MAX_COMMAND_SIZE: nat := 128

  /** Huanyang control codes (modbus.c:74-85). */
  const CONTROL_FORWARD: byte := 1
  const CONTROL_REVERSE: byte := 17
  const CONTROL_STOP: byte := 8

  /** huanyang_setfreq: function 5 with two data bytes, the frequency high
   *  byte first (hertz_x100 >> 8 truncated to uint8_t, then & 0xFF). */
  function SetFreqFrame(address: byte, hz: u32): (f: seq<byte>)
    ensures |f| == 5
  {
    [address, 5, 2, B((hz / 256) % 256), B(hz % 256)]
  }

  /** huanyang_read_status: function 4 with one data byte, the status type. */
  function ReadStatusFrame(address: byte, status: byte): (f: seq<byte>)
    ensures |f| == 4
  {
    [address, 4, 1, status]
  }

  /** huanyang_control: function 3 with one data byte, the control code. */
  function ControlFrame(address: byte, control: byte): (f: seq<byte>)
    ensures |f| == 4
  {
    [address, 3, 1, control]
  }

  /** The request a Huanyang loop sends in one cycle, if any. */
  datatype Request = PollControl | ReadStatus(status: byte) | SetFreq(hz: u32) | Control(control: byte) | Idle

  /**
   * The priority of the Huanyang loops (modbus.c:217-242,
   * modbus_huanyang.c:132-159): re-send the last control word when the
   * status is due, read the set frequency (status 0) and then the actual
   * frequency (status 1) when due; otherwise write the requested
   * frequency if it differs from the set one, then fix a run or direction
   * mismatch, stopping only a spindle that runs but should not.
   */
  function HuanyangChoice(v: Vfd): (r: Request)
    ensures r.SetFreq? ==> r.hz == U32(v.reqFreq) && v.reqFreq != v.setFreq
    ensures r.ReadStatus? ==> r.status == 0 || r.status == 1
    ensures r.Control? ==> r.control == CONTROL_STOP || r.control == CONTROL_REVERSE || r.control == CONTROL_FORWARD
  {
    if Due(v, v.lastStatusUpdate) then PollControl
    else if Due(v, v.lastSetFreqUpdate) then ReadStatus(0)
    else if Due(v, v.lastActFreqUpdate) then ReadStatus(1)
    else if v.reqFreq != v.setFreq then SetFreq(U32(v.reqFreq))
    else if v.commandRun != v.statusRun || v.commandReverse != v.statusReverse then
      if v.statusRun && !v.commandRun then Control(CONTROL_STOP)
      else if v.commandReverse then Control(CONTROL_REVERSE)
      else Control(CONTROL_FORWARD)
    else Idle
  }

  /** The frame a request lays into modbus_command; PollControl re-sends
   *  the last control code. */
  function RequestFrame(address: byte, lastControl: byte, r: Request): (f: seq<byte>)
    requires r != Idle
    ensures 4 <= |f| <= 5
  {
    match r
    case PollControl => ControlFrame(address, lastControl)
    case ReadStatus(s) => ReadStatusFrame(address, s)
    case SetFreq(hz) => SetFreqFrame(address, hz)
    case Control(c) => ControlFrame(address, c)
  }

  /** modbus_last_control after a request. */
  function NextControl(lastControl: byte, r: Request): byte
  {
    if r.Control? then r.control else lastControl
  }

  /** The two data bytes b[i], b[i+1] read high byte first. */
  function BigEndian(hi: byte, lo: byte): (n: nat)
    ensures n < 0x1_0000
  {
    N(hi) * 256 + N(lo)
  }

  /** A 16-bit value split into its high and low bytes reads back. */
  lemma Split(value: u16)
    ensures BigEndian(B(value / 256), B(value % 256)) == value
  {
    ByteBack(value / 256);
    ByteBack(value % 256);
  }

  /** How a receive call ended: nothing read, a CRC mismatch, or a decoded
   *  reply (with whether its function code and type were recognised). */
  datatype Outcome = NoReply | CrcError | Decoded(vfd: Vfd, recognised: bool)

  /**
   * The switch of the Huanyang receive routines on a reply whose CRC
   * matched (modbus.c:143-185, modbus_huanyang.c:70-114). cmd is the whole
   * command buffer: bytes past the reply are whatever was left there.
   */
  function HuanyangReply(v: Vfd, cmd: seq<byte>, len: nat): (r: (Vfd, bool))
    requires 6 <= |cmd| && len <= |cmd|
    ensures Keeps(v, r.0) && (!r.1 ==> r.0 == v)
  {
    if cmd[1] == 3 then (StatusBits(v, cmd[3]), true)
    else if cmd[1] == 4 then
      if len < 6 then (v, true) else StatusValue(v, cmd[3], BigEndian(cmd[4], cmd[5]))
    else if cmd[1] == 5 then
      if len < 6 then (v, true)
      else (v.(lastSetFreqUpdate := v.cycle, setFreq := I16(BigEndian(cmd[3], cmd[4]))), true)
    else (v, false)
  }

  /** A reply changes only readings: never the cycle counter, the request
   *  or the counters. */
  predicate Keeps(v: Vfd, v': Vfd)
  {
    && v'.cycle == v.cycle && v'.reqFreq == v.reqFreq && v'.stats == v.stats
    && v'.commandRun == v.commandRun && v'.commandReverse == v.commandReverse
  }

  /** A function-3 reply: bits 0, 2 and 3 of its data byte are run,
   *  reverse and running. */
  function StatusBits(v: Vfd, bits: byte): (r: Vfd)
    ensures Keeps(v, r) && r.lastStatusUpdate == v.cycle
  {
    v.(lastStatusUpdate := v.cycle,
       statusRun := bits & 0x01 != 0,
       statusReverse := bits & 0x04 != 0,
       statusRunning := bits & 0x08 != 0)
  }

  /** A function-4 reply: the value of status type 0 (set frequency),
   *  1 (actual frequency), 2 (current) or 3 (speed); other types are not
   *  recognised. */
  function StatusValue(v: Vfd, kind: byte, value: u16): (r: (Vfd, bool))
    ensures Keeps(v, r.0) && (!r.1 ==> r.0 == v)
  {
    if kind == 0 then (v.(lastSetFreqUpdate := v.cycle, setFreq := I16(value)), true)
    else if kind == 1 then (v.(lastActFreqUpdate := v.cycle, actFreq := I16(value)), true)
    else if kind == 2 then (v.(ampsX10 := value), true)
    else if kind == 3 then (v.(rpm := value), true)
    else (v, false)
  }

  /** A state word of the Fuling and Weiken inverters: 1 runs forward,
   *  2 runs in reverse, anything else is stopped. */
  function RunState(v: Vfd, state: byte): (r: Vfd)
    ensures Keeps(v, r) && r.lastStatusUpdate == v.cycle
    ensures r.statusRun == r.statusRunning == (state == 1 || state == 2)
    ensures r.statusReverse == (state == 2)
  {
    var run := state == 1 || state == 2;
    v.(lastStatusUpdate := v.cycle, statusRun := run, statusReverse := state == 2, statusRunning := run)
  }

  /** How a receive routine ends on len reply bytes at the head of cmd,
   *  given what its switch makes of a reply whose CRC matched. */
  function Received(cmd: seq<byte>, len: nat, decoded: (Vfd, bool)): (o: Outcome)
    requires len <= |cmd| && len != 1
    ensures o == NoReply <==> len == 0
    ensures o == CrcError <==> len > 0 && !CrcMatches(cmd, len)
  {
    if len == 0 then NoReply
    else if !CrcMatches(cmd, len) then CrcError
    else Decoded(decoded.0, decoded.1)
  }

  /** A Huanyang receive on len reply bytes at the head of cmd. */
  function HuanyangOutcome(v: Vfd, cmd: seq<byte>, len: nat): (o: Outcome)
    requires 6 <= |cmd| && len <= |cmd| && len != 1
    ensures o == NoReply <==> len == 0
    ensures o == CrcError <==> len > 0 && !CrcMatches(cmd, len)
    ensures o.Decoded? ==> Keeps(v, o.vfd) && (!o.recognised ==> o.vfd == v)
  {
    Received(cmd, len, HuanyangReply(v, cmd, len))
  }

  /**
   * The vfd record after an outcome in the newer drivers, which count
   * what went wrong: a missing reply to an outstanding request, a CRC
   * error, or a reply the switch did not recognise.
   */
  function Counted(v: Vfd, o: Outcome, outstanding: bool): (r: Vfd)
    ensures o.NoReply? ==> r == if outstanding then v.(stats := v.stats.(unanswered := v.stats.unanswered + 1)) else v
    ensures o.CrcError? ==> r == v.(stats := v.stats.(crcErrors := v.stats.crcErrors + 1))
    ensures o.Decoded? && o.recognised ==> r == o.vfd
    ensures o.Decoded? && !o.recognised ==> r == o.vfd.(stats := o.vfd.stats.(unknown := o.vfd.stats.unknown + 1))
  {
    match o
    case NoReply => if outstanding then v.(stats := v.stats.(unanswered := v.stats.unanswered + 1)) else v
    case CrcError => v.(stats := v.stats.(crcErrors := v.stats.crcErrors + 1))
    case Decoded(v', ok) => if ok then v' else v'.(stats := v'.stats.(unknown := v'.stats.unknown + 1))
  }

  /** A register access of the Fuling and Weiken drivers: Read Holding
   *  Registers (function 3) or Write Single Register (function 6) of the
   *  MODBUS Application Protocol Specification V1.1b3, sections 6.3 and
   *  6.6. */
  datatype Access = ReadHolding(reg: u16, count: u16) | WriteHolding(reg: u16, value: int) | NoAccess

  /** The frame of an access: address, function code, then two 16-bit
   *  fields high byte first; a written value is cut to 16 bits. */
  function AccessFrame(address: byte, a: Access): (f: seq<byte>)
    requires a != NoAccess
    ensures |f| == 6 && f[0] == address
  {
    match a
    case ReadHolding(reg, count) => [address, 3, B(reg / 256), B(reg % 256), B(count / 256), B(count % 256)]
    case WriteHolding(reg, value) => [address, 6, B(reg / 256), B(reg % 256), B(U16(value) / 256), B(U16(value) % 256)]
  }

  /** The vfd record after an outcome in modbus.c, which keeps no counters. */
  function Plain(v: Vfd, o: Outcome): Vfd
  {
    if o.Decoded? then o.vfd else v
  }

  /** How many bytes modbus.c reads from the UART: all that are there, up
   *  to the 16 its command buffer holds (the rest are drained). */
  function UartLen(reply: seq<byte>): (n: nat)
    ensures n <= OLD_COMMAND_SIZE && n <= |reply|
  {
    if |reply| < OLD_COMMAND_SIZE then |reply| else OLD_COMMAND_SIZE
  }

  /** The command buffer after n reply bytes are read into its head. */
  function Arrived(cmd: seq<byte>, reply: seq<byte>, n: nat): (r: seq<byte>)
    requires n <= |cmd| && n <= |reply|
    ensures |r| == |cmd| && r[..n] == reply[..n] && r[n..] == cmd[n..]
  {
    reply[..n] + cmd[n..]
  }

  /** The start of the modbus loops: one more cycle, and the request taken
   *  from the frequency argument (modbus.c:201-204). */
  function Tick(v: Vfd, f: Frequency): (r: Vfd)
    ensures r.cycle == U32(v.cycle + 1) && r.reqFreq == Requested(f)
    ensures r.commandRun == f.nonZero && r.commandReverse == f.negative
  {
    v.(cycle := U32(v.cycle + 1), commandRun := f.nonZero, commandReverse := f.negative,
       reqFreq := Requested(f))
  }

  /** The vfd record as modbus_init leaves it (modbus.c:120-122) over a
   *  zero-initialised global. */
  function InitialVfd(): Vfd
  {
    Vfd(10000, 0, 0, 0, 0, 0, 0, 0, 0, false, false, false, false, false, false,
        Stats(0, 0, 0, false, false, false))
  }

  /** The globals of the MODBUS port. */
  class ModbusPort {
    /** crc16_table. */
    const table: array<bv16>
    /** modbus_command. */
    const command: array<byte>
    /** modbus_address (vfd_config.address in the newer drivers). */
    var address: byte
    /** modbus_bitrate and modbus_cur_bitrate. */
    var bitrate: u16
    var curBitrate: u16
    /** modbus_length. */
    var length: nat
    /** modbus_pause: cycles still to wait after a transmission. */
    var pause: int
    /** modbus_last_control. */
    var lastControl: byte
    /** modbus_outstanding: a request awaits its reply. */
    var outstanding: bool
    var vfd: Vfd

    /** The request frame and its CRC were sent from the head of the
     *  command buffer, whose tail is as it was in before. */
    ghost predicate Sent(frame: seq<byte>, before: seq<byte>)
      reads this, command
    {
      && |before| == command.Length && length == |frame| + 2 <= command.Length
      && command[..length] == WithCrc(frame) && command[length..] == before[length..] && pause == 50
    }

    ghost predicate Valid()
      reads this, table
    {
      TableOk(table) && OLD_COMMAND_SIZE <= command.Length <= MAX_COMMAND_SIZE && length <= command.Length
    }

    /** The zero-initialised globals after modbus_init (modbus.c:114-124),
     *  with the address and bit rate the configuration sets; the UART and
     *  pin setup are not modelled. */
    constructor (size: nat, address: byte, bitrate: u16)
      requires OLD_COMMAND_SIZE <= size <= MAX_COMMAND_SIZE
      ensures Valid() && fresh(table) && fresh(command) && command.Length == size
      ensures this.address == address && this.bitrate == bitrate && curBitrate == bitrate
      ensures length == 0 && pause == 0 && lastControl == 0 && !outstanding
      ensures vfd == InitialVfd()
    {
      table := new bv16[256];
      command := new byte[size];
      this.address := address;
      this.bitrate := bitrate;
      curBitrate := bitrate;
      length, pause, lastControl, outstanding := 0, 0, 0, false;
      vfd := InitialVfd();
      new;
      PrecomputeCrc16(table);
    }

    /** Lays a request frame into the head of modbus_command. */
    method Lay(frame: seq<byte>)
      requires Valid() && |frame| + 2 <= command.Length
      modifies command, this`length, this`pause
      ensures Valid()
      ensures command[..|frame|] == frame && command[|frame|..] == old(command[|frame|..])
      ensures length == |frame| && pause == 50
    {
      forall i | 0 <= i < |frame| {
        command[i] := frame[i];
      }
      pause := 50;
      length := |frame|;
    }

    /** huanyang_setfreq (modbus.c:41-49, modbus_huanyang.c:14-22). */
    method HuanyangSetFreq(hertzX100: u32)
      requires Valid()
      modifies command, this`length, this`pause
      ensures Valid() && length == 5 && pause == 50
      ensures command[..5] == SetFreqFrame(address, hertzX100) && command[5..] == old(command[5..])
    {
      Lay(SetFreqFrame(address, hertzX100));
    }

    /** huanyang_read_status (modbus.c:51-58, modbus_huanyang.c:24-31). */
    method HuanyangReadStatus(status: byte)
      requires Valid()
      modifies command, this`length, this`pause
      ensures Valid() && length == 4 && pause == 50
      ensures command[..4] == ReadStatusFrame(address, status) && command[4..] == old(command[4..])
    {
      Lay(ReadStatusFrame(address, status));
    }

    /** huanyang_control (modbus.c:60-68, modbus_huanyang.c:33-41): the
     *  control code is also remembered as the last one. */
    method HuanyangControl(control: byte)
      requires Valid()
      modifies command, this`length, this`pause, this`lastControl
      ensures Valid() && length == 4 && pause == 50 && lastControl == control
      ensures command[..4] == ControlFrame(address, control) && command[4..] == old(command[4..])
    {
      Lay(ControlFrame(address, control));
      lastControl := control;
    }

    /** huanyang_poll_control_status: re-sends the last control code. */
    method HuanyangPollControlStatus()
      requires Valid()
      modifies command, this`length, this`pause, this`lastControl
      ensures Valid() && length == 4 && pause == 50 && lastControl == old(lastControl)
      ensures command[..4] == ControlFrame(address, old(lastControl)) && command[4..] == old(command[4..])
    {
      HuanyangControl(lastControl);
    }

    /** modbus_transmit (modbus.c:87-94): appends the CRC of the frame, low
     *  byte first; writing to the UART is not modelled. */
    method Transmit()
      requires Valid() && length + 2 <= command.Length
      modifies command, this`length
      ensures Valid() && length == old(length) + 2
      ensures command[..length] == WithCrc(old(command[..length]))
      ensures command[length..] == old(command[..])[length..]
    {
      var crc16 := ModbusCrc16(table, command, length);
      ghost var body := command[..length];
      command[length] := Lo(crc16);
      command[length + 1] := Hi(crc16);
      length := length + 2;
      assert command[..length] == body + [Lo(crc16), Hi(crc16)];
    }

    /** Builds and sends one request of the Huanyang loops. */
    method SendHuanyang(r: Request)
      requires Valid() && r != Idle && command.Length >= OLD_COMMAND_SIZE
      modifies command, this`length, this`pause, this`lastControl
      ensures Valid() && pause == 50 && lastControl == NextControl(old(lastControl), r)
      ensures var f := RequestFrame(address, old(lastControl), r);
        && length == |f| + 2 && command[..length] == WithCrc(f) && command[length..] == old(command[..])[length..]
    {
      if r.PollControl? {
        HuanyangPollControlStatus();
      } else if r.ReadStatus? {
        HuanyangReadStatus(r.status);
      } else if r.SetFreq? {
        HuanyangSetFreq(r.hz);
      } else {
        HuanyangControl(r.control);
      }
      ghost var f := command[..length];
      Transmit();
      assert command[..length - 2] == f;
    }

    /** modbus_get_data, which the newer receive routines call: the bytes
     *  that arrived are copied to the head of the command buffer and
     *  counted. The UART reads are not modelled. */
    method GetData(reply: seq<byte>) returns (len: nat)
      requires Valid() && |reply| <= command.Length
      modifies command
      ensures Valid() && len == |reply| && command[..] == Arrived(old(command[..]), reply, len)
    {
      len := |reply|;
      forall i | 0 <= i < len {
        command[i] := reply[i];
      }
      assert command[..] == Arrived(old(command[..]), reply, len);
    }

    /** The head of every newer receive routine: fetch the reply and compare
     *  the CRC of its body with its last two bytes. A reply of one byte
     *  would make the CRC run over 255 bytes, past the buffer, so it is
     *  excluded. */
    method CheckReply(reply: seq<byte>) returns (len: nat, ok: bool)
      requires Valid() && |reply| <= command.Length && |reply| != 1
      modifies command
      ensures Valid() && len == |reply| && command[..] == Arrived(old(command[..]), reply, len)
      ensures ok <==> len > 0 && CrcMatches(command[..], len)
    {
      len := GetData(reply);
      ok := false;
      if len > 0 {
        var crc16 := ModbusCrc16(table, command, len - 2);
        ok := crc16 == Word(command[len - 2], command[len - 1]);
      }
    }

    /** modbus_read_holding_registers or modbus_write_holding_register,
     *  then modbus_transmit. */
    method SendAccess(a: Access)
      requires Valid() && a != NoAccess
      modifies command, this`length, this`pause
      ensures Valid() && pause == 50 && length == 8
      ensures command[..8] == WithCrc(AccessFrame(address, a)) && command[8..] == old(command[8..])
    {
      Lay(AccessFrame(address, a));
      Transmit();
    }

    /**
     * modbus_huanyang_receive of modbus.c (modbus.c:129-190): the bytes the
     * UART holds are read into the command buffer, at most 16; a reply
     * whose CRC matches is decoded into vfd. A single byte would make the
     * CRC run over 255 bytes of a 16-byte buffer, so it is excluded.
     */
    method UartHuanyangReceive(reply: seq<byte>)
      requires Valid() && command.Length == OLD_COMMAND_SIZE && |reply| != 1
      modifies command, this`vfd
      ensures Valid()
      ensures command[..] == Arrived(old(command[..]), reply, UartLen(reply))
      ensures vfd == Plain(old(vfd), HuanyangOutcome(old(vfd), command[..], UartLen(reply)))
    {
      var len := UartLen(reply);
      forall i | 0 <= i < len {
        command[i] := reply[i];
      }
      assert command[..] == Arrived(old(command[..]), reply, len);
      if len == 0 {
        return;
      }
      var crc16 := ModbusCrc16(table, command, len - 2);
      if crc16 == Word(command[len - 2], command[len - 1]) {
        vfd := HuanyangReply(vfd, command[..], len).0;
      }
    }

    /**
     * modbus_loop (modbus.c:192-253). Returns NotConfigured without a bit
     * rate or an address. Otherwise counts the cycle and takes the request;
     * while a pause is pending it only counts the pause down once the UART
     * is not busy; else it reads the reply and sends the request the
     * priority picks. It reports the spindle's state once all three
     * readings are fresh.
     */
    method Loop(f: Frequency, busy: bool, reply: seq<byte>) returns (r: LoopResult)
      requires Valid() && command.Length == OLD_COMMAND_SIZE && |reply| != 1
      modifies this, command
      ensures Valid() && curBitrate == bitrate
      ensures bitrate == old(bitrate) && address == old(address) && outstanding == old(outstanding)
      ensures bitrate == 0 || address == 0 ==>
        r == NotConfigured && vfd == old(vfd) && pause == old(pause) && length == old(length)
        && lastControl == old(lastControl) && command[..] == old(command[..])
      ensures bitrate != 0 && address != 0 && old(pause) > 0 ==>
        && vfd == Tick(old(vfd), f) && pause == (if busy then old(pause) else old(pause) - 1)
        && length == old(length) && lastControl == old(lastControl) && command[..] == old(command[..])
      ensures bitrate != 0 && address != 0 && old(pause) <= 0 ==>
        var cmd := Arrived(old(command[..]), reply, UartLen(reply));
        && vfd == Plain(Tick(old(vfd), f), HuanyangOutcome(Tick(old(vfd), f), cmd, UartLen(reply)))
        && (HuanyangChoice(vfd) == Idle ==>
              command[..] == cmd && length == old(length) && pause == old(pause)
              && lastControl == old(lastControl))
        && (HuanyangChoice(vfd) != Idle ==>
              var fr := RequestFrame(address, old(lastControl), HuanyangChoice(vfd));
              && length == |fr| + 2 && command[..length] == WithCrc(fr)
              && command[length..] == cmd[length..] && pause == 50
              && lastControl == NextControl(old(lastControl), HuanyangChoice(vfd)))
      ensures bitrate != 0 && address != 0 ==> r == Report(vfd, AllFresh(vfd))
    {
      curBitrate := bitrate;
      if curBitrate == 0 || address == 0 {
        return NotConfigured;
      }
      vfd := Tick(vfd, f);
      if pause > 0 {
        if !busy {
          pause := pause - 1;
        }
      } else {
        UartHuanyangReceive(reply);
        var next := HuanyangChoice(vfd);
        if next != Idle {
          SendHuanyang(next);
        }
      }
      r := Report(vfd, AllFresh(vfd));
    }
  }
}

/** Properties of the modbus.c port: what each reply does to the vfd
 *  record, that the loop converges on the requested frequency, and the
 *  order in which it polls and writes. */
module ModbusRtuProps {
  import opened CInt
  import opened ModbusCrc
  import opened ModbusVfd
  import opened ModbusRtu

  /** The high and low bytes of x, as huanyang_setfreq takes them, make up
   *  x modulo 2^16. */
  lemma Digits(x: nat)
    ensures ((x / 256) % 256) * 256 + x % 256 == x % 0x1_0000
  {
    var q, r := x / 256, x % 256;
    assert q == (q / 256) * 256 + q % 256;
    assert x == q * 256 + r;
    assert x == (q / 256) * 0x1_0000 + ((q % 256) * 256 + r);
    DivModUnique(x, 0x1_0000, q / 256, (q % 256) * 256 + r);
  }

  /** The two bytes a set-frequency frame carries are the frequency modulo
   *  2^16, high byte first. */
  lemma HighLow(x: nat)
    ensures BigEndian(B((x / 256) % 256), B(x % 256)) == x % 0x1_0000
  {
    ByteBack((x / 256) % 256);
    ByteBack(x % 256);
    Digits(x);
  }

  /** A signed frequency widened to uint32_t and cut back to 16 bits comes
   *  back unchanged. */
  lemma WidenNarrow(req: i16)
    ensures I16(U32(req) % 0x1_0000) == req
  {
    if req < 0 {
      DivModUnique(req + 0x1_0000_0000, 0x1_0000, 0xFFFF, req + 0x1_0000);
    }
  }

  /** The set-frequency frame carries the frequency in its data bytes: an
   *  inverter that stores bytes 3 and 4 high byte first gets hertz_x100
   *  back whenever it fits in 16 bits. */
  lemma SetFreqFrameCarries(address: byte, hz: u32)
    ensures var f := SetFreqFrame(address, hz);
      f[0] == address && f[1] == 5 && f[2] == 2 && BigEndian(f[3], f[4]) == hz % 0x1_0000
  {
    HighLow(hz);
  }

  /** The frame of a reply that passed the CRC check has its CRC bytes in
   *  the right place. */
  lemma ReplyChecked(m: seq<byte>, v: Vfd)
    requires |m| >= 4
    ensures |WithCrc(m)| == |m| + 2 && CrcMatches(WithCrc(m), |m| + 2)
    ensures HuanyangOutcome(v, WithCrc(m), |m| + 2) == Decoded(HuanyangReply(v, WithCrc(m), |m| + 2).0, HuanyangReply(v, WithCrc(m), |m| + 2).1)
  {
    WithCrcMatches(m);
  }

  /**
   * An inverter that echoes the set-frequency request (as the Huanyang
   * protocol does) makes the loop record exactly the requested frequency,
   * for every int16_t request, negative ones included: the request goes
   * out as uint32_t and comes back as int16_t.
   */
  lemma EchoSetsFrequency(v: Vfd, address: byte)
    ensures var m := WithCrc(SetFreqFrame(address, U32(v.reqFreq)));
      HuanyangOutcome(v, m, 7) == Decoded(v.(lastSetFreqUpdate := v.cycle, setFreq := v.reqFreq), true)
  {
    var f := SetFreqFrame(address, U32(v.reqFreq));
    var m := WithCrc(f);
    ReplyChecked(f, v);
    assert m[1] == 5 && m[3] == f[3] && m[4] == f[4];
    SetFreqFrameCarries(address, U32(v.reqFreq));
    WidenNarrow(v.reqFreq);
  }

  /** After the echo the loop no longer writes the frequency: the request
   *  has converged. */
  lemma EchoConverges(v: Vfd, address: byte)
    requires HuanyangChoice(v).SetFreq?
    ensures var m := WithCrc(SetFreqFrame(address, HuanyangChoice(v).hz));
      var v' := Plain(v, HuanyangOutcome(v, m, 7));
      v'.setFreq == v'.reqFreq && v'.lastSetFreqUpdate == v.cycle && !HuanyangChoice(v').SetFreq?
  {
    EchoSetsFrequency(v, address);
  }

  /** A status reply (function 3) sets the run, direction and running bits
   *  from bits 0, 2 and 3 of its data byte and refreshes the status. */
  lemma StatusReplyDecodes(v: Vfd, address: byte, bits: byte)
    ensures var m := WithCrc([address, 3, 1, bits]);
      HuanyangOutcome(v, m, 6) == Decoded(v.(lastStatusUpdate := v.cycle,
        statusRun := bits & 1 != 0, statusReverse := bits & 4 != 0, statusRunning := bits & 8 != 0), true)
  {
    var f: seq<byte> := [address, 3, 1, bits];
    ReplyChecked(f, v);
    assert WithCrc(f)[1] == 3 && WithCrc(f)[3] == bits;
  }

  /** A read-status reply (function 4) of type 0 or 1 stores its 16-bit
   *  value, high byte first, as the set or the actual frequency and
   *  refreshes that reading. */
  lemma ReadReplyDecodes(v: Vfd, address: byte, kind: byte, value: u16)
    requires kind == 0 || kind == 1
    ensures var m := WithCrc([address, 4, 3, kind, B(value / 256), B(value % 256)]);
      HuanyangOutcome(v, m, 8) ==
        if kind == 0 then Decoded(v.(lastSetFreqUpdate := v.cycle, setFreq := I16(value)), true)
        else Decoded(v.(lastActFreqUpdate := v.cycle, actFreq := I16(value)), true)
  {
    var f: seq<byte> := [address, 4, 3, kind, B(value / 256), B(value % 256)];
    ReplyChecked(f, v);
    var m := WithCrc(f);
    assert m[1] == 4 && m[3] == kind && m[4] == f[4] && m[5] == f[5];
    Split(value);
    assert BigEndian(m[4], m[5]) == value;
    assert HuanyangReply(v, m, 8) == StatusValue(v, kind, value);
  }

  /** A reply whose CRC fails leaves the vfd record as it was. */
  lemma CorruptReplyIgnored(v: Vfd, m: seq<byte>, lo: byte, hi: byte)
    requires |m| >= 4 && (lo != Lo(Crc(m)) || hi != Hi(Crc(m)))
    ensures HuanyangOutcome(v, m + [lo, hi], |m| + 2) == CrcError
    ensures Plain(v, HuanyangOutcome(v, m + [lo, hi], |m| + 2)) == v
  {
    CorruptedCrcFails(m, lo, hi);
  }

  /**
   * The loop's priority: it writes (a frequency or a control code) only
   * when no reading is due, it reads the set frequency before the actual
   * one, and it is idle exactly when nothing is due and the inverter
   * already runs as requested.
   */
  lemma ChoicePriority(v: Vfd)
    ensures HuanyangChoice(v) == PollControl <==> Due(v, v.lastStatusUpdate)
    ensures HuanyangChoice(v) == ReadStatus(1) ==> !Due(v, v.lastSetFreqUpdate)
    ensures (HuanyangChoice(v).SetFreq? || HuanyangChoice(v).Control?) ==>
      !Due(v, v.lastStatusUpdate) && !Due(v, v.lastSetFreqUpdate) && !Due(v, v.lastActFreqUpdate)
    ensures HuanyangChoice(v).Control? ==> v.reqFreq == v.setFreq
    ensures HuanyangChoice(v) == Idle <==>
      && !Due(v, v.lastStatusUpdate) && !Due(v, v.lastSetFreqUpdate) && !Due(v, v.lastActFreqUpdate)
      && v.reqFreq == v.setFreq && v.commandRun == v.statusRun && v.commandReverse == v.statusReverse
  {
  }

  /** The control code the loop picks: STOP only for a spindle that runs
   *  but should not; otherwise the requested direction. */
  lemma ControlChoice(v: Vfd)
    requires HuanyangChoice(v).Control?
    ensures HuanyangChoice(v).control == CONTROL_STOP <==> v.statusRun && !v.commandRun
    ensures HuanyangChoice(v).control == CONTROL_REVERSE <==> !(v.statusRun && !v.commandRun) && v.commandReverse
  {
  }
}
