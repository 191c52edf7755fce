/**
 * src/rp2040/modbus_huanyang.c: the Huanyang driver on the shared port.
 * It decodes the same replies as modbus.c but counts the failures, and
 * takes the run and direction requests only in a cycle where no reading
 * is due.
 */
module ModbusHuanyang {
  import opened CInt
  import opened ModbusCrc
  import opened ModbusVfd
  import opened ModbusRtu

  /** Some reading is due for a poll. */
  predicate AnyDue(v: Vfd)
  {
    Due(v, v.lastStatusUpdate) || Due(v, v.lastSetFreqUpdate) || Due(v, v.lastActFreqUpdate)
  }

  /** The record the loop decides on (modbus_huanyang.c:132-143): the run
   *  and direction requests are stored only once nothing is due. */
  function Plan(v: Vfd, f: Frequency): (r: Vfd)
    ensures AnyDue(v) ==> r == v
    ensures !AnyDue(v) ==> r == v.(commandRun := f.nonZero, commandReverse := f.negative)
  {
    if AnyDue(v) then v else v.(commandRun := f.nonZero, commandReverse := f.negative)
  }

  /** modbus_huanyang_receive (modbus_huanyang.c:60-122). */
  method Receive(p: ModbusPort, reply: seq<byte>)
    requires p.Valid() && |reply| <= p.command.Length && |reply| != 1
    modifies p.command, p`vfd
    ensures p.Valid() && p.command[..] == Arrived(old(p.command[..]), reply, |reply|)
    ensures p.vfd == Counted(old(p.vfd), HuanyangOutcome(old(p.vfd), p.command[..], |reply|), p.outstanding)
  {
    var len, ok := p.CheckReply(reply);
    var v := p.vfd;
    if len == 0 {
      if p.outstanding {
        p.vfd := v.(stats := v.stats.(unanswered := v.stats.unanswered + 1));
      }
    } else if ok {
      var d := HuanyangReply(v, p.command[..], len);
      p.vfd := if d.1 then d.0 else d.0.(stats := d.0.stats.(unknown := d.0.stats.unknown + 1));
    } else {
      p.vfd := v.(stats := v.stats.(crcErrors := v.stats.crcErrors + 1));
    }
  }

  /** The body of modbus_loop_huanyang once a reply may be read
   *  (modbus_huanyang.c:131-159): receive, plan, send. */
  method Exchange(p: ModbusPort, f: Frequency, reply: seq<byte>)
    requires p.Valid() && |reply| <= p.command.Length && |reply| != 1
    modifies p.command, p`vfd, p`length, p`pause, p`lastControl
    ensures p.Valid()
    ensures
      var cmd := Arrived(old(p.command[..]), reply, |reply|);
      var v := Plan(Counted(old(p.vfd), HuanyangOutcome(old(p.vfd), cmd, |reply|), p.outstanding), f);
      && p.vfd == v
      && (HuanyangChoice(v) == Idle ==>
            p.command[..] == cmd && p.length == old(p.length) && p.pause == old(p.pause)
            && p.lastControl == old(p.lastControl))
      && (HuanyangChoice(v) != Idle ==>
            p.Sent(RequestFrame(p.address, old(p.lastControl), HuanyangChoice(v)), cmd)
            && p.lastControl == NextControl(old(p.lastControl), HuanyangChoice(v)))
  {
    Receive(p, reply);
    p.vfd := Plan(p.vfd, f);
    var next := HuanyangChoice(p.vfd);
    if next != Idle {
      p.SendHuanyang(next);
    }
  }

  /**
   * modbus_loop_huanyang (modbus_huanyang.c:124-171). The configuration
   * check and the receive check are inputs. When a reply may be read, the
   * loop reads it, then sends what the priority picks on the planned
   * record; it always records the freshness flags and reports.
   */
  method Loop(p: ModbusPort, f: Frequency, configured: bool, ready: bool, reply: seq<byte>)
    returns (r: LoopResult)
    requires p.Valid() && |reply| <= p.command.Length && |reply| != 1
    modifies p, p.command
    ensures p.Valid() && p.address == old(p.address) && p.outstanding == old(p.outstanding)
    ensures !configured ==>
      && r == NotConfigured && p.vfd == old(p.vfd)
      && p.command[..] == old(p.command[..]) && p.length == old(p.length) && p.pause == old(p.pause)
    ensures configured && !ready ==>
      && p.vfd == WithFreshness(old(p.vfd).(reqFreq := Requested(f)), false)
      && p.command[..] == old(p.command[..]) && p.length == old(p.length) && p.pause == old(p.pause)
      && p.lastControl == old(p.lastControl)
    ensures configured && ready ==>
      var v1 := old(p.vfd).(reqFreq := Requested(f));
      var cmd := Arrived(old(p.command[..]), reply, |reply|);
      var v2 := Plan(Counted(v1, HuanyangOutcome(v1, cmd, |reply|), old(p.outstanding)), f);
      && p.vfd == WithFreshness(v2, false)
      && (HuanyangChoice(v2) == Idle ==>
            p.command[..] == cmd && p.length == old(p.length) && p.pause == old(p.pause)
            && p.lastControl == old(p.lastControl))
      && (HuanyangChoice(v2) != Idle ==>
            p.Sent(RequestFrame(p.address, old(p.lastControl), HuanyangChoice(v2)), cmd)
            && p.lastControl == NextControl(old(p.lastControl), HuanyangChoice(v2)))
    ensures configured ==> r == Report(p.vfd, GotAll(p.vfd))
  {
    if !configured {
      return NotConfigured;
    }
    p.vfd := p.vfd.(reqFreq := Requested(f));
    if ready {
      Exchange(p, f, reply);
    }
    p.vfd := WithFreshness(p.vfd, false);
    r := Report(p.vfd, GotAll(p.vfd));
  }

  /** While a reading is due the loop polls, and the run request of the
   *  frequency argument is not yet stored. */
  lemma DueDefersCommand(v: Vfd, f: Frequency)
    requires AnyDue(v)
    ensures Plan(v, f).commandRun == v.commandRun && Plan(v, f).commandReverse == v.commandReverse
    ensures HuanyangChoice(Plan(v, f)) in {PollControl, ReadStatus(0), ReadStatus(1)}
  {
  }

  /** With nothing due, the loop writes exactly when the inverter's set
   *  frequency or run state differs from the request. */
  lemma WritesOnMismatch(v: Vfd, f: Frequency)
    requires !AnyDue(v)
    ensures HuanyangChoice(Plan(v, f)) != Idle <==>
      v.reqFreq != v.setFreq || f.nonZero != v.statusRun || f.negative != v.statusReverse
  {
  }

  /** A reply whose CRC fails counts one CRC error and changes nothing
   *  else. */
  lemma CorruptReplyCounted(v: Vfd, m: seq<byte>, lo: byte, hi: byte, outstanding: bool)
    requires |m| >= 4 && (lo != Lo(Crc(m)) || hi != Hi(Crc(m)))
    ensures Counted(v, HuanyangOutcome(v, m + [lo, hi], |m| + 2), outstanding)
      == v.(stats := v.stats.(crcErrors := v.stats.crcErrors + 1))
  {
    CorruptedCrcFails(m, lo, hi);
  }

  /** No reply to an outstanding request counts one unanswered request. */
  lemma SilenceCounted(v: Vfd, cmd: seq<byte>)
    requires |cmd| >= 6
    ensures Counted(v, HuanyangOutcome(v, cmd, 0), true)
      == v.(stats := v.stats.(unanswered := v.stats.unanswered + 1))
    ensures Counted(v, HuanyangOutcome(v, cmd, 0), false) == v
  {
  }

  /** A read-status reply of a type other than 0 to 3 is counted as
   *  unknown and changes nothing else. */
  lemma UnknownTypeCounted(v: Vfd, address: byte, kind: byte, value: u16)
    requires N(kind) > 3
    ensures var m := WithCrc([address, 4, 3, kind, B(value / 256), B(value % 256)]);
      Counted(v, HuanyangOutcome(v, m, 8), false) == v.(stats := v.stats.(unknown := v.stats.unknown + 1))
  {
    var f: seq<byte> := [address, 4, 3, kind, B(value / 256), B(value % 256)];
    WithCrcMatches(f);
    var m := WithCrc(f);
    assert m[1] == 4 && m[3] == kind;
    assert kind != 0 && kind != 1 && kind != 2 && kind != 3;
    assert HuanyangReply(v, m, 8) == (v, false);
  }
}

/**
 * src/rp2040/modbus_fuling.c: the Fuling DZB driver. Every access is a
 * holding-register read or write: the state word at 0x1001, the set and
 * actual frequencies from 0x3000, the speed setting at 0x2000 and the
 * control word at 0x1000.
 */
module ModbusFuling {
  import opened CInt
  import opened ModbusCrc
  import opened ModbusVfd
  import opened ModbusRtu

  const CONTROL: u16 := 0x1000
  const CONTROL_RUN_FWD: int := 1
  const CONTROL_RUN_REV: int := 2
  const CONTROL_STOP: int := 5
  const STATE: u16 := 0x1001
  const SPEED: u16 := 0x2000
  const STATUS_SET_FREQ: u16 := 0x3000

  /** The switch of modbus_fuling_receive on a reply whose CRC matched
   *  (modbus_fuling.c:64-95): a register read tells its content by the
   *  byte count, a write acknowledgement is accepted, anything else is
   *  unknown. */
  function Reply(v: Vfd, cmd: seq<byte>): (r: (Vfd, bool))
    requires |cmd| >= 7
    ensures Keeps(v, r.0) && (!r.1 ==> r.0 == v)
  {
    if cmd[1] == 3 then
      if cmd[2] == 2 then (RunState(v, cmd[4]), true)
      else if cmd[2] == 4 then
        (v.(lastSetFreqUpdate := v.cycle,
            setFreq := I16(BigEndian(cmd[3], cmd[4])),
            actFreq := I16(BigEndian(cmd[5], cmd[6]))), true)
      else (v, false)
    else if cmd[1] == 6 then (v, true)
    else (v, false)
  }

  function Outcome(v: Vfd, cmd: seq<byte>, len: nat): (o: ModbusRtu.Outcome)
    requires |cmd| >= 7 && len <= |cmd| && len != 1
    ensures o == NoReply <==> len == 0
    ensures o == CrcError <==> len > 0 && !CrcMatches(cmd, len)
    ensures o.Decoded? ==> Keeps(v, o.vfd) && (!o.recognised ==> o.vfd == v)
  {
    Received(cmd, len, Reply(v, cmd))
  }

  /** The speed setting for a request in tenths of a hertz: 5/4 of it,
   *  rounded, with C's truncating division. */
  function Rate(reqX10: int): (r: int)
    ensures reqX10 >= 0 ==> -2 < 4 * r - 5 * reqX10 <= 2
    ensures reqX10 < 0 ==> 2 <= 4 * r - 5 * reqX10 < 6
  {
    CDiv(reqX10 * 5 + 2, 4)
  }

  /** The frequency a speed setting stands for, as the loop compares it. */
  function RateFreq(rate: int): int
  {
    CDiv(rate * 4 + 2, 5)
  }

  /** The access the loop makes (modbus_fuling.c:125-153): poll the state,
   *  then the frequencies, when due; else write the speed when it is off
   *  by more than one tenth of a hertz, else fix a run or direction
   *  mismatch, stopping only a spindle that runs but should not. */
  function Choice(v: Vfd): (a: Access)
    ensures a == ReadHolding(STATE, 1) <==> Due(v, v.lastStatusUpdate)
    ensures a.WriteHolding? && a.reg == SPEED ==> a.value == Rate(v.reqFreq)
    ensures a.WriteHolding? && a.reg == CONTROL ==>
      && (v.commandRun != v.statusRun || v.commandReverse != v.statusReverse)
      && (a.value == CONTROL_STOP <==> v.statusRun && !v.commandRun)
    ensures a == NoAccess <==>
      && !Due(v, v.lastStatusUpdate) && !Due(v, v.lastSetFreqUpdate)
      && Abs(RateFreq(Rate(v.reqFreq)) - v.setFreq) <= 1
      && v.commandRun == v.statusRun && v.commandReverse == v.statusReverse
  {
    if Due(v, v.lastStatusUpdate) then ReadHolding(STATE, 1)
    else if Due(v, v.lastSetFreqUpdate) then ReadHolding(STATUS_SET_FREQ, 2)
    else if Abs(RateFreq(Rate(v.reqFreq)) - v.setFreq) > 1 then WriteHolding(SPEED, Rate(v.reqFreq))
    else if v.commandRun != v.statusRun || v.commandReverse != v.statusReverse then
      if v.statusRun && !v.commandRun then WriteHolding(CONTROL, CONTROL_STOP)
      else if v.commandReverse then WriteHolding(CONTROL, CONTROL_RUN_REV)
      else WriteHolding(CONTROL, CONTROL_RUN_FWD)
    else NoAccess
  }

  /** modbus_fuling_receive (modbus_fuling.c:53-103): the request is no
   *  longer outstanding afterwards. */
  method Receive(p: ModbusPort, reply: seq<byte>)
    requires p.Valid() && |reply| <= p.command.Length && |reply| != 1
    modifies p.command, p`vfd, p`outstanding
    ensures p.Valid() && p.command[..] == Arrived(old(p.command[..]), reply, |reply|)
    ensures p.vfd == Counted(old(p.vfd), Outcome(old(p.vfd), p.command[..], |reply|), old(p.outstanding))
    ensures !p.outstanding
  {
    var len, ok := p.CheckReply(reply);
    var v := p.vfd;
    if len == 0 {
      if p.outstanding {
        p.vfd := v.(stats := v.stats.(unanswered := v.stats.unanswered + 1));
      }
    } else if ok {
      var d := Reply(v, p.command[..]);
      p.vfd := if d.1 then d.0 else d.0.(stats := d.0.stats.(unknown := d.0.stats.unknown + 1));
    } else {
      p.vfd := v.(stats := v.stats.(crcErrors := v.stats.crcErrors + 1));
    }
    p.outstanding := false;
  }

  /** The body of modbus_loop_fuling (modbus_fuling.c:124-153) once no pause is pending: receive, then make
   *  the access the priority picks. */
  method Exchange(p: ModbusPort, reply: seq<byte>)
    requires p.Valid() && |reply| <= p.command.Length && |reply| != 1
    modifies p.command, p`vfd, p`length, p`pause, p`outstanding
    ensures p.Valid() && !p.outstanding
    ensures
      var cmd := Arrived(old(p.command[..]), reply, |reply|);
      var v := Counted(old(p.vfd), Outcome(old(p.vfd), cmd, |reply|), old(p.outstanding));
      && p.vfd == v
      && (Choice(v) == NoAccess ==>
            p.command[..] == cmd && p.length == old(p.length) && p.pause == old(p.pause))
      && (Choice(v) != NoAccess ==> p.Sent(AccessFrame(p.address, Choice(v)), cmd))
  {
    Receive(p, reply);
    var next := Choice(p.vfd);
    if next != NoAccess {
      p.SendAccess(next);
    }
  }

  /**
   * modbus_loop_fuling (modbus_fuling.c:105-165): like modbus_loop, but
   * with register accesses, a single reading for both frequencies, and
   * the failures counted.
   */
  method Loop(p: ModbusPort, f: Frequency, configured: bool, busy: bool, reply: seq<byte>)
    returns (r: LoopResult)
    requires p.Valid() && |reply| <= p.command.Length && |reply| != 1
    modifies p, p.command
    ensures p.Valid() && p.address == old(p.address) && p.lastControl == old(p.lastControl)
    ensures !configured ==>
      && r == NotConfigured && p.vfd == old(p.vfd) && p.outstanding == old(p.outstanding)
      && p.command[..] == old(p.command[..]) && p.length == old(p.length) && p.pause == old(p.pause)
    ensures configured && old(p.pause) > 0 ==>
      && p.vfd == WithFreshness(Tick(old(p.vfd), f), true) && p.outstanding == old(p.outstanding)
      && p.pause == (if busy then old(p.pause) else old(p.pause) - 1)
      && p.command[..] == old(p.command[..]) && p.length == old(p.length)
    ensures configured && old(p.pause) <= 0 ==>
      var v1 := Tick(old(p.vfd), f);
      var cmd := Arrived(old(p.command[..]), reply, |reply|);
      var v2 := Counted(v1, Outcome(v1, cmd, |reply|), old(p.outstanding));
      && p.vfd == WithFreshness(v2, true) && !p.outstanding
      && (Choice(v2) == NoAccess ==>
            p.command[..] == cmd && p.length == old(p.length) && p.pause == old(p.pause))
      && (Choice(v2) != NoAccess ==> p.Sent(AccessFrame(p.address, Choice(v2)), cmd))
    ensures configured ==> r == Report(p.vfd, GotAll(p.vfd))
  {
    if !configured {
      return NotConfigured;
    }
    p.vfd := Tick(p.vfd, f);
    if p.pause > 0 {
      if !busy {
        p.pause := p.pause - 1;
      }
    } else {
      Exchange(p, reply);
    }
    p.vfd := WithFreshness(p.vfd, true);
    r := Report(p.vfd, GotAll(p.vfd));
  }

  /** The speed setting round-trips: a non-negative request comes back
   *  exactly from the setting the loop writes. */
  lemma RateRoundTrip(req: int)
    requires req >= 0
    ensures RateFreq(Rate(req)) == req
  {
    var rate := (req * 5 + 2) / 4;
    var e := (req * 5 + 2) % 4;
    assert Rate(req) == rate;
    assert rate * 4 + 2 == req * 5 + (4 - e);
    DivModUnique(rate * 4 + 2, 5, req, 4 - e);
  }

  /** Once the inverter reports the requested frequency as its setting, the
   *  loop stops writing the speed. */
  lemma SettledSpeed(v: Vfd)
    requires v.reqFreq >= 0 && v.setFreq == v.reqFreq
    ensures !Choice(v).WriteHolding? || Choice(v).reg == CONTROL
  {
    RateRoundTrip(v.reqFreq);
  }

  /** A state reply (two data bytes) sets run, direction and running from
   *  the low byte of the state word. */
  lemma StateReplyDecodes(v: Vfd, address: byte, state: byte)
    ensures var m := WithCrc([address, 3, 2, 0, state]);
      Outcome(v, m, 7) == Decoded(RunState(v, state), true)
  {
    var f: seq<byte> := [address, 3, 2, 0, state];
    WithCrcMatches(f);
    var m := WithCrc(f);
    assert m[1] == 3 && m[2] == 2 && m[4] == state;
  }

  /** A frequency reply (four data bytes) stores the set and actual
   *  frequencies, each high byte first, and refreshes both. */
  lemma FreqReplyDecodes(v: Vfd, address: byte, setting: u16, act: u16)
    ensures var m := WithCrc([address, 3, 4, B(setting / 256), B(setting % 256), B(act / 256), B(act % 256)]);
      Outcome(v, m, 9) == Decoded(v.(lastSetFreqUpdate := v.cycle, setFreq := I16(setting), actFreq := I16(act)), true)
  {
    var f: seq<byte> := [address, 3, 4, B(setting / 256), B(setting % 256), B(act / 256), B(act % 256)];
    WithCrcMatches(f);
    var m := WithCrc(f);
    assert m[1] == 3 && m[2] == 4 && m[3] == f[3] && m[4] == f[4] && m[5] == f[5] && m[6] == f[6];
    Split(setting);
    Split(act);
    assert Reply(v, m) == (v.(lastSetFreqUpdate := v.cycle, setFreq := I16(setting), actFreq := I16(act)), true);
  }

  /** The acknowledgement of a write (the request echoed, as function 6
   *  replies) is accepted and changes nothing. */
  lemma WriteAckAccepted(v: Vfd, address: byte, reg: u16, value: int)
    ensures var m := WithCrc(AccessFrame(address, WriteHolding(reg, value)));
      Outcome(v, m, 8) == Decoded(v, true)
  {
    var f := AccessFrame(address, WriteHolding(reg, value));
    WithCrcMatches(f);
    assert WithCrc(f)[1] == 6;
  }
}

/**
 * src/rp2040/modbus_weiken.c: the Weiken driver. It reads the set and
 * actual frequencies from 0x7000, learns the run state from the
 * acknowledgement of the control word it writes to 0x2000, and writes
 * the speed setting to 0x1000, clamped to the inverter's range.
 */
module ModbusWeiken {
  import opened CInt
  import opened ModbusCrc
  import opened ModbusVfd
  import opened ModbusRtu

  const CONTROL: u16 := 0x2000
  const CONTROL_RUN_FWD: int := 1
  const CONTROL_RUN_REV: int := 2
  const CONTROL_STOP: int := 6
  const SPEED: u16 := 0x1000
  const STATUS_SET_FREQ: u16 := 0x7000

  /** The set frequency for a speed setting as the receive routine scales
   *  it: (4 * setting + 5) / 10 in unsigned arithmetic. */
  function SetFreqOf(setting: nat): nat
  {
    (4 * setting + 5) / 10
  }

  /**
   * The switch of modbus_weiken_receive on a reply whose CRC matched
   * (modbus_weiken.c:34-82). A read tells its content by a two-byte count
   * at bytes 2 and 3 and carries its data from byte 4; the
   * acknowledgement of a control-word write refreshes the run state; read
   * and write exceptions (0x83, 0x86) and any other function are unknown.
   */
  function Reply(v: Vfd, cmd: seq<byte>): (r: (Vfd, bool))
    requires |cmd| >= 8
    ensures Keeps(v, r.0) && (!r.1 ==> r.0 == v)
  {
    if cmd[1] == 3 then
      var bytes := BigEndian(cmd[2], cmd[3]);
      if bytes == 2 then (RunState(v, cmd[4]), true)
      else if bytes == 4 then
        (v.(lastSetFreqUpdate := v.cycle,
            setFreq := I16(SetFreqOf(BigEndian(cmd[4], cmd[5]))),
            actFreq := I16(BigEndian(cmd[6], cmd[7]))), true)
      else (v, false)
    else if cmd[1] == 6 then
      if BigEndian(cmd[2], cmd[3]) == CONTROL then
        var value := BigEndian(cmd[4], cmd[5]);
        (v.(lastStatusUpdate := v.cycle,
            statusRun := value == CONTROL_RUN_FWD || value == CONTROL_RUN_REV), true)
      else (v, true)
    else (v, false)
  }

  function Outcome(v: Vfd, cmd: seq<byte>, len: nat): (o: ModbusRtu.Outcome)
    requires |cmd| >= 8 && len <= |cmd| && len != 1
    ensures o == NoReply <==> len == 0
    ensures o == CrcError <==> len > 0 && !CrcMatches(cmd, len)
    ensures o.Decoded? ==> Keeps(v, o.vfd) && (!o.recognised ==> o.vfd == v)
  {
    Received(cmd, len, Reply(v, cmd))
  }

  /** The speed setting for a request in tenths of a hertz: 5/2 of it,
   *  rounded with C's truncating division, clamped to -10000..10000. */
  function Rate(reqX10: int): (r: int)
    ensures -10000 <= r <= 10000
    ensures -10000 <= CDiv(reqX10 * 5 + 1, 2) <= 10000 ==> r == CDiv(reqX10 * 5 + 1, 2)
  {
    var rate := CDiv(reqX10 * 5 + 1, 2);
    if rate < -10000 then -10000 else if rate > 10000 then 10000 else rate
  }

  /** The frequency a speed setting stands for, as the loop compares it. */
  function RateFreq(rate: int): int
  {
    CDiv(rate * 2 + 2, 5)
  }

  /** The access the loop makes (modbus_weiken.c:112-138): when the status
   *  is due, write the control word the request calls for; when the
   *  frequencies are due, read them; else write the speed when it is off
   *  by more than one tenth of a hertz. A run mismatch alone sends
   *  nothing. */
  function Choice(v: Vfd): (a: Access)
    ensures Due(v, v.lastStatusUpdate) <==> a.WriteHolding? && a.reg == CONTROL
    ensures a.WriteHolding? && a.reg == CONTROL ==> (a.value == CONTROL_STOP <==> !v.commandRun)
    ensures a == NoAccess <==>
      && !Due(v, v.lastStatusUpdate) && !Due(v, v.lastSetFreqUpdate)
      && Abs(RateFreq(Rate(v.reqFreq)) - v.setFreq) <= 1
  {
    if Due(v, v.lastStatusUpdate) then
      WriteHolding(CONTROL, if !v.commandRun then CONTROL_STOP
                            else if v.commandReverse then CONTROL_RUN_REV else CONTROL_RUN_FWD)
    else if Due(v, v.lastSetFreqUpdate) then ReadHolding(STATUS_SET_FREQ, 2)
    else if Abs(RateFreq(Rate(v.reqFreq)) - v.setFreq) > 1 then WriteHolding(SPEED, Rate(v.reqFreq))
    else NoAccess
  }

  /** The tail of modbus_loop_weiken: not ready unless both readings are
   *  fresh, else the actual frequency read as unsigned, signed by the
   *  direction, whether or not the spindle runs. */
  function Report(v: Vfd): (r: LoopResult)
    ensures r != NotReady <==> GotAll(v)
    ensures r != NotReady ==> r == Running(v.statusReverse, U16(v.actFreq))
  {
    if !GotAll(v) then NotReady else Running(v.statusReverse, U16(v.actFreq))
  }

  /** modbus_weiken_receive (modbus_weiken.c:23-90). */
  method Receive(p: ModbusPort, reply: seq<byte>)
    requires p.Valid() && |reply| <= p.command.Length && |reply| != 1
    modifies p.command, p`vfd, p`outstanding
    ensures p.Valid() && p.command[..] == Arrived(old(p.command[..]), reply, |reply|)
    ensures p.vfd == Counted(old(p.vfd), Outcome(old(p.vfd), p.command[..], |reply|), old(p.outstanding))
    ensures !p.outstanding
  {
    var len, ok := p.CheckReply(reply);
    var v := p.vfd;
    if len == 0 {
      if p.outstanding {
        p.vfd := v.(stats := v.stats.(unanswered := v.stats.unanswered + 1));
      }
    } else if ok {
      var d := Reply(v, p.command[..]);
      p.vfd := if d.1 then d.0 else d.0.(stats := d.0.stats.(unknown := d.0.stats.unknown + 1));
    } else {
      p.vfd := v.(stats := v.stats.(crcErrors := v.stats.crcErrors + 1));
    }
    p.outstanding := false;
  }

  /** The body of modbus_loop_weiken (modbus_weiken.c:111-138) once no pause is pending: receive, then make
   *  the access the priority picks. */
  method Exchange(p: ModbusPort, reply: seq<byte>)
    requires p.Valid() && |reply| <= p.command.Length && |reply| != 1
    modifies p.command, p`vfd, p`length, p`pause, p`outstanding
    ensures p.Valid() && !p.outstanding
    ensures
      var cmd := Arrived(old(p.command[..]), reply, |reply|);
      var v := Counted(old(p.vfd), Outcome(old(p.vfd), cmd, |reply|), old(p.outstanding));
      && p.vfd == v
      && (Choice(v) == NoAccess ==>
            p.command[..] == cmd && p.length == old(p.length) && p.pause == old(p.pause))
      && (Choice(v) != NoAccess ==> p.Sent(AccessFrame(p.address, Choice(v)), cmd))
  {
    Receive(p, reply);
    var next := Choice(p.vfd);
    if next != NoAccess {
      p.SendAccess(next);
    }
  }

  /** modbus_loop_weiken (modbus_weiken.c:92-150). */
  method Loop(p: ModbusPort, f: Frequency, configured: bool, busy: bool, reply: seq<byte>)
    returns (r: LoopResult)
    requires p.Valid() && |reply| <= p.command.Length && |reply| != 1
    modifies p, p.command
    ensures p.Valid() && p.address == old(p.address) && p.lastControl == old(p.lastControl)
    ensures !configured ==>
      && r == NotConfigured && p.vfd == old(p.vfd) && p.outstanding == old(p.outstanding)
      && p.command[..] == old(p.command[..]) && p.length == old(p.length) && p.pause == old(p.pause)
    ensures configured && old(p.pause) > 0 ==>
      && p.vfd == WithFreshness(Tick(old(p.vfd), f), true) && p.outstanding == old(p.outstanding)
      && p.pause == (if busy then old(p.pause) else old(p.pause) - 1)
      && p.command[..] == old(p.command[..]) && p.length == old(p.length)
    ensures configured && old(p.pause) <= 0 ==>
      var v1 := Tick(old(p.vfd), f);
      var cmd := Arrived(old(p.command[..]), reply, |reply|);
      var v2 := Counted(v1, Outcome(v1, cmd, |reply|), old(p.outstanding));
      && p.vfd == WithFreshness(v2, true) && !p.outstanding
      && (Choice(v2) == NoAccess ==>
            p.command[..] == cmd && p.length == old(p.length) && p.pause == old(p.pause))
      && (Choice(v2) != NoAccess ==> p.Sent(AccessFrame(p.address, Choice(v2)), cmd))
    ensures configured ==> r == Report(p.vfd)
  {
    if !configured {
      return NotConfigured;
    }
    p.vfd := Tick(p.vfd, f);
    if p.pause > 0 {
      if !busy {
        p.pause := p.pause - 1;
      }
    } else {
      Exchange(p, reply);
    }
    p.vfd := WithFreshness(p.vfd, true);
    r := Report(p.vfd);
  }

  /** Below the clamp the speed setting round-trips: a request of at most
   *  399.9 Hz comes back exactly from the setting the loop writes. */
  lemma RateRoundTrip(req: int)
    requires 0 <= req < 4000
    ensures RateFreq(Rate(req)) == req
  {
    var rate := (req * 5 + 1) / 2;
    var e := (req * 5 + 1) % 2;
    assert CDiv(req * 5 + 1, 2) == rate;
    assert rate <= 10000;
    assert rate * 2 + 2 == req * 5 + (3 - e);
    DivModUnique(rate * 2 + 2, 5, req, 3 - e);
  }

  /** The inverter's report of a setting it holds reads back as the
   *  frequency the loop compares against: the receive scaling and the
   *  loop's agree on every setting in range. */
  lemma ReadBackAgrees(rate: int)
    requires 0 <= rate <= 10000
    ensures SetFreqOf(rate) == RateFreq(rate)
  {
    var q := (4 * rate + 4) / 10;
    var e := (4 * rate + 4) % 10;
    assert CDiv(rate * 2 + 2, 5) == (rate * 2 + 2) / 5;
    DivModUnique(rate * 2 + 2, 5, q, e / 2);
    assert e != 9 by {
      assert 4 * rate + 4 == 10 * q + e;
    }
    DivModUnique(4 * rate + 5, 10, q, e + 1);
  }

  /** Once the inverter reports the setting the loop wrote, the loop stops
   *  writing the speed, clamped or not. */
  lemma SettledSpeed(v: Vfd)
    requires v.reqFreq >= 0 && v.setFreq == SetFreqOf(Rate(v.reqFreq))
    ensures !(Choice(v).WriteHolding? && Choice(v).reg == SPEED)
  {
    assert Rate(v.reqFreq) >= 0;
    ReadBackAgrees(Rate(v.reqFreq));
  }

  /** The acknowledgement of a control-word write (the request echoed)
   *  refreshes the status: the spindle runs unless STOP was written, and
   *  the status is no longer due. */
  lemma ControlAckRefreshes(v: Vfd, address: byte, control: int)
    requires control in {CONTROL_STOP, CONTROL_RUN_REV, CONTROL_RUN_FWD}
    ensures var m := WithCrc(AccessFrame(address, WriteHolding(CONTROL, control)));
      var o := Outcome(v, m, 8);
      && o.Decoded? && o.recognised
      && o.vfd == v.(lastStatusUpdate := v.cycle, statusRun := control != CONTROL_STOP)
      && !Due(o.vfd, o.vfd.lastStatusUpdate)
  {
    var f := AccessFrame(address, WriteHolding(CONTROL, control));
    WithCrcMatches(f);
    var m := WithCrc(f);
    assert m[1] == 6 && m[2..6] == f[2..6];
    ByteBack(CONTROL / 256);
    ByteBack(CONTROL % 256);
    ByteBack(U16(control) / 256);
    ByteBack(U16(control) % 256);
    assert BigEndian(m[2], m[3]) == CONTROL;
    assert BigEndian(m[4], m[5]) == control;
  }
}
