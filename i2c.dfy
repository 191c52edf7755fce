/**
 * The non-blocking I2C command engine of src/rp2040/i2c.c and i2c.h. A
 * program is a byte string of commands: a header byte whose low 7 bits are
 * a write length and whose top bit asks for a read afterwards, then the
 * bytes to write, then (for a read) the number of bytes to read; a zero
 * header ends the program. Each call of i2c_engine_run advances a small
 * phase machine by at most one bus action; the controller's status flags
 * and received data are inputs of each call.
 */
module I2cEngine {
  import opened Wrappers
  import opened CInt

  /** enum i2c_engine_phase (i2c.h:7-20). */
  datatype Phase =
    | Idle | StartWrite | WriteByte | WriteEnd | ReadByte | ReadByte2 | ReadEnd
    | Fail | FailWait1 | FailWait2 | FailRecover | Wait

  /** What one call can see of the hardware: the controller's status bits,
   *  the received data register, and whether the current timeout expired. */
  datatype Hw = Hw(
    txEmpty: bool,
    restartOnNext: bool,
    stopDet: bool,
    writeAvailable: bool,
    readAvailable: bool,
    dataCmd: u32,
    timedOut: bool,
    abortSource: u32)

  /** What the engine drives: the target address register, the data/command
   *  register (a byte to write, or a read request) and the reset pin. */
  datatype BusOp =
    | SetTarget(addr: u8)
    | WriteCmd(b: u8, restart: bool, stop: bool)
    | ReadCmd(restart: bool, stop: bool)
    | ResetPin(level: bool)

  /** struct i2c_engine_state as a value. `dataPtr` is an index into
   *  `program` (None for NULL); `dst` is the memory the destination
   *  pointer points into, at offset `dstOff` (None for NULL). */
  datatype Engine = Engine(
    phase: Phase,
    dataPos: u8,
    dataLen: nat,
    isRead: bool,
    i2cAddr: u8,
    abortReason: u8,
    program: seq<u8>,
    dataPtr: Option<nat>,
    dst: Option<seq<u8>>,
    dstOff: nat,
    log: seq<BusOp>)

  /** The low seven bits of a byte: what a `data_len:7` bit-field keeps. */
  function Len7(b: u8): (n: nat)
    ensures n < 0x80 && (b - n) % 0x80 == 0
  {
    b % 0x80
  }

  /** How many bytes a read may store at the destination. */
  function Room(dst: Option<seq<u8>>, off: nat): (n: nat)
    ensures dst.None? ==> n == 0
  {
    if dst.Some? && off <= |dst.value| then |dst.value| - off else 0
  }

  /**
   * The program from index i on is a list of commands ending in a zero
   * header, with no zero-length write and reads of 1..room bytes (a zero
   * length would make the engine run past the end of the command).
   */
  predicate WellFormed(p: seq<u8>, i: nat, room: nat)
    decreases |p| - i
  {
    i < |p| &&
    (p[i] == 0 ||
      (Len7(p[i]) > 0 && CommandRest(p, i + 1, Len7(p[i]), p[i] >= 0x80, room)))
  }

  /** After a header at i - 1 with write length n: the n bytes, the read
   *  length if any, and a well-formed remainder. */
  predicate CommandRest(p: seq<u8>, i: nat, n: nat, isRead: bool, room: nat)
    decreases |p| - i, 0
  {
    if isRead then
      i + n < |p| && 0 < Len7(p[i + n]) <= room && WellFormed(p, i + n + 1, room)
    else
      i + n <= |p| && n > 0 && WellFormed(p, i + n, room)
  }

  /** The engine's position agrees with its phase and program. */
  predicate Valid(s: Engine)
  {
    var room := Room(s.dst, s.dstOff);
    match s.phase
    case Idle => s.dataPtr.None? || WellFormed(s.program, s.dataPtr.value, room)
    case StartWrite | WriteByte | WriteEnd =>
      && s.dataPtr.Some? && 1 <= s.dataPtr.value <= |s.program|
      && var h := s.program[s.dataPtr.value - 1];
      && s.dataLen == Len7(h) > 0 && s.isRead == (h >= 0x80)
      && CommandRest(s.program, s.dataPtr.value, s.dataLen, s.isRead, room)
      && (s.phase == StartWrite ==> s.dataPos == 0)
      && (s.phase == WriteByte ==> s.dataPos < s.dataLen)
      && (s.phase == WriteEnd ==> s.dataPos == s.dataLen && !s.isRead)
    case ReadByte | ReadByte2 | ReadEnd =>
      && s.dataPtr.Some? && WellFormed(s.program, s.dataPtr.value, room)
      && 0 < s.dataLen <= room && s.dataLen < 0x80
      && (s.phase != ReadEnd ==> s.dataPos < s.dataLen)
      && (s.phase == ReadEnd ==> s.dataPos == s.dataLen)
    case Fail | FailWait1 | FailWait2 | FailRecover | Wait => true
  }

  /** Validity depends on the destination's size, not on its contents. */
  lemma DstContentsIrrelevant(s: Engine, mem: seq<u8>)
    requires Valid(s) && s.dst.Some? && |mem| == |s.dst.value|
    ensures Valid(s.(dst := Some(mem)))
  {
    assert Room(s.(dst := Some(mem)).dst, s.dstOff) == Room(s.dst, s.dstOff);
  }

  /** i2c_engine_init followed by i2c_engine_reset (i2c.c:7-17). */
  function Init(): (s: Engine)
    ensures s.phase == Fail && s.dataPos == 0 && s.dataLen == 0 && s.i2cAddr == 0
    ensures Valid(s)
  {
    Engine(Fail, 0, 0, false, 0, 0, [], None, None, 0, [])
  }

  /** i2c_engine_set_sequence (i2c.c:19-23): the phase is left as it is. */
  function WithSequence(s: Engine, addr: u8, src: seq<u8>, dst: Option<seq<u8>>, dstOff: nat): (r: Engine)
    ensures r.phase == s.phase && r.i2cAddr == addr && r.dataPtr == Some(0)
  {
    s.(i2cAddr := addr, program := src, dataPtr := Some(0), dst := dst, dstOff := dstOff)
  }

  /** Setting a well-formed program and (re)entering IDLE gives a valid engine. */
  lemma WithSequenceValid(s: Engine, addr: u8, src: seq<u8>, dst: Option<seq<u8>>, dstOff: nat)
    requires WellFormed(src, 0, Room(dst, dstOff))
    ensures Valid(WithSequence(s, addr, src, dst, dstOff).(phase := Idle))
  {
  }

  /** i2c_engine_is_idle (i2c.h:42-44): with no program left, further
   *  calls of i2c_engine_run change nothing and report no progress. */
  predicate IsIdle(s: Engine): (b: bool)
    ensures b ==> forall hw :: Valid(s) ==> Step(s, hw) == (s, false)
  {
    s.phase == Idle && s.dataPtr.None?
  }

  /** i2c_engine_is_fault (i2c.h:46-48): a faulted engine is not idle,
   *  and i2c_engine_run leaves it as it is without progress. */
  predicate IsFault(s: Engine): (b: bool)
    ensures b ==> !IsIdle(s)
    ensures b ==> forall hw :: Valid(s) ==> Step(s, hw) == (s, false)
  {
    s.phase == FailRecover
  }

  /** The shared tail of the waiting phases: a timeout fails with reason 0;
   *  otherwise the abort source, cut to the uint8_t field, fails if non-zero. */
  function TimeoutOrAbort(s: Engine, hw: Hw): (r: (Engine, bool))
  {
    if hw.timedOut then (s.(phase := Fail, abortReason := 0), true)
    else
      var reason := U8(hw.abortSource);
      if reason != 0 then (s.(phase := Fail, abortReason := reason), true)
      else (s.(abortReason := reason), false)
  }

  /** IDLE: a NULL pointer does nothing, a zero header ends the program,
   *  any other header starts a command (i2c.c:27-40). */
  function StepIdle(s: Engine): (r: Engine)
    requires Valid(s) && s.phase == Idle
  {
    if s.dataPtr.None? then s
    else
      var i := s.dataPtr.value;
      var h := s.program[i];
      if h == 0 then s.(dataPtr := None)
      else
        s.(dataPos := 0, dataLen := Len7(h), isRead := h >= 0x80, phase := StartWrite, dataPtr := Some(i + 1))
  }

  /** What WRITE_BYTE indexes: the next byte to send and, for a read, the
   *  read length after the written bytes. */
  predicate WriteInBounds(s: Engine)
  {
    && s.dataPtr.Some? && s.dataPos < s.dataLen < 0x80 && s.dataPtr.value + s.dataLen <= |s.program|
    && (s.isRead ==> s.dataPtr.value + s.dataLen < |s.program|)
  }

  lemma ValidWriteInBounds(s: Engine)
    requires Valid(s) && s.phase == WriteByte
    ensures WriteInBounds(s)
  {
  }

  lemma StepWriteByteValid(s: Engine, hw: Hw)
    requires Valid(s) && s.phase == WriteByte
    ensures WriteInBounds(s) && Valid(StepWriteByte(s, hw))
  {
  }

  /** WRITE_BYTE with the transmit FIFO empty: send one byte (i2c.c:49-67). */
  function StepWriteByte(s: Engine, hw: Hw): (r: Engine)
    requires WriteInBounds(s)
  {
    var i := s.dataPtr.value;
    var first := s.dataPos == 0;
    var last := s.dataPos as int == s.dataLen - 1 && !s.isRead;
    var b := s.program[i + s.dataPos as int];
    var s1 := s.(dataPos := s.dataPos + 1, log := s.log + [WriteCmd(b, first && hw.restartOnNext, last)]);
    if s1.dataPos as int == s1.dataLen then
      if s1.isRead then
        var j := i + s1.dataLen;
        s1.(dataLen := Len7(s.program[j]), dataPtr := Some(j + 1), dataPos := 0, phase := ReadByte)
      else
        s1.(phase := WriteEnd)
    else
      s1
  }

  /** READ_BYTE2 with a byte received: store it at dst[data_pos] (i2c.c:119-129). */
  function StepReadByte2(s: Engine, hw: Hw): (r: Engine)
    requires Valid(s) && s.phase == ReadByte2
  {
    var mem := s.dst.value;
    var s1 := s.(dst := Some(mem[s.dstOff + s.dataPos as int := U8(hw.dataCmd)]), dataPos := s.dataPos + 1);
    if s1.dataPos as int == s1.dataLen then s1.(phase := ReadEnd)
    else s1.(phase := ReadByte)
  }

  /** WRITE_END and READ_END: a stop ends the command (a write moves the
   *  pointer past its data), a timeout fails (i2c.c:81-95, 142-155). */
  function StepEnd(s: Engine, hw: Hw): (r: (Engine, bool))
    requires Valid(s) && (s.phase == WriteEnd || s.phase == ReadEnd)
  {
    if hw.stopDet then
      if s.phase == WriteEnd then (s.(phase := Idle, dataPtr := Some(s.dataPtr.value + s.dataLen)), true)
      else (s.(phase := Idle), true)
    else if hw.timedOut then (s.(phase := Fail, abortReason := 0), true)
    else (s, false)
  }

  /** READ_BYTE with room in the command FIFO: request one byte (i2c.c:96-106). */
  function StepReadByte(s: Engine): (r: Engine)
    requires Valid(s) && s.phase == ReadByte
  {
    var first := s.dataPos == 0;
    var last := s.dataPos as int == s.dataLen - 1;
    s.(phase := ReadByte2, log := s.log + [ReadCmd(first, last)])
  }

  /** A waiting phase whose hardware condition is not met. */
  function StepWait(s: Engine, hw: Hw): (r: (Engine, bool))
    requires Valid(s)
  {
    TimeoutOrAbort(s, hw)
  }

  /** The recovery phases: pulse the reset pin low, then high, then wait
   *  (i2c.c:156-180). */
  function StepRecover(s: Engine, hw: Hw): (r: (Engine, bool))
    requires s.phase == Fail || s.phase == FailWait1 || s.phase == FailWait2
  {
    if s.phase == Fail then (s.(phase := FailWait1, log := s.log + [ResetPin(false)]), false)
    else if s.phase == FailWait1 then
      if hw.timedOut then (s.(phase := FailWait2, log := s.log + [ResetPin(true)]), true)
      else (s, false)
    else if hw.timedOut then (s.(phase := FailRecover), false) else (s, false)
  }

  /** One call of i2c_engine_run (i2c.c:25-186): the new state and whether
   *  the engine made progress on the bus. */
  function Step(s: Engine, hw: Hw): (r: (Engine, bool))
    requires Valid(s)
    ensures r.0.program == s.program && r.0.i2cAddr == s.i2cAddr && r.0.dstOff == s.dstOff
    ensures s.log <= r.0.log
  {
    match s.phase
    case Idle => (StepIdle(s), false)
    case StartWrite =>
      (s.(phase := WriteByte, log := s.log + [SetTarget(s.i2cAddr)]), true)
    case WriteByte =>
      if hw.txEmpty then ValidWriteInBounds(s); (StepWriteByte(s, hw), true) else StepWait(s, hw)
    case WriteEnd => StepEnd(s, hw)
    case ReadByte =>
      if hw.writeAvailable then (StepReadByte(s), true) else StepWait(s, hw)
    case ReadByte2 =>
      if hw.readAvailable then (StepReadByte2(s, hw), true) else StepWait(s, hw)
    case ReadEnd => StepEnd(s, hw)
    case Fail => StepRecover(s, hw)
    case FailWait1 => StepRecover(s, hw)
    case FailWait2 => StepRecover(s, hw)
    case FailRecover => (s, false)
    case Wait => (s, false)
  }

  /** Every step keeps the engine's position consistent with its phase and
   *  program: the commands stay well-formed and the indices in range. */
  lemma StepValid(s: Engine, hw: Hw)
    requires Valid(s)
    ensures Valid(Step(s, hw).0)
  {
    match s.phase
    case Idle => IdleValid(s);
    case StartWrite => StartValid(s);
    case WriteByte =>
      if hw.txEmpty {
        StepWriteByteValid(s, hw);
      } else {
        WaitValid(s, hw);
      }
    case WriteEnd => EndValid(s, hw);
    case ReadByte =>
      if hw.writeAvailable {
        ReadByteValid(s);
      } else {
        WaitValid(s, hw);
      }
    case ReadByte2 =>
      if hw.readAvailable {
        ReadByte2Valid(s, hw);
      } else {
        WaitValid(s, hw);
      }
    case ReadEnd => EndValid(s, hw);
    case Fail =>
    case FailWait1 =>
    case FailWait2 =>
    case FailRecover =>
    case Wait =>
  }

  lemma IdleValid(s: Engine)
    requires Valid(s) && s.phase == Idle
    ensures Valid(StepIdle(s))
  {
  }

  lemma StartValid(s: Engine)
    requires Valid(s) && s.phase == StartWrite
    ensures Valid(s.(phase := WriteByte, log := s.log + [SetTarget(s.i2cAddr)]))
  {
  }

  lemma EndValid(s: Engine, hw: Hw)
    requires Valid(s) && (s.phase == WriteEnd || s.phase == ReadEnd)
    ensures Valid(StepEnd(s, hw).0)
  {
  }

  lemma ReadByteValid(s: Engine)
    requires Valid(s) && s.phase == ReadByte
    ensures Valid(StepReadByte(s))
  {
  }

  lemma ReadByte2Valid(s: Engine, hw: Hw)
    requires Valid(s) && s.phase == ReadByte2
    ensures Valid(StepReadByte2(s, hw))
  {
  }

  lemma WaitValid(s: Engine, hw: Hw)
    requires Valid(s)
    ensures Valid(StepWait(s, hw).0)
  {
    if !StepWait(s, hw).1 {
      assert StepWait(s, hw).0 == s.(abortReason := 0);
    }
  }

  /** struct i2c_engine_state, updated in place by the i2c_engine_* calls.
   *  The destination pointer is an array and an offset into it. */
  class I2cEngineState {
    var phase: Phase
    var dataPos: u8
    var dataLen: nat
    var isRead: bool
    var i2cAddr: u8
    var abortReason: u8
    var program: seq<u8>
    var dataPtr: Option<nat>
    var dst: array?<u8>
    var dstOff: nat
    var log: seq<BusOp>

    function State(): (s: Engine)
      reads this, dst
    {
      Engine(phase, dataPos, dataLen, isRead, i2cAddr, abortReason, program, dataPtr,
        if dst == null then None else Some(dst[..]), dstOff, log)
    }

    /** i2c_engine_init (i2c.c:7-13), which ends with i2c_engine_reset. */
    constructor ()
      ensures State() == Init() && dst == null
    {
      phase, dataPos, dataLen, isRead, i2cAddr, abortReason := Fail, 0, 0, false, 0, 0;
      program, dataPtr, dst, dstOff, log := [], None, null, 0, [];
    }

    /** i2c_engine_reset (i2c.c:15-17). */
    method Reset()
      modifies this
      ensures State() == old(State()).(phase := Fail) && dst == old(dst)
    {
      phase := Fail;
    }

    /** i2c_engine_set_sequence (i2c.c:19-23). */
    method SetSequence(addr: u8, src: seq<u8>, d: array?<u8>, off: nat)
      modifies this
      ensures dst == d
      ensures State() == WithSequence(old(State()), addr, src, if d == null then None else Some(d[..]), off)
    {
      i2cAddr := addr;
      program := src;
      dataPtr := Some(0);
      dst := d;
      dstOff := off;
    }

    /** i2c_engine_clear_fault (i2c.h:50-52). */
    method ClearFault()
      modifies this
      ensures State() == old(State()).(phase := Idle) && dst == old(dst)
    {
      phase := Idle;
    }

    /** i2c_engine_run (i2c.c:25-186). */
    method Run(hw: Hw) returns (progress: bool)
      requires Valid(State())
      modifies this, dst
      ensures dst == old(dst)
      ensures (State(), progress) == Step(old(State()), hw)
    {
      match phase
      case Idle =>
        progress := RunIdle();
      case StartWrite =>
        progress := SelectTarget();
      case WriteByte =>
        if hw.txEmpty {
          ValidWriteInBounds(State());
          progress := SendByte(hw);
        } else {
          progress := TimeoutOrAbortStep(hw);
        }
      case WriteEnd =>
        progress := AwaitStop(hw);
      case ReadByte =>
        if hw.writeAvailable {
          progress := RequestByte();
        } else {
          progress := TimeoutOrAbortStep(hw);
        }
      case ReadByte2 =>
        if hw.readAvailable {
          progress := StoreByte(hw);
        } else {
          progress := TimeoutOrAbortStep(hw);
        }
      case ReadEnd =>
        progress := AwaitStop(hw);
      case Fail =>
        progress := Recover(hw);
      case FailWait1 =>
        progress := Recover(hw);
      case FailWait2 =>
        progress := Recover(hw);
      case FailRecover =>
        progress := false;
      case Wait =>
        progress := false;
    }

    /** The START_WRITE case: address the target (i2c.c:41-46). */
    method SelectTarget() returns (progress: bool)
      modifies this
      ensures dst == old(dst)
      ensures State() == old(State()).(phase := WriteByte, log := old(log) + [SetTarget(i2cAddr)]) && progress
    {
      log := log + [SetTarget(i2cAddr)];
      phase := WriteByte;
      return true;
    }

    /** The WRITE_END and READ_END cases. */
    method AwaitStop(hw: Hw) returns (progress: bool)
      requires Valid(State()) && (phase == WriteEnd || phase == ReadEnd)
      modifies this
      ensures dst == old(dst)
      ensures (State(), progress) == StepEnd(old(State()), hw)
    {
      if hw.stopDet {
        if phase == WriteEnd {
          dataPtr := Some(dataPtr.value + dataLen);
        }
        phase := Idle;
        return true;
      } else if hw.timedOut {
        phase := Fail;
        abortReason := 0;
        return true;
      }
      return false;
    }

    /** The READ_BYTE case with room in the command FIFO. */
    method RequestByte() returns (progress: bool)
      requires Valid(State()) && phase == ReadByte
      modifies this
      ensures dst == old(dst)
      ensures State() == StepReadByte(old(State())) && progress
    {
      var first := dataPos == 0;
      var last := dataPos as int == dataLen - 1;
      log := log + [ReadCmd(first, last)];
      phase := ReadByte2;
      return true;
    }

    /** The FAIL, FAIL_WAIT1 and FAIL_WAIT2 cases. */
    method Recover(hw: Hw) returns (progress: bool)
      requires phase == Fail || phase == FailWait1 || phase == FailWait2
      modifies this
      ensures dst == old(dst)
      ensures (State(), progress) == StepRecover(old(State()), hw)
    {
      if phase == Fail {
        log := log + [ResetPin(false)];
        phase := FailWait1;
        return false;
      } else if phase == FailWait1 {
        if hw.timedOut {
          log := log + [ResetPin(true)];
          phase := FailWait2;
          return true;
        }
        return false;
      }
      if hw.timedOut {
        phase := FailRecover;
      }
      return false;
    }

    /** The IDLE case: end the program at a zero header, else decode the header. */
    method RunIdle() returns (progress: bool)
      requires Valid(State()) && phase == Idle
      modifies this
      ensures dst == old(dst)
      ensures State() == StepIdle(old(State())) && !progress
    {
      if dataPtr.None? {
        return false;
      }
      var h := program[dataPtr.value];
      if h == 0 {
        dataPtr := None;
        return false;
      }
      dataPos := 0;
      dataLen := Len7(h);
      isRead := h >= 0x80;
      phase := StartWrite;
      dataPtr := Some(dataPtr.value + 1);
      return false;
    }

    /** The WRITE_BYTE case with the transmit FIFO empty. */
    method SendByte(hw: Hw) returns (progress: bool)
      requires WriteInBounds(State())
      modifies this
      ensures dst == old(dst)
      ensures State() == StepWriteByte(old(State()), hw) && progress
    {
      ghost var s0 := State();
      var i := dataPtr.value;
      var first := dataPos == 0;
      var last := dataPos as int == dataLen - 1 && !isRead;
      log := log + [WriteCmd(program[i + dataPos as int], first && hw.restartOnNext, last)];
      var pos := dataPos + 1;
      if pos as int < dataLen {
        dataPos := pos;
      } else if isRead {
        dataPtr, dataLen, dataPos, phase := Some(i + dataLen + 1), Len7(program[i + dataLen]), 0, ReadByte;
      } else {
        dataPos, phase := pos, WriteEnd;
      }
      assert State() == StepWriteByte(s0, hw);
      return true;
    }

    /** The READ_BYTE2 case with a received byte available. */
    method StoreByte(hw: Hw) returns (progress: bool)
      requires Valid(State()) && phase == ReadByte2
      modifies this, dst
      ensures dst == old(dst)
      ensures State() == StepReadByte2(old(State()), hw) && progress
    {
      dst[dstOff + dataPos as int] := U8(hw.dataCmd);
      dataPos := dataPos + 1;
      if dataPos as int == dataLen {
        phase := ReadEnd;
      } else {
        phase := ReadByte;
      }
      return true;
    }

    /** The timeout and abort checks shared by the waiting phases. */
    method TimeoutOrAbortStep(hw: Hw) returns (progress: bool)
      modifies this
      ensures (State(), progress) == TimeoutOrAbort(old(State()), hw)
      ensures dst == old(dst)
    {
      if hw.timedOut {
        phase := Fail;
        abortReason := 0;
        return true;
      }
      abortReason := U8(hw.abortSource);
      if abortReason != 0 {
        phase := Fail;
        return true;
      }
      return false;
    }
  }
}

/** What the I2C engine promises, proved of its step function. */
module I2cEngineProps {
  import opened Wrappers
  import opened CInt
  import opened I2cEngine

  /** A zero header ends the program: the data pointer becomes NULL. */
  lemma ZeroHeaderEndsProgram(s: Engine, hw: Hw)
    requires Valid(s) && s.phase == Idle && s.dataPtr.Some? && s.program[s.dataPtr.value] == 0
    ensures IsIdle(Step(s, hw).0) && !Step(s, hw).1
  {
  }

  /** A non-zero header b gives data_len = b & 0x7F, is_read = b >> 7,
   *  data_pos = 0 and START_WRITE, and data_ptr skips the header. */
  lemma HeaderDecoded(s: Engine, hw: Hw)
    requires Valid(s) && s.phase == Idle && s.dataPtr.Some? && s.program[s.dataPtr.value] != 0
    ensures var b := s.program[s.dataPtr.value]; var t := Step(s, hw).0;
      && t.phase == StartWrite && t.dataLen == Len7(b) && 0 < t.dataLen < 0x80
      && t.isRead == (b / 0x80 == 1) && t.dataPos == 0
      && t.dataPtr == Some(s.dataPtr.value + 1)
  {
  }

  /** WRITE_BYTE sends the next byte of the command; after the last one it
   *  goes to READ_BYTE, with the following byte as the read length, or to
   *  WRITE_END. */
  lemma WriteByteSends(s: Engine, hw: Hw)
    requires Valid(s) && s.phase == WriteByte && hw.txEmpty
    ensures var t := Step(s, hw).0; var i := s.dataPtr.value;
      && Step(s, hw).1
      && t.log == s.log + [WriteCmd(s.program[i + s.dataPos as int],
                                    s.dataPos == 0 && hw.restartOnNext,
                                    s.dataPos as int == s.dataLen - 1 && !s.isRead)]
      && (s.dataPos as int + 1 < s.dataLen ==> t.phase == WriteByte && t.dataPos as int == s.dataPos as int + 1)
      && (s.dataPos as int + 1 == s.dataLen && s.isRead ==>
            t.phase == ReadByte && t.dataPos == 0 && t.dataLen == Len7(s.program[i + s.dataLen])
            && t.dataPtr == Some(i + s.dataLen + 1))
      && (s.dataPos as int + 1 == s.dataLen && !s.isRead ==> t.phase == WriteEnd)
  {
  }

  /** READ_BYTE2 stores each received byte at dst[data_pos], and after
   *  data_len bytes moves to READ_END. */
  lemma ReadByteStores(s: Engine, hw: Hw)
    requires Valid(s) && s.phase == ReadByte2 && hw.readAvailable
    ensures var t := Step(s, hw).0;
      && t.dst == Some(s.dst.value[s.dstOff + s.dataPos as int := U8(hw.dataCmd)])
      && t.dataPos as int == s.dataPos as int + 1
      && (t.phase == ReadEnd <==> t.dataPos as int == s.dataLen)
      && (t.phase != ReadEnd ==> t.phase == ReadByte)
  {
  }

  /** After a completed write-only command data_ptr is at the next header. */
  lemma WriteCommandEndsAtNextHeader(s: Engine, hw: Hw)
    requires Valid(s) && s.phase == WriteEnd && hw.stopDet
    ensures var t := Step(s, hw).0;
      && t.phase == Idle && t.dataPtr == Some(s.dataPtr.value + s.dataLen)
      && WellFormed(t.program, t.dataPtr.value, Room(t.dst, t.dstOff))
  {
  }

  /** After a completed read data_ptr is already at the next header. */
  lemma ReadCommandEndsAtNextHeader(s: Engine, hw: Hw)
    requires Valid(s) && s.phase == ReadEnd && hw.stopDet
    ensures var t := Step(s, hw).0;
      && t.phase == Idle && t.dataPtr == s.dataPtr
      && WellFormed(t.program, t.dataPtr.value, Room(t.dst, t.dstOff))
  {
  }

  predicate Waiting(p: Phase)
  {
    p == WriteByte || p == WriteEnd || p == ReadByte || p == ReadByte2 || p == ReadEnd
  }

  /** A timeout while waiting on the bus fails with abort reason 0. */
  lemma TimeoutFails(s: Engine, hw: Hw)
    requires Valid(s) && Waiting(s.phase) && hw.timedOut
    requires !hw.txEmpty && !hw.stopDet && !hw.writeAvailable && !hw.readAvailable
    ensures Step(s, hw) == (s.(phase := Fail, abortReason := 0), true)
  {
  }

  /** A non-zero abort source (as the uint8_t field keeps it) fails too. */
  lemma AbortFails(s: Engine, hw: Hw)
    requires Valid(s) && (s.phase == WriteByte || s.phase == ReadByte || s.phase == ReadByte2)
    requires !hw.txEmpty && !hw.writeAvailable && !hw.readAvailable && !hw.timedOut
    ensures Step(s, hw).0.phase == Fail <==> U8(hw.abortSource) != 0
    ensures Step(s, hw).0.abortReason == U8(hw.abortSource)
  {
  }

  /** Recovery runs FAIL, FAIL_WAIT1, FAIL_WAIT2, FAIL_RECOVER; FAIL moves on
   *  unconditionally, the waits on their timeout. */
  lemma FailureRecovery(s: Engine, hw: Hw)
    requires Valid(s)
    ensures s.phase == Fail ==> Step(s, hw).0.phase == FailWait1
    ensures s.phase == FailWait1 ==> Step(s, hw).0.phase == if hw.timedOut then FailWait2 else FailWait1
    ensures s.phase == FailWait2 ==> Step(s, hw).0.phase == if hw.timedOut then FailRecover else FailWait2
  {
  }

  /** FAIL_RECOVER is absorbing until the fault is cleared. */
  lemma {:induction false} RecoverIsAbsorbing(s: Engine, hws: seq<Hw>)
    requires Valid(s) && IsFault(s)
    ensures RunAll(s, hws) == s
  {
    if hws != [] {
      RecoverIsAbsorbing(s, hws[..|hws| - 1]);
    }
  }

  /** The state after a sequence of calls. */
  function RunAll(s: Engine, hws: seq<Hw>): (t: Engine)
    requires Valid(s)
    ensures Valid(t)
  {
    if hws == [] then s
    else
      var t := RunAll(s, hws[..|hws| - 1]);
      StepValid(t, hws[|hws| - 1]);
      Step(t, hws[|hws| - 1]).0
  }

  /** Clearing the fault returns to IDLE with the same program position,
   *  so the engine is idle again only once its data pointer is NULL. */
  lemma ClearFaultIdle(s: Engine)
    ensures IsIdle(s.(phase := Idle)) <==> s.dataPtr.None?
  {
  }
}
