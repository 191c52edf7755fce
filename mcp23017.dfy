/**
 * The MCP23017 I/O-expander poller of src/rp2040/mcp23017.c. Two I2C
 * programs, a setup sequence (pin directions and pull-ups) and a run
 * sequence (write outputs, read inputs), are patched with one chip's
 * settings and handed to the I2C engine; i2c_gpio_poll steps the engine and
 * moves round-robin to the next chip whenever the engine is idle.
 */
module Mcp23017 {
  import opened Wrappers
  import opened CInt
  import opened I2cEngine

  /** The number of expander slots; gpio.c sizes its address table with
   *  four entries (src/rp2040/gpio.c:21-22). */
  const MAX_I2C_MCP: nat := 4

  const I2CGPIO_TYPE_NONE: u8 := 0
  const I2CGPIO_TYPE_MCP23017: u8 := 1
  const PLACEHOLDER: u8 := 0
  const I2C_END_CMD: u8 := 0
  const I2C_ADDR: u8 := 32

  /** I2C_WRITE_CMD(n, bytes...): the length, then the bytes. */
  function I2cWriteCmd(data: seq<u8>): (c: seq<u8>)
    requires 0 < |data| < 0x80
    ensures |c| == |data| + 1 && c[0] == |data| && c[1..] == data
  {
    [|data| as u8] + data
  }

  /** I2C_WRITE_AND_READ_CMD(r, n, bytes...): 0x80 | n, the bytes, then r. */
  function I2cWriteAndReadCmd(readLen: u8, data: seq<u8>): (c: seq<u8>)
    requires 0 < |data| < 0x80
    ensures |c| == |data| + 2 && c[0] == 0x80 + |data| && c[1..|data| + 1] == data && c[|data| + 1] == readLen
  {
    [(0x80 + |data|) as u8] + data + [readLen]
  }

  /** mcp23017_setup_sequence with its four placeholders filled in
   *  (mcp23017.c:9-13): directions at 2 and 3, pull-ups at 6 and 7. */
  function SetupSequence(in0: u8, in1: u8, pu0: u8, pu1: u8): (p: seq<u8>)
    ensures |p| == 9 && p[2] == in0 && p[3] == in1 && p[6] == pu0 && p[7] == pu1
  {
    I2cWriteCmd([0x00, in0, in1]) + I2cWriteCmd([0x0C, pu0, pu1]) + [I2C_END_CMD]
  }

  /** mcp23017_run_sequence with its two placeholders filled in
   *  (mcp23017.c:15-19): output values at 2 and 3. */
  function RunSequence(out0: u8, out1: u8): (p: seq<u8>)
    ensures |p| == 8 && p[2] == out0 && p[3] == out1
  {
    I2cWriteCmd([0x12, out0, out1]) + I2cWriteAndReadCmd(2, [0x12]) + [I2C_END_CMD]
  }

  /** struct i2c_gpio_config without input_data, which lives in the
   *  poller's input array so that the engine can write into it. */
  datatype McpSlot = McpSlot(
    inputBitmask: seq<u8>,
    pullupBitmask: seq<u8>,
    outputData: seq<u8>,
    i2cAddress: u8,
    slotType: u8)

  predicate SlotOk(c: McpSlot)
  {
    |c.inputBitmask| == 2 && |c.pullupBitmask| == 2 && |c.outputData| == 2
  }

  /** A slot as the loop in i2c_gpio_init leaves it (mcp23017.c:49-61). */
  const RESET_SLOT: McpSlot := McpSlot([0x7F, 0x7F], [0x7F, 0x7F], [0, 0], 0xFF, I2CGPIO_TYPE_NONE)

  /** struct i2c_gpio_state as a value; `inputData` holds the two input
   *  bytes of every slot, slot k at 2k and 2k + 1. */
  datatype Poller = Poller(
    engine: Engine,
    inputData: seq<u8>,
    slots: seq<McpSlot>,
    curChip: nat,
    setupSequence: seq<u8>,
    runSequence: seq<u8>)

  /** The fixed bytes of the setup sequence: everything but the placeholders. */
  predicate SetupShape(p: seq<u8>)
  {
    |p| == 9 && p[0] == 3 && p[1] == 0x00 && p[4] == 3 && p[5] == 0x0C && p[8] == I2C_END_CMD
  }

  /** The fixed bytes of the run sequence: everything but the placeholders. */
  predicate RunShape(p: seq<u8>)
  {
    |p| == 8 && p[0] == 3 && p[1] == 0x12 && p[4] == 0x81 && p[5] == 0x12 && p[6] == 2 && p[7] == I2C_END_CMD
  }

  /** The shape of the poller's data, apart from the engine's own state. */
  predicate Layout(m: Poller)
  {
    && |m.inputData| == 2 * MAX_I2C_MCP && |m.slots| == MAX_I2C_MCP && m.curChip < MAX_I2C_MCP
    && (forall k :: 0 <= k < MAX_I2C_MCP ==> SlotOk(m.slots[k]))
    && SetupShape(m.setupSequence) && RunShape(m.runSequence)
    && (m.engine.dst.None? || (m.engine.dst == Some(m.inputData) && m.engine.dstOff % 2 == 0 && m.engine.dstOff < 2 * MAX_I2C_MCP))
  }

  predicate PollerOk(m: Poller)
  {
    Layout(m) && Valid(m.engine)
  }

  /** i2c_gpio_next_chip (mcp23017.c:69-85). */
  function NextChip(m: Poller): (r: Poller)
    requires Layout(m) && m.engine.phase == Idle
    ensures Layout(r) && r.engine.phase == Idle
    ensures r.curChip == (m.curChip + 1) % MAX_I2C_MCP
  {
    var c := (m.curChip + 1) % MAX_I2C_MCP;
    var cfg := m.slots[c];
    if cfg.slotType == I2CGPIO_TYPE_MCP23017 then
      var run := m.runSequence[2 := cfg.outputData[0]][3 := cfg.outputData[1]];
      var setup := m.setupSequence[2 := cfg.inputBitmask[0]][3 := cfg.inputBitmask[1]]
                                  [6 := cfg.pullupBitmask[0]][7 := cfg.pullupBitmask[1]];
      m.(curChip := c, runSequence := run, setupSequence := setup,
         engine := WithSequence(m.engine, cfg.i2cAddress, run, Some(m.inputData), 2 * c))
    else
      m.(curChip := c)
  }

  /** Moving to the next chip keeps the engine valid: a run sequence is a
   *  well-formed program whose read fits the chip's two input bytes. */
  lemma NextChipOk(m: Poller)
    requires PollerOk(m) && m.engine.phase == Idle
    ensures PollerOk(NextChip(m))
  {
    var c := (m.curChip + 1) % MAX_I2C_MCP;
    var r := NextChip(m);
    if m.slots[c].slotType == I2CGPIO_TYPE_MCP23017 {
      RunShapeWellFormed(r.runSequence, 2 * MAX_I2C_MCP - 2 * c);
      WithSequenceValid(m.engine, r.engine.i2cAddr, r.runSequence, Some(m.inputData), 2 * c);
      assert r.engine == WithSequence(m.engine, r.engine.i2cAddr, r.runSequence, Some(m.inputData), 2 * c).(phase := Idle);
    }
  }

  /** After a step of the engine, its destination memory is the input array again. */
  function WithEngine(m: Poller, e: Engine): (r: Poller)
    requires PollerOk(m) && Valid(e) && e.dstOff == m.engine.dstOff
    requires m.engine.dst.None? ==> e.dst.None?
    requires m.engine.dst.Some? ==> e.dst.Some? && |e.dst.value| == |m.inputData|
    ensures PollerOk(r)
  {
    if e.dst.Some? then m.(engine := e, inputData := e.dst.value) else m.(engine := e)
  }

  /**
   * i2c_gpio_poll (mcp23017.c:87-101). hw1 is what the first engine step
   * sees; hw2 is what the step after a fault recovery sees.
   */
  function PollStep(m: Poller, hw1: Hw, hw2: Hw): (r: Poller)
    requires PollerOk(m)
    ensures PollerOk(r)
  {
    var addr := m.slots[m.curChip].i2cAddress;
    var (e1, progress) := Step(m.engine, hw1);
    StepValid(m.engine, hw1);
    StepKeepsDst(m.engine, hw1);
    var m1 := WithEngine(m, e1);
    if progress then m1 else PollRest(m1, addr, hw2)
  }

  /** i2c_gpio_poll after an engine step without progress: an idle engine
   *  moves to the next chip, a failed one restarts on the setup sequence
   *  for the chip at `addr` and takes one step. */
  function PollRest(m: Poller, addr: u8, hw: Hw): (r: Poller)
    requires PollerOk(m)
    ensures PollerOk(r)
  {
    if IsIdle(m.engine) then NextChipOk(m); NextChip(m)
    else if IsFault(m.engine) then
      SetupShapeWellFormed(m.setupSequence);
      WithSequenceValid(m.engine, addr, m.setupSequence, None, 0);
      var e2 := WithSequence(m.engine, addr, m.setupSequence, None, 0).(phase := Idle);
      StepValid(e2, hw);
      m.(engine := Step(e2, hw).0)
    else m
  }

  /** The engine's step never moves its destination, and a read writes
   *  within the same memory. */
  lemma StepKeepsDst(e: Engine, hw: Hw)
    requires Valid(e)
    ensures Step(e, hw).0.dstOff == e.dstOff
    ensures e.dst.None? ==> Step(e, hw).0.dst.None?
    ensures e.dst.Some? ==> Step(e, hw).0.dst.Some? && |Step(e, hw).0.dst.value| == |e.dst.value|
  {
  }

  /** The shapes are exactly the patched sequences: a sequence has the
   *  shape iff it is the sequence with its own placeholder bytes. */
  lemma SetupShapeIsSequence(p: seq<u8>)
    requires |p| == 9
    ensures SetupShape(p) <==> p == SetupSequence(p[2], p[3], p[6], p[7])
  {
    if SetupShape(p) {
      assert p == [3, 0x00, p[2], p[3], 3, 0x0C, p[6], p[7], 0];
    }
  }

  lemma RunShapeIsSequence(p: seq<u8>)
    requires |p| == 8
    ensures RunShape(p) <==> p == RunSequence(p[2], p[3])
  {
    if RunShape(p) {
      assert p == [3, 0x12, p[2], p[3], 0x81, 0x12, 2, 0];
    }
  }

  /** A run sequence is a well-formed program whose read fits in two bytes. */
  lemma RunShapeWellFormed(p: seq<u8>, room: nat)
    requires RunShape(p) && room >= 2
    ensures WellFormed(p, 0, room)
  {
    assert WellFormed(p, 7, room);
    assert WellFormed(p, 4, room);
  }

  /** A setup sequence is a well-formed program with no reads. */
  lemma SetupShapeWellFormed(p: seq<u8>)
    requires SetupShape(p)
    ensures WellFormed(p, 0, 0)
  {
    assert WellFormed(p, 8, 0);
    assert WellFormed(p, 4, 0);
  }

  /** struct i2c_gpio_state (i2c.h:65-69), updated in place. */
  class I2cGpio {
    const engine: I2cEngineState
    const inputData: array<u8>
    var slots: seq<McpSlot>
    var curChip: nat
    var setupSequence: seq<u8>
    var runSequence: seq<u8>

    function State(): (m: Poller)
      reads this, engine, engine.dst, inputData
    {
      Poller(engine.State(), inputData[..], slots, curChip, setupSequence, runSequence)
    }

    predicate Valid()
      reads this, engine, engine.dst, inputData
    {
      && (engine.dst == null || engine.dst == inputData)
      && PollerOk(State())
    }

    /** The static state before i2c_gpio_init: the two sequences with their
     *  placeholders and an engine fresh from i2c_engine_init. */
    constructor ()
      ensures Valid() && fresh(engine) && fresh(inputData)
      ensures setupSequence == SetupSequence(0, 0, 0, 0) && runSequence == RunSequence(0, 0)
    {
      engine := new I2cEngineState();
      inputData := new u8[2 * MAX_I2C_MCP](_ => 0);
      slots := seq(MAX_I2C_MCP, _ => RESET_SLOT);
      curChip := 0;
      setupSequence := SetupSequence(0, 0, 0, 0);
      runSequence := RunSequence(0, 0);
    }

    /** i2c_gpio_init (mcp23017.c:48-67) without the hardware set-up of
     *  mcp23017_init: every slot reset, then slot 0 an MCP23017 at 32. */
    method Init()
      requires Valid()
      modifies this, inputData
      ensures Valid()
      ensures slots == InitialSlots() && inputData[..] == seq(2 * MAX_I2C_MCP, _ => 0)
      ensures curChip == MAX_I2C_MCP - 1
      ensures setupSequence == old(setupSequence) && runSequence == old(runSequence)
    {
      ghost var e0 := engine.State();
      ResetSlots();
      curChip := MAX_I2C_MCP - 1;
      slots := slots[0 := slots[0].(slotType := I2CGPIO_TYPE_MCP23017, i2cAddress := I2C_ADDR)];
      assert slots == InitialSlots();
      if engine.dst != null {
        DstContentsIrrelevant(e0, inputData[..]);
        assert engine.State() == e0.(dst := Some(inputData[..]));
      }
      assert PollerOk(State());
    }

    /** The loop of i2c_gpio_init (mcp23017.c:49-61): every slot gets type
     *  NONE, address 0xFF, zero data and all-0x7F masks. */
    method ResetSlots()
      requires |slots| == MAX_I2C_MCP && inputData.Length == 2 * MAX_I2C_MCP
      modifies this, inputData
      ensures slots == seq(MAX_I2C_MCP, _ => RESET_SLOT) && inputData[..] == seq(2 * MAX_I2C_MCP, _ => 0)
      ensures setupSequence == old(setupSequence) && runSequence == old(runSequence) && curChip == old(curChip)
    {
      var i := 0;
      while i < MAX_I2C_MCP
        invariant 0 <= i <= MAX_I2C_MCP && |slots| == MAX_I2C_MCP
        invariant forall k :: 0 <= k < i ==> slots[k] == RESET_SLOT
        invariant forall j :: 0 <= j < 2 * i ==> inputData[j] == 0
        invariant setupSequence == old(setupSequence) && runSequence == old(runSequence) && curChip == old(curChip)
      {
        slots := slots[i := RESET_SLOT];
        inputData[2 * i] := 0;
        inputData[2 * i + 1] := 0;
        i := i + 1;
      }
    }

    /** i2c_gpio_poll (mcp23017.c:87-101). */
    method Poll(hw1: Hw, hw2: Hw)
      requires Valid()
      modifies this, engine, inputData
      ensures Valid()
      ensures State() == PollStep(old(State()), hw1, hw2)
    {
      var addr := slots[curChip].i2cAddress;
      ghost var m0 := State();
      StepValid(m0.engine, hw1);
      StepKeepsDst(m0.engine, hw1);
      var progress := engine.Run(hw1);
      assert State() == WithEngine(m0, Step(m0.engine, hw1).0);
      if !progress {
        AfterIdleRun(addr, hw2);
      }
    }

    /** The rest of i2c_gpio_poll once the engine made no progress: an idle
     *  engine moves on to the next chip, a failed one is restarted. */
    method AfterIdleRun(addr: u8, hw: Hw)
      requires Valid()
      modifies this, engine
      ensures Valid()
      ensures State() == PollRest(old(State()), addr, hw)
    {
      if engine.phase == Idle && engine.dataPtr.None? {
        NextChipStep();
      } else if engine.phase == FailRecover {
        Restart(addr, hw);
      }
    }

    /** The fault branch of i2c_gpio_poll: reload the setup sequence with no
     *  destination, clear the fault and take one step. */
    method Restart(addr: u8, hw: Hw)
      requires Valid() && engine.phase == FailRecover
      modifies engine
      ensures Valid()
      ensures State() == PollRest(old(State()), addr, hw)
    {
      ghost var m0 := State();
      SetupShapeWellFormed(setupSequence);
      engine.SetSequence(addr, setupSequence, null, 0);
      engine.ClearFault();
      ghost var e2 := engine.State();
      assert e2 == WithSequence(m0.engine, addr, m0.setupSequence, None, 0).(phase := Idle);
      var _ := engine.Run(hw);
      StepValid(e2, hw);
      assert PollRest(m0, addr, hw) == m0.(engine := Step(e2, hw).0);
      assert State() == m0.(engine := Step(e2, hw).0);
    }

    /** i2c_gpio_next_chip (mcp23017.c:69-85). */
    method NextChipStep()
      requires Valid() && engine.phase == Idle
      modifies this, engine
      ensures Valid()
      ensures State() == NextChip(old(State()))
    {
      ghost var m0 := State();
      curChip := (curChip + 1) % MAX_I2C_MCP;
      var cfg := slots[curChip];
      assert cfg == m0.slots[(m0.curChip + 1) % MAX_I2C_MCP];
      if cfg.slotType == I2CGPIO_TYPE_MCP23017 {
        runSequence := runSequence[2 := cfg.outputData[0]][3 := cfg.outputData[1]];
        setupSequence := setupSequence[2 := cfg.inputBitmask[0]][3 := cfg.inputBitmask[1]]
                                      [6 := cfg.pullupBitmask[0]][7 := cfg.pullupBitmask[1]];
        ghost var run := m0.runSequence[2 := cfg.outputData[0]][3 := cfg.outputData[1]];
        ghost var setup := m0.setupSequence[2 := cfg.inputBitmask[0]][3 := cfg.inputBitmask[1]]
                                           [6 := cfg.pullupBitmask[0]][7 := cfg.pullupBitmask[1]];
        assert runSequence == run && setupSequence == setup;
        engine.SetSequence(cfg.i2cAddress, runSequence, inputData, 2 * curChip);
        ghost var e := WithSequence(m0.engine, cfg.i2cAddress, run, Some(m0.inputData), 2 * curChip);
        assert engine.State() == e;
        assert NextChip(m0) == m0.(curChip := curChip, runSequence := run, setupSequence := setup, engine := e);
        assert State() == m0.(curChip := curChip, runSequence := runSequence, setupSequence := setupSequence, engine := e);
      } else {
        assert NextChip(m0) == m0.(curChip := curChip);
        assert State() == m0.(curChip := curChip);
      }
      NextChipOk(m0);
    }
  }

  /** The slots after i2c_gpio_init. */
  function InitialSlots(): (s: seq<McpSlot>)
    ensures |s| == MAX_I2C_MCP
    ensures s[0].slotType == I2CGPIO_TYPE_MCP23017 && s[0].i2cAddress == I2C_ADDR
    ensures forall k :: 1 <= k < MAX_I2C_MCP ==> s[k] == RESET_SLOT
  {
    [RESET_SLOT.(slotType := I2CGPIO_TYPE_MCP23017, i2cAddress := I2C_ADDR), RESET_SLOT, RESET_SLOT, RESET_SLOT]
  }
}

/** What the poller promises, proved of its step functions. */
module Mcp23017Props {
  import opened Wrappers
  import opened CInt
  import opened I2cEngine
  import opened Mcp23017

  /** The command encodings: [n, bytes] and [0x80 | n, bytes, read_len],
   *  and the header decodes back to the write length and the read flag. */
  lemma CommandEncodingDecodes(data: seq<u8>, readLen: u8)
    requires 0 < |data| < 0x80
    ensures Len7(I2cWriteCmd(data)[0]) == |data| && I2cWriteCmd(data)[0] < 0x80
    ensures Len7(I2cWriteAndReadCmd(readLen, data)[0]) == |data| && I2cWriteAndReadCmd(readLen, data)[0] >= 0x80
  {
  }

  lemma CycleStep(x: int, c: int)
    requires c == x % MAX_I2C_MCP
    ensures (c + 1) % MAX_I2C_MCP == (x + 1) % MAX_I2C_MCP
  {
    ModAddBoth(x, 1, MAX_I2C_MCP);
  }

  /** n successive next-chip moves (the engine stays idle in between): the
   *  chip index advances cyclically, so MAX_I2C_MCP moves return to the start. */
  function AdvanceN(m: Poller, n: nat): (r: Poller)
    requires Layout(m) && m.engine.phase == Idle
    ensures Layout(r) && r.engine.phase == Idle
    ensures r.curChip == (m.curChip + n) % MAX_I2C_MCP
  {
    if n == 0 then
      DivModUnique(m.curChip, MAX_I2C_MCP, 0, m.curChip);
      m
    else
      var p := AdvanceN(m, n - 1);
      CycleStep(m.curChip + n - 1, p.curChip);
      NextChip(p)
  }

  /** An MCP23017 slot: the engine gets the patched run sequence, the slot's
   *  address, and its input bytes as destination. */
  lemma NextChipLoadsRunSequence(m: Poller)
    requires PollerOk(m) && m.engine.phase == Idle
    requires m.slots[(m.curChip + 1) % MAX_I2C_MCP].slotType == I2CGPIO_TYPE_MCP23017
    ensures var c := (m.curChip + 1) % MAX_I2C_MCP; var cfg := m.slots[c]; var r := NextChip(m);
      && r.engine.program == RunSequence(cfg.outputData[0], cfg.outputData[1])
      && r.engine.i2cAddr == cfg.i2cAddress && r.engine.dataPtr == Some(0)
      && r.engine.dst == Some(m.inputData) && r.engine.dstOff == 2 * c
      && r.setupSequence == SetupSequence(cfg.inputBitmask[0], cfg.inputBitmask[1], cfg.pullupBitmask[0], cfg.pullupBitmask[1])
  {
    var r := NextChip(m);
    RunShapeIsSequence(r.runSequence);
    SetupShapeIsSequence(r.setupSequence);
  }

  /** Any other slot type leaves the engine and the sequences untouched. */
  lemma NextChipSkipsOthers(m: Poller)
    requires PollerOk(m) && m.engine.phase == Idle
    requires m.slots[(m.curChip + 1) % MAX_I2C_MCP].slotType != I2CGPIO_TYPE_MCP23017
    ensures NextChip(m) == m.(curChip := (m.curChip + 1) % MAX_I2C_MCP)
  {
  }

  /** After i2c_gpio_init the first advance selects slot 0, the MCP23017 at 32. */
  lemma FirstAdvanceIsSlotZero(m: Poller)
    requires PollerOk(m) && m.engine.phase == Idle
    requires m.slots == InitialSlots() && m.curChip == MAX_I2C_MCP - 1
    ensures NextChip(m).curChip == 0 && NextChip(m).engine.i2cAddr == I2C_ADDR
    ensures NextChip(m).engine.program == RunSequence(0, 0)
  {
    RunShapeIsSequence(NextChip(m).runSequence);
  }

  /** When the engine made progress, poll does nothing else. */
  lemma PollReturnsOnProgress(m: Poller, hw1: Hw, hw2: Hw)
    requires PollerOk(m) && Step(m.engine, hw1).1
    ensures PollStep(m, hw1, hw2).engine == Step(m.engine, hw1).0
    ensures PollStep(m, hw1, hw2).curChip == m.curChip && PollStep(m, hw1, hw2).slots == m.slots
  {
  }

  /** A failed engine is restarted on the setup sequence of the current chip,
   *  with no destination, and takes its first step (reading the header). */
  lemma PollRecoversFromFault(m: Poller, hw1: Hw, hw2: Hw)
    requires PollerOk(m) && IsFault(m.engine)
    ensures var e := PollStep(m, hw1, hw2).engine;
      && e.program == m.setupSequence && e.i2cAddr == m.slots[m.curChip].i2cAddress
      && e.dst.None? && e.phase == StartWrite && e.dataPtr == Some(1) && e.dataLen == 3 && !e.isRead
    ensures PollStep(m, hw1, hw2).curChip == m.curChip
  {
  }
}
