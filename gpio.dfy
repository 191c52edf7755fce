/**
 * The GPIO table of the RP2040 firmware (src/rp2040/gpio.c): one
 * configuration per pin, the banks of 32 pins awaiting confirmation by the
 * host, the native pins driven with gpio_put, and the MCP23017 expander
 * slots that I2C pins are multiplexed onto.
 *
 * The state gpio.c touches is first described as a value, `Io`, with one
 * function per operation; the class `GpioState` then holds the same state
 * in fields and its methods, loops included, are proved to compute those
 * functions.
 */
module RpGpio {
  import opened Wrappers
  import opened CInt
  import opened Mcp23017

  /** The GPIO_TYPE_* codes gpio.c switches on; every other code is OtherType. */
  datatype GpioType =
    | NotSet
    | NativeIn | NativeInDebug
    | NativeOut | NativeOutDebug
    | I2cMcpIn | I2cMcpOut
    | OtherType

  /** struct ConfigGPIO: what a pin is, where it lives and its last value. */
  datatype GpioConfig = GpioConfig(gtype: GpioType, index: u8, address: u8, value: bool)

  /** One gpio_put(index, value) on a native pin. */
  datatype PinWrite = PinWrite(index: u8, value: bool)

  /** struct Reply_gpio: the 32 values of one bank. */
  datatype ReplyGpio = ReplyGpio(bank: u8, values: u32, confirmationPending: bool)

  /** struct Reply_gpio_config. */
  datatype ReplyGpioConfig = ReplyGpioConfig(gpioType: GpioType, gpioCount: u8, index: u8, address: u8)

  /** The largest index update_gpio_config accepts. */
  const MAX_INDEX: u8 := 32
  /** An unclaimed entry of gpio_i2c_mcp_addresses. */
  const FREE_ADDRESS: u8 := 0xFF

  /**
   * config.gpio, config.gpio_confirmation_pending, gpio_i2c_mcp_addresses,
   * the slots of i2c_gpio and the gpio_put calls made so far. MAX_GPIO is
   * |pins|, a multiple of 32 below 256 so that the uint8_t loops of
   * gpio.c terminate.
   */
  datatype Io = Io(
    pins: seq<GpioConfig>,
    pending: seq<bool>,
    mcpAddresses: seq<u8>,
    slots: seq<McpSlot>,
    writes: seq<PinWrite>)

  predicate IoOk(io: Io)
  {
    && |io.pins| == 32 * |io.pending| && |io.pins| < 0x100
    && |io.mcpAddresses| == MAX_I2C_MCP && |io.slots| == MAX_I2C_MCP
    && forall k :: 0 <= k < MAX_I2C_MCP ==> SlotOk(io.slots[k])
  }

  // ---------------------------------------------------------------------
  // Configuration table

  /** update_gpio_config on one pin: absent arguments and an index above 32 leave the field as it was. */
  function UpdatePin(c: GpioConfig, gtype: Option<GpioType>, index: Option<u8>, address: Option<u8>,
                     value: Option<bool>): GpioConfig
  {
    GpioConfig(
      if gtype.Some? then gtype.value else c.gtype,
      if index.Some? && index.value <= MAX_INDEX then index.value else c.index,
      if address.Some? then address.value else c.address,
      if value.Some? then value.value else c.value)
  }

  /** update_gpio_config (gpio.c:24-53) on the whole table. */
  function UpdateConfig(pins: seq<GpioConfig>, gpio: u8, gtype: Option<GpioType>, index: Option<u8>,
                        address: Option<u8>, value: Option<bool>): (r: seq<GpioConfig>)
    ensures |r| == |pins|
  {
    if gpio as nat >= |pins| then pins
    else pins[gpio := UpdatePin(pins[gpio], gtype, index, address, value)]
  }

  /** get_gpio_config (gpio.c:55-80): nothing for a pin beyond MAX_GPIO. */
  function ConfigOf(pins: seq<GpioConfig>, gpio: u8): Option<GpioConfig>
  {
    if gpio as nat >= |pins| then None else Some(pins[gpio])
  }

  // ---------------------------------------------------------------------
  // MCP23017 slot allocation and pin access

  /** The first position at or after i holding x. */
  function FindFrom(s: seq<u8>, x: u8, i: nat): (r: Option<nat>)
    requires i <= |s|
    ensures r.Some? ==> i <= r.value < |s| && s[r.value] == x
    ensures r.Some? ==> forall k :: i <= k < r.value ==> s[k] != x
    ensures r.None? ==> forall k :: i <= k < |s| ==> s[k] != x
    decreases |s| - i
  {
    if i == |s| then None
    else if s[i] == x then Some(i)
    else FindFrom(s, x, i + 1)
  }

  /** What gpio_i2c_mcp_alloc decides. */
  datatype Alloc = Found(slot: nat) | Claimed(slot: nat) | Full

  function AllocOf(addrs: seq<u8>, address: u8): (a: Alloc)
    ensures !a.Full? ==> a.slot < |addrs|
  {
    match FindFrom(addrs, address, 0)
    case Some(k) => Found(k)
    case None =>
      match FindFrom(addrs, FREE_ADDRESS, 0)
      case Some(f) => Claimed(f)
      case None => Full
  }

  /** The slot number gpio_i2c_mcp_alloc returns, -1 when every slot is taken. */
  function SlotNumber(a: Alloc): int
  {
    if a.Full? then -1 else a.slot
  }

  /** gpio_i2c_mcp_alloc (gpio.c:127-142): the returned slot and the new state. */
  function McpAllocOf(io: Io, address: u8): (r: (int, Io))
    requires IoOk(io)
    ensures IoOk(r.1) && r.1.pins == io.pins && r.1.pending == io.pending && r.1.writes == io.writes
  {
    var a := AllocOf(io.mcpAddresses, address);
    if a.Claimed? then
      var s := a.slot;
      (s, io.(mcpAddresses := io.mcpAddresses[s := address],
              slots := io.slots[s := io.slots[s].(i2cAddress := address)]))
    else (SlotNumber(a), io)
  }

  /** (index >> 3) & 1: which of a slot's two data bytes holds the pin. */
  function ByteOf(index: u8): (i: nat)
    ensures i < 2
  {
    ((index as bv8 >> 3) & 1) as nat
  }

  /** index & 7: the pin's bit within that byte. */
  function BitOf(index: u8): (k: bv8)
    ensures k < 8
  {
    index as bv8 & 7
  }

  /** Bit k of a byte. */
  function ByteBit(b: u8, k: bv8): bool
    requires k < 8
  {
    Bit8(b as bv8, k)
  }

  function Bit8(b: bv8, k: bv8): bool
    requires k < 8
  {
    ((b >> k) & 1) == 1
  }

  /** `b |= 1 << k` when v holds, `b &= ~(1 << k)` otherwise. */
  function SetBit(b: u8, k: bv8, v: bool): u8
    requires k < 8
  {
    SetBit8(b as bv8, k, v) as u8
  }

  function SetBit8(b: bv8, k: bv8, v: bool): bv8
    requires k < 8
  {
    var mask := (1 as bv8) << k;
    if v then b | mask else b & !mask
  }

  /** gpio_i2c_mcp_set_out_pin (gpio.c:146-163). */
  function McpOutOf(io: Io, index: u8, address: u8, v: bool): (r: Io)
    requires IoOk(io)
    ensures IoOk(r) && r.pins == io.pins && r.pending == io.pending && r.writes == io.writes
  {
    var (s, io1) := McpAllocOf(io, address);
    if s == -1 then io1
    else
      var slot := io1.slots[s];
      var i := ByteOf(index);
      io1.(slots := io1.slots[s := slot.(outputData := slot.outputData[i := SetBit(slot.outputData[i], BitOf(index), v)])])
  }

  /** gpio_i2c_mcp_get_pin (gpio.c:165-173); `input` holds every slot's two input bytes. */
  function McpPinOf(io: Io, input: seq<u8>, index: u8, address: u8): (r: (bool, Io))
    requires IoOk(io) && |input| == 2 * MAX_I2C_MCP
    ensures r.1 == McpAllocOf(io, address).1
  {
    var (s, io1) := McpAllocOf(io, address);
    if s == -1 then (false, io1)
    else (ByteBit(input[2 * s + ByteOf(index)], BitOf(index)), io1)
  }

  // ---------------------------------------------------------------------
  // gpio_set_values

  /** One turn of the loop of gpio_set_values (gpio.c:83-114): pin i of the bank. */
  function PinStep(io: Io, bank: nat, i: nat, values: u32): (r: Io)
    requires IoOk(io) && i < 32 && (bank + 1) * 32 <= |io.pins|
    ensures IoOk(r) && |r.pins| == |io.pins| && |r.pending| == |io.pending|
  {
    var g := bank * 32 + i;
    var c := io.pins[g];
    var v := Bit(values, i);
    if v == c.value then io
    else
      var io1 := io.(pending := io.pending[bank := true]);
      var io2 :=
        if c.gtype == NativeIn || c.gtype == NativeInDebug then io1.(writes := io1.writes + [PinWrite(c.index, v)])
        else if c.gtype == I2cMcpIn then McpOutOf(io1, c.index, c.address, v)
        else io1;
      io2.(pins := io2.pins[g := c.(value := v)])
  }

  /** The first j turns of the loop. */
  function BankUpTo(io: Io, bank: nat, values: u32, j: nat): (r: Io)
    requires IoOk(io) && j <= 32 && (bank + 1) * 32 <= |io.pins|
    ensures IoOk(r) && |r.pins| == |io.pins| && |r.pending| == |io.pending|
  {
    if j == 0 then io
    else PinStep(BankUpTo(io, bank, values, j - 1), bank, j - 1, values)
  }

  /** gpio_set_values (gpio.c:82-115). */
  function SetValuesOf(io: Io, bank: nat, values: u32): Io
    requires IoOk(io) && (bank + 1) * 32 <= |io.pins|
  {
    BankUpTo(io, bank, values, 32)
  }

  /** Some pin among the first j of the bank holds a value other than its bit of `values`. */
  predicate ChangedIn(pins: seq<GpioConfig>, bank: nat, values: u32, j: nat)
    requires j <= 32 && (bank + 1) * 32 <= |pins|
  {
    j > 0 && (ChangedIn(pins, bank, values, j - 1) || pins[bank * 32 + j - 1].value != Bit(values, j - 1))
  }

  /** The gpio_put calls the first j turns make: one per changed native input pin, in pin order. */
  function NativeWrites(pins: seq<GpioConfig>, bank: nat, values: u32, j: nat): seq<PinWrite>
    requires j <= 32 && (bank + 1) * 32 <= |pins|
  {
    if j == 0 then []
    else
      var c := pins[bank * 32 + j - 1];
      var v := Bit(values, j - 1);
      NativeWrites(pins, bank, values, j - 1)
        + (if v != c.value && (c.gtype == NativeIn || c.gtype == NativeInDebug) then [PinWrite(c.index, v)] else [])
  }

  // ---------------------------------------------------------------------
  // gpio_serialize

  predicate IsOutput(t: GpioType)
  {
    t == NativeOut || t == NativeOutDebug || t == I2cMcpOut
  }

  /** The reading of pin g (gpio.c:196-222): output pins are read back, input pins report their last value. */
  function ReadingOf(io: Io, input: seq<u8>, hw: seq<bool>, g: nat): (r: (bool, Io))
    requires IoOk(io) && g < |io.pins| && |input| == 2 * MAX_I2C_MCP && |hw| == 0x100
    ensures IoOk(r.1) && r.1.pins == io.pins && r.1.pending == io.pending && r.1.writes == io.writes
    ensures !IsOutput(io.pins[g].gtype) ==> r == (io.pins[g].value, io)
    ensures io.pins[g].gtype == NativeOut || io.pins[g].gtype == NativeOutDebug ==> r == (hw[io.pins[g].index], io)
  {
    var c := io.pins[g];
    match c.gtype
    case NativeOut => (hw[c.index], io)
    case NativeOutDebug => (hw[c.index], io)
    case I2cMcpOut => McpPinOf(io, input, c.index, c.address)
    case _ => (c.value, io)
  }

  /** The state of the first loop of gpio_serialize: the pins read so far and the banks to send. */
  datatype Scan = Scan(io: Io, bits: seq<bool>, toSend: seq<bool>)

  /** One turn of that loop (gpio.c:186-224): pin g read, its bank flagged when an output pin reads back differently. */
  function ScanStep(s: Scan, input: seq<u8>, hw: seq<bool>, g: nat): (r: Scan)
    requires IoOk(s.io) && g < |s.io.pins| && |input| == 2 * MAX_I2C_MCP && |hw| == 0x100
    requires |s.toSend| == |s.io.pending|
    ensures IoOk(r.io) && r.io.pins == s.io.pins && r.io.writes == s.io.writes
    ensures |r.toSend| == |s.toSend| && |r.io.pending| == |s.io.pending|
    ensures r.bits == s.bits + [ReadingOf(s.io, input, hw, g).0]
  {
    var c := s.io.pins[g];
    var (v, io1) := ReadingOf(s.io, input, hw, g);
    var bank := g / 32;
    if IsOutput(c.gtype) && v != c.value then
      Scan(io1.(pending := io1.pending[bank := true]), s.bits + [v], s.toSend[bank := true])
    else
      Scan(io1, s.bits + [v], s.toSend)
  }

  /** The first n turns of that loop (gpio.c:185-225). */
  function ScanUpTo(io: Io, input: seq<u8>, hw: seq<bool>, n: nat): (s: Scan)
    requires IoOk(io) && n <= |io.pins| && |input| == 2 * MAX_I2C_MCP && |hw| == 0x100
    ensures IoOk(s.io) && s.io.pins == io.pins && s.io.writes == io.writes
    ensures |s.bits| == n && |s.toSend| == |io.pending| == |s.io.pending|
  {
    if n == 0 then Scan(io, [], seq(|io.pending|, _ => false))
    else ScanStep(ScanUpTo(io, input, hw, n - 1), input, hw, n - 1)
  }

  /** The replies of the second loop (gpio.c:230-245) for banks below b: one per pending bank. */
  function PendingReplies(pending: seq<bool>, bits: seq<bool>, toSend: seq<bool>, b: nat): (r: seq<ReplyGpio>)
    requires b <= |pending| == |toSend| && |bits| == 32 * |pending| < 0x100
    ensures |r| <= b
  {
    if b == 0 then []
    else
      PendingReplies(pending, bits, toSend, b - 1)
        + (if pending[b - 1] then [ReplyGpio(b - 1, BankWord(bits, b - 1), toSend[b - 1])] else [])
  }

  /**
   * pack_nw_buff fails once a reply of `size` bytes no longer fits the
   * `room` left in the buffer, and gpio_serialize stops there: the replies
   * that fit, and whether all did.
   */
  function Packed(all: seq<ReplyGpio>, room: nat, size: nat): (r: (seq<ReplyGpio>, bool))
    requires size > 0
  {
    if |all| <= room / size then (all, true) else (all[..room / size], false)
  }

  // ---------------------------------------------------------------------
  // The state in place

  /** The globals of gpio.c and the parts of `config` and `i2c_gpio` it uses. */
  class GpioState {
    var pins: seq<GpioConfig>
    var pending: seq<bool>
    var mcpAddresses: seq<u8>
    var writes: seq<PinWrite>
    const i2c: I2cGpio

    function IoState(): Io
      reads this, i2c
    {
      Io(pins, pending, mcpAddresses, i2c.slots, writes)
    }

    predicate Valid()
      reads this, i2c
    {
      IoOk(IoState()) && i2c.inputData.Length == 2 * MAX_I2C_MCP
    }

    /** The zero-initialised globals, with MAX_GPIO = 32 * banks and every MCP slot unclaimed. */
    constructor (banks: nat, i2c: I2cGpio)
      requires 32 * banks < 0x100
      requires |i2c.slots| == MAX_I2C_MCP && (forall k :: 0 <= k < MAX_I2C_MCP ==> SlotOk(i2c.slots[k]))
      requires i2c.inputData.Length == 2 * MAX_I2C_MCP
      ensures Valid() && this.i2c == i2c
      ensures pins == seq(32 * banks, _ => GpioConfig(NotSet, 0, 0, false))
      ensures pending == seq(banks, _ => false) && writes == []
      ensures mcpAddresses == seq(MAX_I2C_MCP, _ => FREE_ADDRESS)
    {
      pins := seq(32 * banks, _ => GpioConfig(NotSet, 0, 0, false));
      pending := seq(banks, _ => false);
      mcpAddresses := seq(MAX_I2C_MCP, _ => FREE_ADDRESS);
      writes := [];
      this.i2c := i2c;
    }

    /** init_gpio (config.c:101-107): every pin unset, index and address 0; values are kept. */
    method InitGpio()
      requires Valid()
      modifies this
      ensures Valid()
      ensures |pins| == old(|pins|)
      ensures forall g :: 0 <= g < |pins| ==> pins[g] == GpioConfig(NotSet, 0, 0, old(pins[g]).value)
      ensures pending == old(pending) && mcpAddresses == old(mcpAddresses) && writes == old(writes)
    {
      var g := 0;
      while g < |pins|
        invariant 0 <= g <= |pins| == old(|pins|)
        invariant forall k :: 0 <= k < g ==> pins[k] == GpioConfig(NotSet, 0, 0, old(pins[k]).value)
        invariant forall k :: g <= k < |pins| ==> pins[k] == old(pins[k])
        invariant pending == old(pending) && mcpAddresses == old(mcpAddresses) && writes == old(writes)
      {
        pins := pins[g := pins[g].(gtype := NotSet, index := 0, address := 0)];
        g := g + 1;
      }
    }

    /** update_gpio_config (gpio.c:24-53). */
    method UpdateGpioConfig(gpio: u8, gtype: Option<GpioType>, index: Option<u8>, address: Option<u8>,
                            value: Option<bool>)
      requires Valid()
      modifies this
      ensures Valid()
      ensures pins == UpdateConfig(old(pins), gpio, gtype, index, address, value)
      ensures pending == old(pending) && mcpAddresses == old(mcpAddresses) && writes == old(writes)
    {
      if gpio as nat >= |pins| {
        return;
      }
      var c := pins[gpio];
      if gtype.Some? {
        c := c.(gtype := gtype.value);
      }
      if index.Some? {
        if index.value > MAX_INDEX {
          // Rejected: the stored index stays.
        } else {
          c := c.(index := index.value);
        }
      }
      if address.Some? {
        c := c.(address := address.value);
      }
      if value.Some? {
        c := c.(value := value.value);
      }
      pins := pins[gpio := c];
    }

    /** get_gpio_config (gpio.c:55-80). */
    method GetGpioConfig(gpio: u8) returns (r: Option<GpioConfig>)
      requires Valid()
      ensures r == ConfigOf(pins, gpio)
    {
      if gpio as nat >= |pins| {
        return None;
      }
      r := Some(pins[gpio]);
    }

    /** gpio_local_set_out_pin (gpio.c:117-121). */
    method LocalSetOutPin(index: u8, v: bool)
      modifies this
      ensures writes == old(writes) + [PinWrite(index, v)]
      ensures pins == old(pins) && pending == old(pending) && mcpAddresses == old(mcpAddresses)
    {
      writes := writes + [PinWrite(index, v)];
    }

    /** gpio_i2c_mcp_alloc (gpio.c:127-142). */
    method McpAlloc(address: u8) returns (slot: int)
      requires Valid()
      modifies this, i2c
      ensures Valid() && (slot, IoState()) == McpAllocOf(old(IoState()), address)
    {
      var free := -1;
      var k := 0;
      while k < MAX_I2C_MCP
        invariant 0 <= k <= MAX_I2C_MCP
        invariant forall j :: 0 <= j < k ==> mcpAddresses[j] != address
        invariant free == -1 ==> forall j :: 0 <= j < k ==> mcpAddresses[j] != FREE_ADDRESS
        invariant free != -1 ==> 0 <= free < k && mcpAddresses[free] == FREE_ADDRESS
        invariant free != -1 ==> forall j :: 0 <= j < free ==> mcpAddresses[j] != FREE_ADDRESS
      {
        if mcpAddresses[k] == address {
          return k;
        }
        if mcpAddresses[k] == FREE_ADDRESS && free == -1 {
          free := k;
        }
        k := k + 1;
      }
      if free != -1 {
        mcpAddresses := mcpAddresses[free := address];
        i2c.slots := i2c.slots[free := i2c.slots[free].(i2cAddress := address)];
      }
      slot := free;
    }

    /** gpio_i2c_mcp_set_out_pin (gpio.c:146-163). */
    method McpSetOutPin(index: u8, address: u8, v: bool)
      requires Valid()
      modifies this, i2c
      ensures Valid() && IoState() == McpOutOf(old(IoState()), index, address, v)
    {
      var s := McpAlloc(address);
      if s == -1 {
        return;
      }
      var slot := i2c.slots[s];
      var i := ByteOf(index);
      i2c.slots := i2c.slots[s := slot.(outputData := slot.outputData[i := SetBit(slot.outputData[i], BitOf(index), v)])];
    }

    /** gpio_i2c_mcp_get_pin (gpio.c:165-173). */
    method McpGetPin(index: u8, address: u8) returns (b: bool)
      requires Valid()
      modifies this, i2c
      ensures Valid() && (b, IoState()) == McpPinOf(old(IoState()), i2c.inputData[..], index, address)
    {
      var s := McpAlloc(address);
      if s == -1 {
        return false;
      }
      var data := i2c.inputData[2 * s + ByteOf(index)];
      b := ByteBit(data, BitOf(index));
    }

    /** One turn of the loop of gpio_set_values: pin i of the bank. */
    method SetPin(bank: nat, i: nat, values: u32)
      requires Valid() && i < 32 && (bank + 1) * 32 <= |pins|
      modifies this, i2c
      ensures Valid() && IoState() == PinStep(old(IoState()), bank, i, values)
    {
      var g := bank * 32 + i;
      var c := pins[g];
      var v := Bit(values, i);
      if v == c.value {
        return;
      }
      pending := pending[bank := true];
      if c.gtype == NativeIn || c.gtype == NativeInDebug {
        LocalSetOutPin(c.index, v);
      } else if c.gtype == I2cMcpIn {
        McpSetOutPin(c.index, c.address, v);
      }
      pins := pins[g := c.(value := v)];
    }

    /** gpio_set_values (gpio.c:82-115); the bank must lie below MAX_GPIO. */
    method SetValues(bank: u8, values: u32)
      requires Valid() && (bank as nat + 1) * 32 <= |pins|
      modifies this, i2c
      ensures Valid() && IoState() == SetValuesOf(old(IoState()), bank as nat, values)
    {
      var gpio := bank as nat * 32;
      while gpio < (bank as nat + 1) * 32
        invariant bank as nat * 32 <= gpio <= (bank as nat + 1) * 32
        invariant Valid() && IoState() == BankUpTo(old(IoState()), bank as nat, values, gpio - bank as nat * 32)
      {
        SetPin(bank as nat, gpio - bank as nat * 32, values);
        gpio := gpio + 1;
      }
    }

    /** The reading of pin g in gpio_serialize; `hw` holds what gpio_get returns for each native pin. */
    method ReadPin(g: nat, hw: seq<bool>) returns (v: bool)
      requires Valid() && g < |pins| && |hw| == 0x100
      modifies this, i2c
      ensures Valid() && (v, IoState()) == ReadingOf(old(IoState()), i2c.inputData[..], hw, g)
    {
      var c := pins[g];
      match c.gtype
      case NativeOut => v := hw[c.index];
      case NativeOutDebug => v := hw[c.index];
      case I2cMcpOut => v := McpGetPin(c.index, c.address);
      case _ => v := c.value;
    }

    /** The first loop of gpio_serialize (gpio.c:185-225): every pin read, banks whose output pins differ flagged. */
    method ScanPins(hw: seq<bool>) returns (bits: seq<bool>, toSend: seq<bool>)
      requires Valid() && |hw| == 0x100
      modifies this, i2c
      ensures Valid() && |pins| == old(|pins|)
      ensures ScanUpTo(old(IoState()), i2c.inputData[..], hw, |pins|) == Scan(IoState(), bits, toSend)
    {
      ghost var io0 := IoState();
      bits := [];
      toSend := seq(|pending|, _ => false);
      var gpio := 0;
      while gpio < |pins|
        invariant Valid() && gpio <= |pins| == |io0.pins|
        invariant ScanUpTo(io0, i2c.inputData[..], hw, gpio) == Scan(IoState(), bits, toSend)
      {
        var prev := pins[gpio].value;
        var output := IsOutput(pins[gpio].gtype);
        var v := ReadPin(gpio, hw);
        if output && v != prev {
          toSend := toSend[gpio / 32 := true];
          pending := pending[gpio / 32 := true];
        }
        bits := bits + [v];
        gpio := gpio + 1;
      }
    }

    /**
     * gpio_serialize (gpio.c:176-246). `hw` is what gpio_get returns for
     * each native pin; `room` is what the transmit buffer has left and
     * `size` is sizeof(struct Reply_gpio). Returns the replies packed,
     * whether all of them fit, and the final *tx_buf_len.
     */
    method Serialize(hw: seq<bool>, room: nat, size: nat, txLen: nat) returns (sent: seq<ReplyGpio>, ok: bool, txLenOut: nat)
      requires Valid() && |hw| == 0x100 && size > 0
      modifies this, i2c
      ensures Valid() && |pins| == old(|pins|)
      ensures var s := ScanUpTo(old(IoState()), i2c.inputData[..], hw, |pins|);
        var all := PendingReplies(s.io.pending, s.bits, s.toSend, |s.io.pending|);
        && IoState() == s.io
        && (sent, ok) == Packed(all, room, size)
        && txLenOut == (if all == [] then txLen else if ok then size else 0)
    {
      var bits, toSend := ScanPins(hw);
      sent, ok := PackReplies(pending, bits, toSend, room, size);
      txLenOut := if !ok then 0 else if sent == [] then txLen else size;
    }

    /** serialise_gpio_config (gpio.c:249-270); `packed` is what pack_nw_buff returned for the reply. */
    method SerialiseGpioConfig(gpio: u8, packed: u16) returns (ok: bool, reply: Option<ReplyGpioConfig>)
      requires Valid()
      ensures gpio as nat >= |pins| ==> !ok && reply == None
      ensures gpio as nat < |pins| ==>
        && reply == Some(ReplyGpioConfig(pins[gpio].gtype, gpio, pins[gpio].index, pins[gpio].address))
        && (ok <==> packed != 0)
    {
      if gpio as nat >= |pins| {
        return false, None;
      }
      var c := pins[gpio];
      reply := Some(ReplyGpioConfig(c.gtype, gpio, c.index, c.address));
      ok := packed != 0;
    }
  }

  /**
   * The second loop of gpio_serialize (gpio.c:227-245): a reply for each
   * pending bank, packed until one no longer fits the `room` left.
   */
  method PackReplies(pending: seq<bool>, bits: seq<bool>, toSend: seq<bool>, room: nat, size: nat)
    returns (sent: seq<ReplyGpio>, ok: bool)
    requires |pending| == |toSend| && |bits| == 32 * |pending| < 0x100 && size > 0
    ensures (sent, ok) == Packed(PendingReplies(pending, bits, toSend, |pending|), room, size)
  {
    sent := [];
    var left: nat := room;
    var bank := 0;
    while bank < |pending|
      invariant bank <= |pending|
      invariant sent == PendingReplies(pending, bits, toSend, bank)
      invariant left <= room && |sent| * size == room - left
    {
      if pending[bank] {
        if left < size {
          PackedStopsAtFirstMisfit(pending, bits, toSend, bank, |sent|, room, size);
          return sent, false;
        }
        assert (|sent| + 1) * size == |sent| * size + size;
        sent := sent + [ReplyGpio(bank as u8, BankWord(bits, bank), toSend[bank])];
        left := left - size;
      }
      bank := bank + 1;
    }
    PackedAllFit(sent, room, size);
    ok := true;
  }

  /** Replies for the banks below b are a prefix of those for the banks below b2. */
  lemma {:induction false} PendingRepliesPrefix(pending: seq<bool>, bits: seq<bool>, toSend: seq<bool>, b: nat, b2: nat)
    requires b <= b2 <= |pending| == |toSend| && |bits| == 32 * |pending| < 0x100
    ensures |PendingReplies(pending, bits, toSend, b)| <= |PendingReplies(pending, bits, toSend, b2)|
    ensures PendingReplies(pending, bits, toSend, b)
         == PendingReplies(pending, bits, toSend, b2)[..|PendingReplies(pending, bits, toSend, b)|]
  {
    if b < b2 {
      PendingRepliesPrefix(pending, bits, toSend, b, b2 - 1);
      var p := PendingReplies(pending, bits, toSend, b2 - 1);
      assert PendingReplies(pending, bits, toSend, b2)[..|p|] == p;
    }
  }

  /** The loop stops at bank b when its reply does not fit the room left: what fitted is what Packed keeps. */
  lemma PackedStopsAtFirstMisfit(pending: seq<bool>, bits: seq<bool>, toSend: seq<bool>, b: nat, n: nat, room: nat, size: nat)
    requires b < |pending| == |toSend| && |bits| == 32 * |pending| < 0x100 && size > 0
    requires pending[b] && n == |PendingReplies(pending, bits, toSend, b)|
    requires n * size <= room && room - n * size < size
    ensures Packed(PendingReplies(pending, bits, toSend, |pending|), room, size)
         == (PendingReplies(pending, bits, toSend, b), false)
  {
    DivModUnique(room, size, n, room - n * size);
    PendingRepliesPrefix(pending, bits, toSend, b + 1, |pending|);
    PendingRepliesPrefix(pending, bits, toSend, b, |pending|);
  }

  lemma PackedAllFit(all: seq<ReplyGpio>, room: nat, size: nat)
    requires size > 0 && |all| * size <= room
    ensures Packed(all, room, size) == (all, true)
  {
    DivModUnique(room, size, room / size, room % size);
    if |all| > room / size {
      MulAtLeast(|all| - room / size, size);
    }
  }
}

/** What gpio.c promises about its table, its MCP23017 slots and its replies. */
module RpGpioProps {
  import opened Wrappers
  import opened CInt
  import opened Mcp23017
  import opened RpGpio

  // ---------------------------------------------------------------------
  // update_gpio_config and get_gpio_config

  /** A pin beyond MAX_GPIO is refused and the table left as it was (gpio.c:32-35). */
  lemma UpdateBeyondMaxChangesNothing(pins: seq<GpioConfig>, gpio: u8, gtype: Option<GpioType>, index: Option<u8>,
                                       address: Option<u8>, value: Option<bool>)
    requires gpio as nat >= |pins|
    ensures UpdateConfig(pins, gpio, gtype, index, address, value) == pins
    ensures ConfigOf(pins, gpio) == None
  {
  }

  /**
   * Reading a pin back after an update (gpio.c:37-52, 55-80): each field
   * given is stored, except an index above 32, and each field not given
   * keeps its value; other pins are untouched.
   */
  lemma ReadBackAfterUpdate(pins: seq<GpioConfig>, gpio: u8, gtype: Option<GpioType>, index: Option<u8>,
                            address: Option<u8>, value: Option<bool>)
    requires gpio as nat < |pins|
    ensures var r := ConfigOf(UpdateConfig(pins, gpio, gtype, index, address, value), gpio);
      && r.Some?
      && r.value.gtype == (if gtype.Some? then gtype.value else pins[gpio].gtype)
      && r.value.index == (if index.Some? && index.value <= MAX_INDEX then index.value else pins[gpio].index)
      && r.value.address == (if address.Some? then address.value else pins[gpio].address)
      && r.value.value == (if value.Some? then value.value else pins[gpio].value)
    ensures forall g :: 0 <= g < |pins| && g != gpio as nat ==>
      UpdateConfig(pins, gpio, gtype, index, address, value)[g] == pins[g]
  {
  }

  // ---------------------------------------------------------------------
  // gpio_i2c_mcp_alloc

  /**
   * gpio_i2c_mcp_alloc (gpio.c:127-142) returns the first slot already
   * holding the address and changes nothing; otherwise it claims the first
   * free slot in both tables; otherwise it returns -1 and changes nothing.
   */
  lemma AllocFindsClaimsOrRefuses(io: Io, address: u8)
    requires IoOk(io)
    ensures var (s, r) := McpAllocOf(io, address);
      var addrs := io.mcpAddresses;
      && (address in addrs ==>
            && 0 <= s < MAX_I2C_MCP && addrs[s] == address && address !in addrs[..s] && r == io)
      && (address !in addrs && FREE_ADDRESS in addrs ==>
            && 0 <= s < MAX_I2C_MCP && addrs[s] == FREE_ADDRESS && FREE_ADDRESS !in addrs[..s]
            && r.mcpAddresses == addrs[s := address]
            && r.slots == io.slots[s := io.slots[s].(i2cAddress := address)])
      && (address !in addrs && FREE_ADDRESS !in addrs ==> s == -1 && r == io)
  {
    var addrs := io.mcpAddresses;
    var f1 := FindFrom(addrs, address, 0);
    var f2 := FindFrom(addrs, FREE_ADDRESS, 0);
    if f1.Some? {
      assert address in addrs;
      assert address !in addrs[..f1.value];
    } else {
      assert address !in addrs;
      if f2.Some? {
        assert FREE_ADDRESS in addrs;
        assert FREE_ADDRESS !in addrs[..f2.value];
      } else {
        assert FREE_ADDRESS !in addrs;
      }
    }
  }

  /** A successful allocation leaves the address in its slot, so a second one finds it and changes nothing. */
  lemma AllocTwiceIsAllocOnce(io: Io, address: u8)
    requires IoOk(io)
    ensures var (s, r) := McpAllocOf(io, address);
      McpAllocOf(r, address) == (s, r)
  {
    var (s, r) := McpAllocOf(io, address);
    AllocFindsClaimsOrRefuses(io, address);
    AllocFindsClaimsOrRefuses(r, address);
    if s != -1 {
      assert r.mcpAddresses[s] == address;
      if address !in io.mcpAddresses {
        forall k | 0 <= k < s
          ensures r.mcpAddresses[k] != address
        {
          assert io.mcpAddresses[k] == r.mcpAddresses[k];
        }
        assert address !in r.mcpAddresses[..s];
      }
    }
  }

  // ---------------------------------------------------------------------
  // gpio_i2c_mcp_set_out_pin and gpio_i2c_mcp_get_pin

  /** Setting or clearing bit k changes bit k to v and no other bit. */
  lemma SetBitChangesOnlyThatBit(b: u8, k: bv8, v: bool)
    requires k < 8
    ensures ByteBit(SetBit(b, k, v), k) == v
    ensures forall j: bv8 :: j < 8 && j != k ==> ByteBit(SetBit(b, k, v), j) == ByteBit(b, j)
  {
    ByteRoundTrip(SetBit8(b as bv8, k, v));
    SetBit8SetsBit(b as bv8, k, v);
    forall j: bv8 | j < 8 && j != k
      ensures ByteBit(SetBit(b, k, v), j) == ByteBit(b, j)
    {
      SetBit8KeepsOtherBit(b as bv8, k, v, j);
    }
  }

  lemma ByteRoundTrip(x: bv8)
    ensures (x as u8) as bv8 == x
  {
  }

  lemma SetBit8SetsBit(b: bv8, k: bv8, v: bool)
    requires k < 8
    ensures Bit8(SetBit8(b, k, v), k) == v
  {
  }

  lemma SetBit8KeepsOtherBit(b: bv8, k: bv8, v: bool, j: bv8)
    requires k < 8 && j < 8 && j != k
    ensures Bit8(SetBit8(b, k, v), j) == Bit8(b, j)
  {
  }

  /**
   * gpio_i2c_mcp_set_out_pin (gpio.c:146-163) writes bit (index & 7) of
   * output byte (index >> 3) & 1 of the address' slot and nothing else
   * besides the allocation; with no slot left it changes nothing.
   */
  lemma McpOutWritesOneBit(io: Io, index: u8, address: u8, v: bool)
    requires IoOk(io)
    ensures var (s, a) := McpAllocOf(io, address);
      var r := McpOutOf(io, index, address, v);
      && (s == -1 ==> r == io)
      && (s != -1 ==>
            var i := ByteOf(index);
            var before := a.slots[s].outputData;
            var after := r.slots[s].outputData;
            && r.mcpAddresses == a.mcpAddresses
            && (forall k :: 0 <= k < MAX_I2C_MCP && k != s ==> r.slots[k] == a.slots[k])
            && r.slots[s] == a.slots[s].(outputData := after)
            && |after| == 2 && after[1 - i] == before[1 - i]
            && ByteBit(after[i], BitOf(index)) == v
            && (forall j: bv8 :: j < 8 && j != BitOf(index) ==> ByteBit(after[i], j) == ByteBit(before[i], j)))
  {
    AllocFindsClaimsOrRefuses(io, address);
    var (s, a) := McpAllocOf(io, address);
    if s != -1 {
      var i := ByteOf(index);
      SetBitChangesOnlyThatBit(a.slots[s].outputData[i], BitOf(index), v);
    }
  }

  /** gpio_i2c_mcp_get_pin (gpio.c:165-173) reads the same bit of the slot's input bytes, false without a slot. */
  lemma McpPinReadsOneBit(io: Io, input: seq<u8>, index: u8, address: u8)
    requires IoOk(io) && |input| == 2 * MAX_I2C_MCP
    ensures var (s, a) := McpAllocOf(io, address);
      var (b, r) := McpPinOf(io, input, index, address);
      && r == a
      && (s == -1 ==> !b)
      && (s != -1 ==> 0 <= s < MAX_I2C_MCP && b == ByteBit(input[2 * s + ByteOf(index)], BitOf(index)))
  {
    AllocFindsClaimsOrRefuses(io, address);
  }

  // ---------------------------------------------------------------------
  // gpio_set_values

  /** What one turn of the loop does to each part of the state. */
  lemma PinStepEffect(io: Io, bank: nat, i: nat, values: u32)
    requires IoOk(io) && i < 32 && (bank + 1) * 32 <= |io.pins|
    ensures var g := bank * 32 + i;
      var c := io.pins[g];
      var v := Bit(values, i);
      var r := PinStep(io, bank, i, values);
      && r.pins == io.pins[g := c.(value := v)]
      && r.pending == (if v == c.value then io.pending else io.pending[bank := true])
      && r.writes == io.writes
           + (if v != c.value && (c.gtype == NativeIn || c.gtype == NativeInDebug) then [PinWrite(c.index, v)] else [])
      && (v == c.value || c.gtype != I2cMcpIn ==> r.slots == io.slots && r.mcpAddresses == io.mcpAddresses)
  {
  }

  /**
   * After j turns, pin 32 * bank + i holds bit i of `values` for every
   * i < j; no other pin and no other field of a pin has changed.
   */
  lemma {:induction false} BankUpToPins(io: Io, bank: nat, values: u32, j: nat)
    requires IoOk(io) && j <= 32 && (bank + 1) * 32 <= |io.pins|
    ensures var r := BankUpTo(io, bank, values, j);
      forall g :: 0 <= g < |io.pins| ==>
        r.pins[g] == if bank * 32 <= g < bank * 32 + j
                     then io.pins[g].(value := Bit(values, g - bank * 32))
                     else io.pins[g]
  {
    if j > 0 {
      BankUpToPins(io, bank, values, j - 1);
      PinStepEffect(BankUpTo(io, bank, values, j - 1), bank, j - 1, values);
    }
  }

  /** After j turns, the bank is pending iff it was or one of its first j pins changed; other banks are as before. */
  lemma {:induction false} BankUpToPending(io: Io, bank: nat, values: u32, j: nat)
    requires IoOk(io) && j <= 32 && (bank + 1) * 32 <= |io.pins|
    ensures BankUpTo(io, bank, values, j).pending
         == io.pending[bank := io.pending[bank] || ChangedIn(io.pins, bank, values, j)]
  {
    if j > 0 {
      var p := BankUpTo(io, bank, values, j - 1);
      BankUpToPending(io, bank, values, j - 1);
      BankUpToPins(io, bank, values, j - 1);
      PinStepEffect(p, bank, j - 1, values);
      assert p.pins[bank * 32 + j - 1] == io.pins[bank * 32 + j - 1];
    }
  }

  /** After j turns, gpio_put has been called once for each changed native input pin, in pin order, and for nothing else. */
  lemma {:induction false} BankUpToWrites(io: Io, bank: nat, values: u32, j: nat)
    requires IoOk(io) && j <= 32 && (bank + 1) * 32 <= |io.pins|
    ensures BankUpTo(io, bank, values, j).writes == io.writes + NativeWrites(io.pins, bank, values, j)
  {
    if j > 0 {
      var p := BankUpTo(io, bank, values, j - 1);
      BankUpToWrites(io, bank, values, j - 1);
      BankUpToPins(io, bank, values, j - 1);
      PinStepEffect(p, bank, j - 1, values);
      assert p.pins[bank * 32 + j - 1] == io.pins[bank * 32 + j - 1];
    }
  }

  /** Without a changed pin the first j turns leave the expander slots and their addresses alone. */
  lemma {:induction false} BankUpToUnchangedMcp(io: Io, bank: nat, values: u32, j: nat)
    requires IoOk(io) && j <= 32 && (bank + 1) * 32 <= |io.pins|
    requires !ChangedIn(io.pins, bank, values, j)
    ensures BankUpTo(io, bank, values, j).slots == io.slots
    ensures BankUpTo(io, bank, values, j).mcpAddresses == io.mcpAddresses
  {
    if j > 0 {
      var p := BankUpTo(io, bank, values, j - 1);
      BankUpToUnchangedMcp(io, bank, values, j - 1);
      BankUpToPins(io, bank, values, j - 1);
      PinStepEffect(p, bank, j - 1, values);
      assert p.pins[bank * 32 + j - 1] == io.pins[bank * 32 + j - 1];
    }
  }

  lemma {:induction false} NoChangeNoWrites(pins: seq<GpioConfig>, bank: nat, values: u32, j: nat)
    requires j <= 32 && (bank + 1) * 32 <= |pins|
    requires !ChangedIn(pins, bank, values, j)
    ensures NativeWrites(pins, bank, values, j) == []
  {
    if j > 0 {
      NoChangeNoWrites(pins, bank, values, j - 1);
    }
  }

  /**
   * gpio_set_values (gpio.c:82-115): every pin of the bank takes its bit
   * of `values` and keeps its type, index and address; the pins of other
   * banks are untouched.
   */
  lemma SetValuesTakesBits(io: Io, bank: nat, values: u32)
    requires IoOk(io) && (bank + 1) * 32 <= |io.pins|
    ensures var r := SetValuesOf(io, bank, values);
      && |r.pins| == |io.pins|
      && (forall i :: 0 <= i < 32 ==>
            var c := io.pins[bank * 32 + i];
            r.pins[bank * 32 + i] == GpioConfig(c.gtype, c.index, c.address, Bit(values, i)))
      && (forall g :: 0 <= g < |io.pins| && (g < bank * 32 || (bank + 1) * 32 <= g) ==>
            r.pins[g] == io.pins[g])
  {
    BankUpToPins(io, bank, values, 32);
    var r := SetValuesOf(io, bank, values);
    forall i | 0 <= i < 32
      ensures var c := io.pins[bank * 32 + i];
        r.pins[bank * 32 + i] == GpioConfig(c.gtype, c.index, c.address, Bit(values, i))
    {
      assert bank * 32 + i - bank * 32 == i;
    }
  }

  /** gpio_set_values flags the bank iff a pin of it changed, leaving the flag as it was otherwise, and no other bank. */
  lemma SetValuesFlagsChange(io: Io, bank: nat, values: u32)
    requires IoOk(io) && (bank + 1) * 32 <= |io.pins|
    ensures var r := SetValuesOf(io, bank, values);
      && |r.pending| == |io.pending|
      && (r.pending[bank] <==> io.pending[bank] || exists i :: 0 <= i < 32 && io.pins[bank * 32 + i].value != Bit(values, i))
      && (forall b :: 0 <= b < |io.pending| && b != bank ==> r.pending[b] == io.pending[b])
  {
    BankUpToPending(io, bank, values, 32);
    ChangedInMeans(io.pins, bank, values, 32);
  }

  /** ChangedIn holds iff one of the first j pins of the bank differs from its bit. */
  lemma {:induction false} ChangedInMeans(pins: seq<GpioConfig>, bank: nat, values: u32, j: nat)
    requires j <= 32 && (bank + 1) * 32 <= |pins|
    ensures ChangedIn(pins, bank, values, j) <==> exists i :: 0 <= i < j && pins[bank * 32 + i].value != Bit(values, i)
  {
    if j > 0 {
      ChangedInMeans(pins, bank, values, j - 1);
      if ChangedIn(pins, bank, values, j - 1) {
        var i :| 0 <= i < j - 1 && pins[bank * 32 + i].value != Bit(values, i);
        assert 0 <= i < j;
      }
    }
  }

  /** Native input pins that change are driven, in pin order; nothing else is (gpio.c:94-105). */
  lemma SetValuesDrivesChangedNativePins(io: Io, bank: nat, values: u32)
    requires IoOk(io) && (bank + 1) * 32 <= |io.pins|
    ensures SetValuesOf(io, bank, values).writes == io.writes + NativeWrites(io.pins, bank, values, 32)
  {
    BankUpToWrites(io, bank, values, 32);
  }

  /** Pins that already hold their bit cause no output at all: with none changed the call is a no-op (gpio.c:94-96). */
  lemma SetValuesWithoutChangeIsSilent(io: Io, bank: nat, values: u32)
    requires IoOk(io) && (bank + 1) * 32 <= |io.pins|
    requires forall i :: 0 <= i < 32 ==> io.pins[bank * 32 + i].value == Bit(values, i)
    ensures SetValuesOf(io, bank, values) == io
  {
    var r := SetValuesOf(io, bank, values);
    ChangedInMeans(io.pins, bank, values, 32);
    SetValuesTakesBits(io, bank, values);
    assert r.pins == io.pins by {
      forall g | 0 <= g < |io.pins|
        ensures r.pins[g] == io.pins[g]
      {
        if bank * 32 <= g < (bank + 1) * 32 {
          var i := g - bank * 32;
          assert g == bank * 32 + i;
          assert io.pins[bank * 32 + i].value == Bit(values, i);
        }
      }
    }
    BankUpToPending(io, bank, values, 32);
    BankUpToWrites(io, bank, values, 32);
    NoChangeNoWrites(io.pins, bank, values, 32);
    BankUpToUnchangedMcp(io, bank, values, 32);
  }

  /** Applying the same message twice is applying it once. */
  lemma SetValuesIdempotent(io: Io, bank: nat, values: u32)
    requires IoOk(io) && (bank + 1) * 32 <= |io.pins|
    ensures var r := SetValuesOf(io, bank, values);
      SetValuesOf(r, bank, values) == r
  {
    SetValuesTakesBits(io, bank, values);
    SetValuesWithoutChangeIsSilent(SetValuesOf(io, bank, values), bank, values);
  }

  // ---------------------------------------------------------------------
  // gpio_serialize

  /**
   * The first loop of gpio_serialize (gpio.c:185-225) reports an input pin
   * by its configured value and a native output pin by what gpio_get
   * reads; it never changes the configuration table.
   */
  lemma ScanReadings(io: Io, input: seq<u8>, hw: seq<bool>, n: nat)
    requires IoOk(io) && n <= |io.pins| && |input| == 2 * MAX_I2C_MCP && |hw| == 0x100
    ensures forall g :: 0 <= g < n && !IsOutput(io.pins[g].gtype) ==>
      ScanUpTo(io, input, hw, n).bits[g] == io.pins[g].value
    ensures forall g :: 0 <= g < n && (io.pins[g].gtype == NativeOut || io.pins[g].gtype == NativeOutDebug) ==>
      ScanUpTo(io, input, hw, n).bits[g] == hw[io.pins[g].index]
  {
    forall g | 0 <= g < n
      ensures ScanUpTo(io, input, hw, n).bits[g] == ReadingOf(ScanUpTo(io, input, hw, g).io, input, hw, g).0
    {
      ScanBitIsReading(io, input, hw, n, g);
    }
  }

  /** Pin g's bit is what the read of turn g returned, whatever came later. */
  lemma {:induction false} ScanBitIsReading(io: Io, input: seq<u8>, hw: seq<bool>, n: nat, g: nat)
    requires IoOk(io) && n <= |io.pins| && |input| == 2 * MAX_I2C_MCP && |hw| == 0x100
    requires g < n
    ensures ScanUpTo(io, input, hw, n).bits[g] == ReadingOf(ScanUpTo(io, input, hw, g).io, input, hw, g).0
  {
    var p := ScanUpTo(io, input, hw, n - 1);
    assert ScanUpTo(io, input, hw, n) == ScanStep(p, input, hw, n - 1);
    if g < n - 1 {
      ScanBitIsReading(io, input, hw, n - 1, g);
      ScanStepKeepsBit(p, input, hw, n - 1, g);
    }
  }

  lemma ScanStepKeepsBit(s: Scan, input: seq<u8>, hw: seq<bool>, g: nat, k: nat)
    requires IoOk(s.io) && g < |s.io.pins| && |input| == 2 * MAX_I2C_MCP && |hw| == 0x100
    requires |s.toSend| == |s.io.pending| && k < |s.bits|
    ensures ScanStep(s, input, hw, g).bits[k] == s.bits[k]
  {
  }

  /** What one turn does to the flags. */
  lemma ScanStepFlags(s: Scan, input: seq<u8>, hw: seq<bool>, g: nat)
    requires IoOk(s.io) && g < |s.io.pins| && |input| == 2 * MAX_I2C_MCP && |hw| == 0x100
    requires |s.toSend| == |s.io.pending|
    ensures var r := ScanStep(s, input, hw, g);
      var c := s.io.pins[g];
      var v := ReadingOf(s.io, input, hw, g).0;
      var flag := IsOutput(c.gtype) && v != c.value;
      && r.toSend == (if flag then s.toSend[g / 32 := true] else s.toSend)
      && r.io.pending == (if flag then s.io.pending[g / 32 := true] else s.io.pending)
  {
  }

  /** Some pin of bank b among the first n reads other than its configured value. */
  predicate Differs(pins: seq<GpioConfig>, bits: seq<bool>, b: nat, n: nat)
    requires n <= |bits| && n <= |pins|
  {
    exists g :: 0 <= g < n && g / 32 == b && bits[g] != pins[g].value
  }

  /**
   * A bank is flagged to_send iff one of its pins read back a value other
   * than the configured one, and it is then pending too; a bank not
   * flagged keeps its pending flag (gpio.c:198-217).
   */
  lemma {:induction false} ScanFlags(io: Io, input: seq<u8>, hw: seq<bool>, n: nat, b: nat)
    requires IoOk(io) && n <= |io.pins| && |input| == 2 * MAX_I2C_MCP && |hw| == 0x100
    requires b < |io.pending|
    ensures var s := ScanUpTo(io, input, hw, n);
      && (s.toSend[b] <==> Differs(io.pins, s.bits, b, n))
      && s.io.pending[b] == (io.pending[b] || s.toSend[b])
  {
    if n > 0 {
      ScanFlags(io, input, hw, n - 1, b);
      ScanStepKeepsFlags(ScanUpTo(io, input, hw, n - 1), io.pending[b], input, hw, n - 1, b);
    }
  }

  /** One turn keeps the relation ScanFlags states. */
  lemma ScanStepKeepsFlags(p: Scan, wasPending: bool, input: seq<u8>, hw: seq<bool>, g: nat, b: nat)
    requires IoOk(p.io) && g < |p.io.pins| && |input| == 2 * MAX_I2C_MCP && |hw| == 0x100
    requires |p.toSend| == |p.io.pending| && b < |p.io.pending| && |p.bits| == g
    requires p.toSend[b] <==> Differs(p.io.pins, p.bits, b, g)
    requires p.io.pending[b] == (wasPending || p.toSend[b])
    ensures var r := ScanStep(p, input, hw, g);
      && (r.toSend[b] <==> Differs(p.io.pins, r.bits, b, g + 1))
      && r.io.pending[b] == (wasPending || r.toSend[b])
  {
    var r := ScanStep(p, input, hw, g);
    var pins := p.io.pins;
    ScanStepFlags(p, input, hw, g);
    assert r.bits[g] == ReadingOf(p.io, input, hw, g).0;
    if Differs(pins, p.bits, b, g) {
      var k :| 0 <= k < g && k / 32 == b && p.bits[k] != pins[k].value;
      assert r.bits[k] == p.bits[k];
    }
    if Differs(pins, r.bits, b, g + 1) {
      var k :| 0 <= k < g + 1 && k / 32 == b && r.bits[k] != pins[k].value;
      if k < g {
        assert p.bits[k] == r.bits[k];
      }
    }
  }

  /**
   * The second loop of gpio_serialize (gpio.c:230-245) answers only
   * pending banks: a reply's values are the bank's readings as BankWord
   * packs them and its confirmation flag is the bank's to_send.
   */
  lemma {:induction false} RepliesArePendingBanks(pending: seq<bool>, bits: seq<bool>, toSend: seq<bool>, b: nat)
    requires b <= |pending| == |toSend| && |bits| == 32 * |pending| < 0x100
    ensures forall k :: 0 <= k < |PendingReplies(pending, bits, toSend, b)| ==>
      var reply := PendingReplies(pending, bits, toSend, b)[k];
      && reply.bank as nat < b && pending[reply.bank]
      && reply.confirmationPending == toSend[reply.bank]
      && reply.values == BankWord(bits, reply.bank as nat)
  {
    if b > 0 {
      RepliesArePendingBanks(pending, bits, toSend, b - 1);
      var p := PendingReplies(pending, bits, toSend, b - 1);
      var r := PendingReplies(pending, bits, toSend, b);
      var last := ReplyGpio((b - 1) as u8, BankWord(bits, b - 1), toSend[b - 1]);
      assert r == if pending[b - 1] then p + [last] else p;
      forall k | 0 <= k < |r|
        ensures r[k].bank as nat < b && pending[r[k].bank]
        ensures r[k].confirmationPending == toSend[r[k].bank]
        ensures r[k].values == BankWord(bits, r[k].bank as nat)
      {
        if k < |p| {
          assert r[k] == p[k];
        } else {
          assert r[k] == last && pending[b - 1];
        }
      }
    }
  }

  /** The replies come in increasing bank order. */
  lemma {:induction false} RepliesInBankOrder(pending: seq<bool>, bits: seq<bool>, toSend: seq<bool>, b: nat)
    requires b <= |pending| == |toSend| && |bits| == 32 * |pending| < 0x100
    ensures forall k1, k2 :: 0 <= k1 < k2 < |PendingReplies(pending, bits, toSend, b)| ==>
      PendingReplies(pending, bits, toSend, b)[k1].bank < PendingReplies(pending, bits, toSend, b)[k2].bank
  {
    if b > 0 {
      RepliesInBankOrder(pending, bits, toSend, b - 1);
      RepliesArePendingBanks(pending, bits, toSend, b - 1);
      var p := PendingReplies(pending, bits, toSend, b - 1);
      var r := PendingReplies(pending, bits, toSend, b);
      var last := ReplyGpio((b - 1) as u8, BankWord(bits, b - 1), toSend[b - 1]);
      assert r == if pending[b - 1] then p + [last] else p;
      forall k1, k2 | 0 <= k1 < k2 < |r|
        ensures r[k1].bank < r[k2].bank
      {
        assert r[k1] == p[k1];
        if k2 < |p| {
          assert r[k2] == p[k2];
        } else {
          assert r[k2].bank as nat == b - 1;
        }
      }
    }
  }

  /** Every pending bank is answered. */
  lemma {:induction false} PendingBanksAnswered(pending: seq<bool>, bits: seq<bool>, toSend: seq<bool>, b: nat, c: nat)
    requires b <= |pending| == |toSend| && |bits| == 32 * |pending| < 0x100
    requires c < b && pending[c]
    ensures exists k :: 0 <= k < |PendingReplies(pending, bits, toSend, b)|
                     && PendingReplies(pending, bits, toSend, b)[k].bank as nat == c
  {
    var p := PendingReplies(pending, bits, toSend, b - 1);
    var r := PendingReplies(pending, bits, toSend, b);
    if c < b - 1 {
      PendingBanksAnswered(pending, bits, toSend, b - 1, c);
      var k :| 0 <= k < |p| && p[k].bank as nat == c;
      assert r[k] == p[k];
      assert exists k :: 0 <= k < |r| && r[k].bank as nat == c;
    } else {
      assert r == p + [ReplyGpio((b - 1) as u8, BankWord(bits, b - 1), toSend[b - 1])];
      assert r[|p|].bank as nat == c;
    }
  }
}
