/**
 * The LinuxCNC side of the RP2040 link (src/driver/rp2040_network.c).
 * serialize_gpio reconciles the HAL pins with the values last received
 * from the RP2040 and queues a Message_gpio for every bank that needs one;
 * process_data checks a received NWBuffer and walks the replies in it,
 * storing each into the HAL data and the last-seen configuration tables.
 *
 * The reply structs and their REPLY_* codes are not part of this model's
 * sources: a reply is taken to be its type word followed by its fields,
 * each a little-endian 32-bit word, in the order the unpack functions read
 * them, and the codes are any eight distinct non-zero words.
 */
module DriverNetwork {
  import opened CInt
  import opened Wrappers
  import opened Checksum
  import opened NetBuffer

  // ---------------------------------------------------------------------
  // serialize_gpio

  /** The GPIO_TYPE_* codes serialize_gpio switches on; every other code is Untyped. */
  datatype PinType = NativeOut | NativeOutDebug | McpOut | McpOutPullup | NativeIn | NativeInDebug | McpIn | Untyped

  predicate IsOut(t: PinType)
  {
    t == NativeOut || t == NativeOutDebug || t == McpOut || t == McpOutPullup
  }

  predicate IsIn(t: PinType)
  {
    t == NativeIn || t == NativeInDebug || t == McpIn
  }

  /** The HAL value serialize_gpio reads for a pin (rp2040_network.c:255-270):
   *  gpio_data_out for an output, gpio_data_in for an input, false otherwise. */
  function Current(t: PinType, out: bool, inp: bool): bool
  {
    if IsOut(t) then out else if IsIn(t) then inp else false
  }

  /** The value sent for a pin (rp2040_network.c:272-303): an input keeps its
   *  HAL value, every other pin ends with the value received. */
  function Final(t: PinType, out: bool, inp: bool, received: bool): (v: bool)
    ensures IsIn(t) ==> v == inp
    ensures !IsIn(t) ==> v == received
  {
    var current := Current(t, out, inp);
    if current == received then current
    else if IsOut(t) then received
    else if IsIn(t) then current
    else received
  }

  /** Whether a pin flags its bank for confirmation: an input or output pin
   *  whose HAL value differs from the value received. */
  predicate Flags(t: PinType, out: bool, inp: bool, received: bool)
  {
    (IsOut(t) || IsIn(t)) && Current(t, out, inp) != received
  }

  /** The HAL pins and the per-bank state serialize_gpio reads. */
  datatype Pins = Pins(
    gpioType: seq<PinType>,
    gpioOut: seq<bool>,
    gpioIn: seq<bool>,
    received: map<nat, u32>,
    confirmationPending: map<nat, bool>,
    banks: nat)

  predicate PinsOk(p: Pins)
  {
    && |p.gpioType| == 32 * p.banks && |p.gpioOut| == 32 * p.banks && |p.gpioIn| == 32 * p.banks
    && (forall b :: 0 <= b < p.banks ==> b in p.received)
    && (forall b :: 0 <= b < p.banks ==> b in p.confirmationPending)
  }

  /** Bit g % 32 of gpio_data_received[g / 32]. */
  function ReceivedBit(p: Pins, g: nat): bool
    requires PinsOk(p) && g < 32 * p.banks
  {
    Bit(p.received[g / 32], g % 32)
  }

  function FinalOf(p: Pins, g: nat): bool
    requires PinsOk(p) && g < 32 * p.banks
  {
    Final(p.gpioType[g], p.gpioOut[g], p.gpioIn[g], ReceivedBit(p, g))
  }

  predicate FlagsOf(p: Pins, g: nat)
    requires PinsOk(p) && g < 32 * p.banks
  {
    Flags(p.gpioType[g], p.gpioOut[g], p.gpioIn[g], ReceivedBit(p, g))
  }

  /** gpio_data_out after serialize_gpio: every output pin holds its received value. */
  function OutAfter(p: Pins): (out: seq<bool>)
    requires PinsOk(p)
    ensures |out| == |p.gpioOut|
    ensures forall g :: 0 <= g < |out| && IsOut(p.gpioType[g]) ==> out[g] == ReceivedBit(p, g)
    ensures forall g :: 0 <= g < |out| && !IsOut(p.gpioType[g]) ==> out[g] == p.gpioOut[g]
  {
    seq(|p.gpioOut|, g requires 0 <= g < |p.gpioOut| => if IsOut(p.gpioType[g]) then ReceivedBit(p, g) else p.gpioOut[g])
  }

  /** The values sent, pin by pin. */
  function BitsOf(p: Pins): (bits: seq<bool>)
    requires PinsOk(p)
    ensures |bits| == 32 * p.banks
    ensures forall g :: 0 <= g < |bits| ==> bits[g] == FinalOf(p, g)
  {
    seq(32 * p.banks, g requires 0 <= g < 32 * p.banks => FinalOf(p, g))
  }

  /** Whether some pin of the bank flags it. */
  predicate BankFlagged(p: Pins, b: nat)
    requires PinsOk(p) && b < p.banks
  {
    exists g :: b * 32 <= g < b * 32 + 32 && FlagsOf(p, g)
  }

  /** struct Message_gpio: the values of one bank and whether they differ
   *  from what was received. */
  datatype GpioMessage = GpioMessage(bank: nat, values: u32, confirmationPending: bool)

  /** to_send of serialize_gpio: the word of each bank. */
  function ToSend(p: Pins): (ws: seq<u32>)
    requires PinsOk(p)
    ensures |ws| == p.banks && forall b :: 0 <= b < p.banks ==> ws[b] == BankWord(BitsOf(p), b)
  {
    seq(p.banks, b requires 0 <= b < p.banks => BankWord(BitsOf(p), b))
  }

  /** confirmation_pending of serialize_gpio: whether each bank is flagged. */
  function BankFlags(p: Pins): (fs: seq<bool>)
    requires PinsOk(p)
    ensures |fs| == p.banks && forall b :: 0 <= b < p.banks ==> (fs[b] <==> BankFlagged(p, b))
  {
    seq(p.banks, b requires 0 <= b < p.banks => BankFlagged(p, b))
  }

  /** The messages of the second loop of serialize_gpio for the banks below
   *  b (rp2040_network.c:306-318): one for each bank that is flagged or
   *  whose confirmation was asked for. */
  function MessagesOf(toSend: seq<u32>, flagged: seq<bool>, pending: map<nat, bool>, b: nat): (ms: seq<GpioMessage>)
    requires |toSend| == |flagged| && b <= |flagged| && forall c :: 0 <= c < |flagged| ==> c in pending
    ensures |ms| <= b
    ensures forall m :: m in ms ==> m.bank < b
  {
    if b == 0 then []
    else
      MessagesOf(toSend, flagged, pending, b - 1)
        + (if flagged[b - 1] || pending[b - 1] then [GpioMessage(b - 1, toSend[b - 1], flagged[b - 1])] else [])
  }

  /** The messages serialize_gpio queues for the pins. */
  function Messages(p: Pins): seq<GpioMessage>
    requires PinsOk(p)
  {
    MessagesOf(ToSend(p), BankFlags(p), p.confirmationPending, p.banks)
  }

  /**
   * pack_nw_buff, assumed to append a message of `size` bytes when that
   * many are left in the buffer and to return 0 otherwise: the messages
   * packed and the bytes they took. Every message is tried, as the loop of
   * serialize_gpio does.
   */
  function PackEach(ms: seq<GpioMessage>, room: nat, size: nat): (r: (seq<GpioMessage>, nat))
    ensures r.1 <= room
    ensures size > room ==> r.0 == []
  {
    if ms == [] then ([], 0)
    else if size <= room then
      var rest := PackEach(ms[1..], room - size, size);
      ([ms[0]] + rest.0, size + rest.1)
    else PackEach(ms[1..], room, size)
  }

  /** The messages packed come first, in order, and take `size` bytes each. */
  lemma {:induction false} PackEachPrefix(ms: seq<GpioMessage>, room: nat, size: nat)
    ensures var r := PackEach(ms, room, size);
      r.0 <= ms && r.1 == |r.0| * size
    decreases |ms|
  {
    if ms != [] {
      if size <= room {
        PackEachPrefix(ms[1..], room - size, size);
        var rest := PackEach(ms[1..], room - size, size);
        assert (|rest.0| + 1) * size == |rest.0| * size + size;
      } else {
        PackEachPrefix(ms[1..], room, size);
      }
    }
  }

  /** As many messages are packed as fit: the packed ones fit the room, and
   *  when some are left out, not even one more would have fitted. */
  lemma {:induction false} PackEachFits(ms: seq<GpioMessage>, room: nat, size: nat)
    ensures var n := |PackEach(ms, room, size).0|;
      n * size <= room && (n < |ms| ==> room - n * size < size)
    decreases |ms|
  {
    if ms != [] && size <= room {
      PackEachFits(ms[1..], room - size, size);
      var n := |PackEach(ms[1..], room - size, size).0|;
      assert (n + 1) * size == n * size + size;
    }
  }

  /** A bank's word carries the final value of each of its pins. */
  lemma BankWordBits(p: Pins, b: nat, j: nat)
    requires PinsOk(p) && b < p.banks && j < 32
    ensures Bit(BankWord(BitsOf(p), b), j) == FinalOf(p, b * 32 + j)
  {
  }

  /** A message goes out for exactly the banks that are flagged or
   *  pending, and it carries that bank's word and flag. */
  lemma {:induction false} MessageOfBank(toSend: seq<u32>, flagged: seq<bool>, pending: map<nat, bool>, b: nat, bank: nat)
    requires |toSend| == |flagged| && bank < b <= |flagged| && forall c :: 0 <= c < |flagged| ==> c in pending
    ensures (exists m :: m in MessagesOf(toSend, flagged, pending, b) && m.bank == bank)
        <==> flagged[bank] || pending[bank]
    ensures forall m :: m in MessagesOf(toSend, flagged, pending, b) && m.bank == bank ==>
      m == GpioMessage(bank, toSend[bank], flagged[bank])
  {
    var prev := MessagesOf(toSend, flagged, pending, b - 1);
    var last: seq<GpioMessage> := if flagged[b - 1] || pending[b - 1] then [GpioMessage(b - 1, toSend[b - 1], flagged[b - 1])] else [];
    assert MessagesOf(toSend, flagged, pending, b) == prev + last;
    if bank < b - 1 {
      MessageOfBank(toSend, flagged, pending, b - 1, bank);
      assert forall m: GpioMessage :: m in prev + last && m.bank == bank ==> m in prev;
      if flagged[bank] || pending[bank] {
        var m :| m in prev && m.bank == bank;
        assert m in prev + last;
      }
    } else if last != [] {
      assert last[0] in prev + last;
    }
  }

  /** For the pins: a message goes out for exactly the banks flagged or
   *  pending, with the bank's final values and whether it was flagged. */
  lemma MessageForBank(p: Pins, bank: nat)
    requires PinsOk(p) && bank < p.banks
    ensures (exists m :: m in Messages(p) && m.bank == bank)
        <==> BankFlagged(p, bank) || p.confirmationPending[bank]
    ensures forall m :: m in Messages(p) && m.bank == bank ==>
      m == GpioMessage(bank, BankWord(BitsOf(p), bank), BankFlagged(p, bank))
  {
    MessageOfBank(ToSend(p), BankFlags(p), p.confirmationPending, p.banks, bank);
  }

  // ---------------------------------------------------------------------
  // process_data

  datatype ReplyKind = Timing | AxisMovement | AxisConfig | GpioConfig | AxisMetrics | SpindleSpeed | SpindleConfig | GpioValues

  /** The number of 32-bit fields after the type word. */
  function Arity(k: ReplyKind): (n: nat)
    ensures 2 <= n <= 6
  {
    match k
    case Timing => 3
    case AxisMovement => 3
    case AxisConfig => 6
    case GpioConfig => 4
    case AxisMetrics => 3
    case SpindleSpeed => 2
    case SpindleConfig => 4
    case GpioValues => 3
  }

  /** sizeof the reply struct. */
  function Size(k: ReplyKind): nat
  {
    4 + 4 * Arity(k)
  }

  function Ord(k: ReplyKind): (i: nat)
    ensures i < 8
  {
    match k
    case Timing => 0
    case AxisMovement => 1
    case AxisConfig => 2
    case GpioConfig => 3
    case AxisMetrics => 4
    case SpindleSpeed => 5
    case SpindleConfig => 6
    case GpioValues => 7
  }

  /** The REPLY_* codes, in the order of the switch of process_data. */
  predicate CodesOk(codes: seq<u32>)
  {
    |codes| == 8 && (forall i :: 0 <= i < 8 ==> codes[i] != 0)
    && forall i, j :: 0 <= i < j < 8 ==> codes[i] != codes[j]
  }

  function Code(codes: seq<u32>, k: ReplyKind): u32
    requires CodesOk(codes)
  {
    codes[Ord(k)]
  }

  /** The case of the switch of process_data (rp2040_network.c:586-625) a type word selects. */
  function KindOf(codes: seq<u32>, t: u32): (r: Option<ReplyKind>)
    requires CodesOk(codes)
    ensures r.Some? ==> Code(codes, r.value) == t
    ensures r.None? ==> forall k :: Code(codes, k) != t
  {
    if t == codes[0] then Some(Timing)
    else if t == codes[1] then Some(AxisMovement)
    else if t == codes[2] then Some(AxisConfig)
    else if t == codes[3] then Some(GpioConfig)
    else if t == codes[4] then Some(AxisMetrics)
    else if t == codes[5] then Some(SpindleSpeed)
    else if t == codes[6] then Some(SpindleConfig)
    else if t == codes[7] then Some(GpioValues)
    else None
  }

  /** last_joint_config[joint] as unpack_joint_config fills it. */
  datatype JointConfig = JointConfig(enable: u32, gpioStep: u32, gpioDir: u32, maxVelocity: u32, maxAccel: u32)
  /** last_gpio_config[gpio] as unpack_gpio_config fills it. */
  datatype GpioConfigEntry = GpioConfigEntry(gpioType: u32, index: u32, address: u32)
  /** last_spindle_config[spindle] as unpack_spindle_config fills it. */
  datatype SpindleConfigEntry = SpindleConfigEntry(modbusAddress: u32, vfdType: u32, bitrate: u32)

  /**
   * What process_data writes: the timing metrics, the per-joint feedback
   * and metrics, the last-seen configuration tables, the GPIO state of each
   * bank and *received_count. Arrays indexed by a field of the reply are
   * maps, since the C code writes whatever index the reply names.
   */
  datatype Host = Host(
    metricUpdateId: u32,
    metricTimeDiff: u32,
    metricRpUpdateLen: u32,
    velocityFeedback: map<nat, u32>,
    stepLenTicks: map<nat, u32>,
    velocityCmd: map<nat, u32>,
    jointConfig: map<nat, JointConfig>,
    gpioConfig: map<nat, GpioConfigEntry>,
    spindleConfig: map<nat, SpindleConfigEntry>,
    received: map<nat, u32>,
    confirmationPending: map<nat, bool>,
    receivedCount: nat)

  /** The fields of a reply of kind k at offset at of the payload. */
  function Fields(payload: seq<u8>, at: nat, k: ReplyKind): (f: seq<u32>)
    requires at + Size(k) <= |payload|
    ensures |f| == Arity(k)
  {
    seq(Arity(k), i requires 0 <= i < Arity(k) => LeWord32(payload[at + 4 + 4 * i..]))
  }

  /** What the unpack function of kind k stores (rp2040_network.c:324-547).
   *  The float parts (joint position, spindle speed) are not modelled. */
  function Apply(h: Host, k: ReplyKind, f: seq<u32>): (r: Host)
    requires |f| == Arity(k)
    ensures r.receivedCount == h.receivedCount + 1
  {
    var h1 := h.(receivedCount := h.receivedCount + 1);
    match k
    case Timing => h1.(metricUpdateId := f[0], metricTimeDiff := f[1], metricRpUpdateLen := f[2])
    case AxisMovement => h1.(velocityFeedback := h.velocityFeedback[f[0] := f[2]])
    case AxisConfig => h1.(jointConfig := h.jointConfig[f[0] := JointConfig(f[1], f[2], f[3], f[4], f[5])])
    case GpioConfig => h1.(gpioConfig := h.gpioConfig[f[1] := GpioConfigEntry(f[0], f[2], f[3])])
    case AxisMetrics => h1.(stepLenTicks := h.stepLenTicks[f[0] := f[1]], velocityCmd := h.velocityCmd[f[0] := f[2]])
    case SpindleSpeed => h1
    case SpindleConfig => h1.(spindleConfig := h.spindleConfig[f[0] := SpindleConfigEntry(f[1], f[2], f[3])])
    case GpioValues => h1.(received := h.received[f[0] := f[1]], confirmationPending := h.confirmationPending[f[0] := f[2] != 0])
  }

  /** How the walk over the replies ends: no further header or a zero type
   *  word, an unknown type, or a reply cut short by the end of the data. */
  datatype Stop = EndOfData | UnknownType | ShortReply

  /**
   * One turn of the loop of process_data (rp2040_network.c:577-625) at
   * offset at. unpack_nw_buff is assumed to hand out the `size` bytes at an
   * offset when they lie within length, as unPackNWBuff does, and to
   * advance the offset only when asked to. The result is the host state,
   * the next offset and, when the loop ends here, why.
   */
  function Step(codes: seq<u32>, payload: seq<u8>, length: nat, at: nat, h: Host): (r: (Host, nat, Option<Stop>))
    requires CodesOk(codes) && length <= |payload|
    ensures r.2.Some? ==> r.0 == h && r.1 == at
    ensures r.2.None? ==> at < r.1 <= length && r.0.receivedCount == h.receivedCount + 1
  {
    if at + 4 > length then (h, at, Some(EndOfData))
    else
      var t := LeWord32(payload[at..]);
      if t == 0 then (h, at, Some(EndOfData))
      else
        match KindOf(codes, t)
        case None => (h, at, Some(UnknownType))
        case Some(k) =>
          if at + Size(k) > length then (h, at, Some(ShortReply))
          else (Apply(h, k, Fields(payload, at, k)), at + Size(k), None)
  }

  /** The loop of process_data from offset at: the host state, the final
   *  offset and why the loop stopped. */
  function Walk(codes: seq<u32>, payload: seq<u8>, length: nat, at: nat, h: Host): (r: (Host, nat, Stop))
    requires CodesOk(codes) && length <= |payload|
    ensures at <= length ==> at <= r.1 <= length
    ensures r.0.receivedCount >= h.receivedCount
    decreases length - at
  {
    var s := Step(codes, payload, length, at, h);
    if s.2.Some? then (h, at, s.2.value) else Walk(codes, payload, length, s.1, s.0)
  }

  /** Whether process_data looks at the buffer at all (rp2040_network.c:562-574). */
  predicate Accepted(length: u16, checksum: u16, payload: seq<u8>, expectedLength: nat): (b: bool)
    ensures b ==> 4 <= expectedLength <= NW_BUF_LEN + 4
  {
    length + 4 == expectedLength && length <= NW_BUF_LEN && |payload| == NW_BUF_LEN && checksum == ChecksumOf(0, payload)
  }

  /** process_data: nothing when the buffer is refused, else the walk from offset 0. */
  function Process(codes: seq<u32>, length: u16, checksum: u16, payload: seq<u8>, expectedLength: nat, h: Host): (r: Host)
    requires CodesOk(codes) && |payload| == NW_BUF_LEN
    ensures r.receivedCount >= h.receivedCount
    ensures length + 4 != expectedLength ==> r == h
    ensures checksum != ChecksumOf(0, payload) ==> r == h
  {
    if Accepted(length, checksum, payload, expectedLength) then Walk(codes, payload, length, 0, h).0 else h
  }

  /** The fields read from a copy of a reply are those read in place. */
  lemma FieldsOfCopy(payload: seq<u8>, at: nat, k: ReplyKind)
    requires at + Size(k) <= |payload|
    ensures Fields(payload[at..at + Size(k)], 0, k) == Fields(payload, at, k)
  {
    var bytes := payload[at..at + Size(k)];
    forall i | 0 <= i < Arity(k)
      ensures bytes[4 + 4 * i..][..4] == payload[at + 4 + 4 * i..][..4]
    {
    }
  }

  /** The bytes of a reply. */
  function Encode(codes: seq<u32>, k: ReplyKind, f: seq<u32>): (bs: seq<u8>)
    requires CodesOk(codes)
    ensures |bs| == 4 + 4 * |f|
  {
    LeBytes32(Code(codes, k)) + WordBytes(f)
  }

  function WordBytes(ws: seq<u32>): (bs: seq<u8>)
    ensures |bs| == 4 * |ws|
  {
    if ws == [] then [] else LeBytes32(ws[0]) + WordBytes(ws[1..])
  }

  /** Words written out are read back, field by field. */
  lemma {:induction false} WordBytesRead(ws: seq<u32>, i: nat)
    requires i < |ws|
    ensures |WordBytes(ws)[4 * i..]| >= 4 && LeWord32(WordBytes(ws)[4 * i..]) == ws[i]
  {
    var bs := WordBytes(ws);
    if i == 0 {
      assert bs[..4] == LeBytes32(ws[0]);
    } else {
      WordBytesRead(ws[1..], i - 1);
      assert bs[4 * i..] == WordBytes(ws[1..])[4 * (i - 1)..];
    }
  }

  /** The type word of an encoded reply is read back. */
  lemma CodeOfEncoded(codes: seq<u32>, payload: seq<u8>, at: nat, k: ReplyKind, f: seq<u32>)
    requires CodesOk(codes) && |f| == Arity(k)
    requires at + Size(k) <= |payload| && payload[at..at + Size(k)] == Encode(codes, k, f)
    ensures LeWord32(payload[at..]) == Code(codes, k)
  {
    assert payload[at..][..4] == Encode(codes, k, f)[..4] == LeBytes32(Code(codes, k));
  }

  /** The fields of an encoded reply are read back. */
  lemma FieldsOfEncoded(codes: seq<u32>, payload: seq<u8>, at: nat, k: ReplyKind, f: seq<u32>)
    requires CodesOk(codes) && |f| == Arity(k)
    requires at + Size(k) <= |payload| && payload[at..at + Size(k)] == Encode(codes, k, f)
    ensures Fields(payload, at, k) == f
  {
    assert payload[at + 4..at + Size(k)] == payload[at..at + Size(k)][4..] == WordBytes(f);
    forall i | 0 <= i < Arity(k)
      ensures Fields(payload, at, k)[i] == f[i]
    {
      WordRead(payload, at + 4, f, i);
    }
  }

  /** Word i of words written out at `from` is read back. */
  lemma WordRead(payload: seq<u8>, from: nat, f: seq<u32>, i: nat)
    requires i < |f| && from + 4 * |f| <= |payload| && payload[from..from + 4 * |f|] == WordBytes(f)
    ensures LeWord32(payload[from + 4 * i..]) == f[i]
  {
    WordBytesRead(f, i);
    Window(payload, from, WordBytes(f), 4 * i);
  }

  /** Four bytes inside a copied window are the window's. */
  lemma Window(payload: seq<u8>, from: nat, ws: seq<u8>, x: nat)
    requires from + |ws| <= |payload| && payload[from..from + |ws|] == ws && x + 4 <= |ws|
    ensures payload[from + x..][..4] == ws[x..][..4]
  {
    assert payload[from + x..][..4] == payload[from..from + |ws|][x..][..4];
  }

  /** A reply encoded at `at`: the walk reads its type, reads its fields back
   *  and goes on after it. */
  lemma WalkReadsReply(codes: seq<u32>, payload: seq<u8>, length: nat, at: nat, h: Host, k: ReplyKind, f: seq<u32>)
    requires CodesOk(codes) && length <= |payload| && |f| == Arity(k)
    requires at + Size(k) <= length && payload[at..at + Size(k)] == Encode(codes, k, f)
    ensures Walk(codes, payload, length, at, h) == Walk(codes, payload, length, at + Size(k), Apply(h, k, f))
  {
    CodeOfEncoded(codes, payload, at, k, f);
    FieldsOfEncoded(codes, payload, at, k, f);
    assert KindOf(codes, Code(codes, k)) == Some(k);
  }

  /** The GPIO bank state of the host as serialize_gpio sees it. */
  function PinsOf(h: Host, gpioType: seq<PinType>, gpioOut: seq<bool>, gpioIn: seq<bool>, banks: nat): Pins
  {
    Pins(gpioType, gpioOut, gpioIn, h.received, h.confirmationPending, banks)
  }

  /** A GPIO reply received makes the next serialize_gpio send that bank's
   *  values back when confirmation was asked for. */
  lemma ConfirmationRequested(h: Host, bank: u32, values: u32, pending: u32,
                              gpioType: seq<PinType>, gpioOut: seq<bool>, gpioIn: seq<bool>, banks: nat)
    requires bank < banks && pending != 0
    requires PinsOk(PinsOf(h, gpioType, gpioOut, gpioIn, banks))
    ensures var p := PinsOf(Apply(h, GpioValues, [bank, values, pending]), gpioType, gpioOut, gpioIn, banks);
      PinsOk(p) && exists m :: m in Messages(p) && m.bank == bank
  {
    var p := PinsOf(Apply(h, GpioValues, [bank, values, pending]), gpioType, gpioOut, gpioIn, banks);
    MessageForBank(p, bank);
  }

  // ---------------------------------------------------------------------
  // The state in place

  /** The HAL data (skeleton_t), the last-seen configuration tables and
   *  *received_count, as the driver holds them. */
  class Driver {
    var gpioType: seq<PinType>
    var gpioOut: seq<bool>
    var gpioIn: seq<bool>
    var host: Host
    const banks: nat

    predicate Valid()
      reads this
    {
      PinsOk(PinsNow())
    }

    function PinsNow(): Pins
      reads this
    {
      PinsOf(host, gpioType, gpioOut, gpioIn, banks)
    }

    /** Everything but gpio_data_out is as in p. */
    predicate Same(p: Pins)
      reads this
    {
      gpioType == p.gpioType && gpioIn == p.gpioIn && host.received == p.received
      && host.confirmationPending == p.confirmationPending && banks == p.banks
    }

    constructor (banks: nat, gpioType: seq<PinType>, host: Host)
      requires |gpioType| == 32 * banks
      requires forall b :: 0 <= b < banks ==> b in host.received && b in host.confirmationPending
      ensures Valid() && this.banks == banks && this.gpioType == gpioType && this.host == host
      ensures gpioOut == seq(32 * banks, _ => false) && gpioIn == seq(32 * banks, _ => false)
    {
      this.banks := banks;
      this.gpioType := gpioType;
      this.host := host;
      gpioOut := seq(32 * banks, _ => false);
      gpioIn := seq(32 * banks, _ => false);
    }

    /** The first loop of serialize_gpio (rp2040_network.c:251-304): the
     *  value of every pin, the banks flagged, and the output pins set to
     *  the values received. */
    method ReconcilePins() returns (bits: seq<bool>, flagged: seq<bool>)
      requires Valid()
      modifies this
      ensures Valid() && gpioType == old(gpioType) && gpioIn == old(gpioIn) && host == old(host)
      ensures gpioOut == OutAfter(old(PinsNow()))
      ensures bits == BitsOf(old(PinsNow()))
      ensures |flagged| == banks && forall b :: 0 <= b < banks ==> (flagged[b] <==> BankFlagged(old(PinsNow()), b))
    {
      ghost var p := PinsNow();
      bits := [];
      flagged := seq(banks, _ => false);
      var g := 0;
      while g < 32 * banks
        invariant g <= 32 * banks && |gpioOut| == 32 * banks && Same(p)
        invariant gpioType == old(gpioType) && gpioIn == old(gpioIn) && host == old(host)
        invariant |bits| == g && forall j :: 0 <= j < g ==> bits[j] == FinalOf(p, j)
        invariant forall j :: 0 <= j < g ==> gpioOut[j] == OutAfter(p)[j]
        invariant forall j :: g <= j < 32 * banks ==> gpioOut[j] == p.gpioOut[j]
        invariant |flagged| == banks
        invariant forall b :: 0 <= b < banks ==> (flagged[b] <==> FlaggedBelow(p, b, g))
      {
        ghost var before := flagged;
        var current, flag := ReconcilePin(g, p);
        var bank := g / 32;
        if flag {
          flagged := flagged[bank := true];
        }
        FlaggedStep(p, before, flagged, g);
        bits := bits + [current];
        g := g + 1;
      }
      assert bits == BitsOf(p);
      assert gpioOut == OutAfter(p);
      FlaggedAll(p, flagged);
    }

    /** One pin of that loop (rp2040_network.c:252-303): its value, whether
     *  it flags its bank, and gpio_data_out set to the received value for an
     *  output pin. */
    method ReconcilePin(g: nat, ghost p: Pins) returns (current: bool, flag: bool)
      requires PinsOk(p) && Same(p) && g < 32 * banks == |gpioOut|
      requires gpioOut[g] == p.gpioOut[g]
      modifies this
      ensures gpioType == old(gpioType) && gpioIn == old(gpioIn) && host == old(host)
      ensures current == FinalOf(p, g) && flag == FlagsOf(p, g)
      ensures gpioOut == old(gpioOut)[g := OutAfter(p)[g]]
    {
      var t := gpioType[g];
      current := Current(t, gpioOut[g], gpioIn[g]);
      var received := Bit(host.received[g / 32], g % 32);
      assert received == ReceivedBit(p, g);
      flag := false;
      if current != received {
        if IsOut(t) {
          gpioOut := gpioOut[g := received];
          current := received;
          flag := true;
        } else if IsIn(t) {
          flag := true;
        } else {
          current := received;
        }
      }
    }

    /**
     * serialize_gpio (rp2040_network.c:241-321). `room` is what the
     * transmit buffer has left and `size` is sizeof(struct Message_gpio).
     * The output pins take the values received, and the messages for the
     * flagged or pending banks are packed while they fit; the result is the
     * number of bytes packed.
     */
    method SerializeGpio(room: nat, size: nat) returns (sent: seq<GpioMessage>, total: nat)
      requires Valid()
      modifies this
      ensures Valid() && gpioType == old(gpioType) && gpioIn == old(gpioIn) && host == old(host)
      ensures gpioOut == OutAfter(old(PinsNow()))
      ensures (sent, total) == PackEach(Messages(old(PinsNow())), room, size)
    {
      ghost var p := PinsNow();
      var bits, flagged := ReconcilePins();
      var toSend := seq(banks, b requires 0 <= b < banks => BankWord(bits, b));
      assert toSend == ToSend(p) && flagged == BankFlags(p);
      sent, total := PackMessages(toSend, flagged, host.confirmationPending, room, size);
    }

    /**
     * One of the unpack_* functions (rp2040_network.c:324-547): the reply
     * of kind k at `offset` is copied out of the buffer when it lies within
     * the data, stored, and the offset moved past it; otherwise nothing
     * changes and false is returned.
     */
    method UnpackReply(k: ReplyKind, rx: NWBuffer, offset: nat) returns (ok: bool, next: nat)
      requires rx.Valid() && offset <= rx.length <= NW_BUF_LEN
      modifies this
      ensures gpioType == old(gpioType) && gpioOut == old(gpioOut) && gpioIn == old(gpioIn)
      ensures ok <==> offset + Size(k) <= rx.length
      ensures ok ==> next == offset + Size(k) && host == Apply(old(host), k, Fields(rx.payload[..], offset, k))
      ensures !ok ==> next == offset && host == old(host)
    {
      var got, bytes := rx.Unpack(offset as u16, [], Size(k) as u16);
      if got == 0 {
        return false, offset;
      }
      var f := Fields(bytes, 0, k);
      FieldsOfCopy(rx.payload[..], offset, k);
      host := Apply(host, k, f);
      ok, next := true, offset + Size(k);
    }

    /**
     * process_data (rp2040_network.c:550-635). A buffer whose length does
     * not match the datagram, overruns the payload or fails its checksum is
     * ignored; otherwise each reply is read by its type word and stored,
     * until the data ends, a zero type word, an unknown type or a reply cut
     * short.
     */
    method ProcessData(codes: seq<u32>, rx: NWBuffer, expectedLength: nat)
      requires CodesOk(codes) && rx.Valid()
      modifies this
      ensures gpioType == old(gpioType) && gpioOut == old(gpioOut) && gpioIn == old(gpioIn)
      ensures host == Process(codes, rx.length, rx.checksum, rx.payload[..], expectedLength, old(host))
    {
      if rx.length + 4 != expectedLength {
        return;
      }
      if rx.length > NW_BUF_LEN {
        return;
      }
      if rx.Check() == 0 {
        return;
      }
      WalkReplies(codes, rx);
    }

    /** The loop of process_data (rp2040_network.c:576-626) over a buffer
     *  that passed the checks. */
    method WalkReplies(codes: seq<u32>, rx: NWBuffer)
      requires CodesOk(codes) && rx.Valid() && rx.length <= NW_BUF_LEN
      modifies this
      ensures gpioType == old(gpioType) && gpioOut == old(gpioOut) && gpioIn == old(gpioIn)
      ensures host == Walk(codes, rx.payload[..], rx.length, 0, old(host)).0
    {
      ghost var payload := rx.payload[..];
      ghost var final := Walk(codes, payload, rx.length, 0, host);
      var offset: nat := 0;
      var stop: Option<Stop> := None;
      while stop.None?
        invariant offset <= rx.length
        invariant gpioType == old(gpioType) && gpioOut == old(gpioOut) && gpioIn == old(gpioIn)
        invariant stop.None? ==> Walk(codes, payload, rx.length, offset, host) == final
        invariant stop.Some? ==> host == final.0
        decreases rx.length - offset, if stop.None? then 1 else 0
      {
        stop, offset := ReadReply(codes, rx, offset);
      }
    }

    /** One turn of that loop: the header is peeked at, and the reply its
     *  type names is unpacked. */
    method ReadReply(codes: seq<u32>, rx: NWBuffer, offset: nat) returns (stop: Option<Stop>, next: nat)
      requires CodesOk(codes) && rx.Valid() && offset <= rx.length <= NW_BUF_LEN
      modifies this
      ensures gpioType == old(gpioType) && gpioOut == old(gpioOut) && gpioIn == old(gpioIn)
      ensures (host, next, stop) == Step(codes, rx.payload[..], rx.length, offset, old(host))
    {
      var got, header := rx.Unpack(offset as u16, [], 4);
      if got == 0 {
        return Some(EndOfData), offset;
      }
      var t := LeWord32(header);
      assert t == LeWord32(rx.payload[..][offset..]) by {
        assert header[..4] == rx.payload[..][offset..][..4];
      }
      if t == 0 {
        return Some(EndOfData), offset;
      }
      match KindOf(codes, t)
      case None =>
        return Some(UnknownType), offset;
      case Some(k) =>
        var ok;
        ok, next := UnpackReply(k, rx, offset);
        stop := if ok then None else Some(ShortReply);
    }
  }

  /** The second loop of serialize_gpio (rp2040_network.c:306-318): a
   *  message for every bank flagged or pending, packed while it fits. */
  method PackMessages(toSend: seq<u32>, flagged: seq<bool>, pending: map<nat, bool>, room: nat, size: nat)
    returns (sent: seq<GpioMessage>, total: nat)
    requires |toSend| == |flagged| && forall b :: 0 <= b < |flagged| ==> b in pending
    ensures (sent, total) == PackEach(MessagesOf(toSend, flagged, pending, |flagged|), room, size)
  {
    sent := [];
    total := 0;
    var bank := 0;
    while bank < |flagged|
      invariant bank <= |flagged|
      invariant sent == PackEach(MessagesOf(toSend, flagged, pending, bank), room, size).0
      invariant total == PackEach(MessagesOf(toSend, flagged, pending, bank), room, size).1
    {
      ghost var before := MessagesOf(toSend, flagged, pending, bank);
      if flagged[bank] || pending[bank] {
        var m := GpioMessage(bank, toSend[bank], flagged[bank]);
        assert MessagesOf(toSend, flagged, pending, bank + 1) == before + [m];
        PackEachSnoc(before, m, room, size);
        if size <= room - total {
          sent := sent + [m];
          total := total + size;
        }
      } else {
        assert MessagesOf(toSend, flagged, pending, bank + 1) == before + [] == before;
      }
      bank := bank + 1;
    }
  }

  /** Some pin of bank b below g flags it. */
  predicate FlaggedBelow(p: Pins, b: nat, g: nat)
    requires PinsOk(p) && b < p.banks
  {
    exists j :: b * 32 <= j < b * 32 + 32 && j < g && FlagsOf(p, j)
  }

  /** The flags after pin g: its bank is flagged when the pin flags it. */
  lemma FlaggedStep(p: Pins, before: seq<bool>, flagged: seq<bool>, g: nat)
    requires PinsOk(p) && g < 32 * p.banks && |before| == p.banks
    requires forall b :: 0 <= b < p.banks ==> (before[b] <==> FlaggedBelow(p, b, g))
    requires flagged == if FlagsOf(p, g) then before[g / 32 := true] else before
    ensures forall b :: 0 <= b < p.banks ==> (flagged[b] <==> FlaggedBelow(p, b, g + 1))
  {
    var bank := g / 32;
    assert bank * 32 <= g < bank * 32 + 32;
    forall b | 0 <= b < p.banks
      ensures flagged[b] <==> FlaggedBelow(p, b, g + 1)
    {
      if b != bank {
        assert !(b * 32 <= g < b * 32 + 32);
      }
    }
  }

  /** Once every pin is seen, a bank is flagged iff one of its pins flags it. */
  lemma FlaggedAll(p: Pins, flagged: seq<bool>)
    requires PinsOk(p) && |flagged| == p.banks
    requires forall b :: 0 <= b < p.banks ==> (flagged[b] <==> FlaggedBelow(p, b, 32 * p.banks))
    ensures forall b :: 0 <= b < p.banks ==> (flagged[b] <==> BankFlagged(p, b))
  {
    forall b | 0 <= b < p.banks
      ensures FlaggedBelow(p, b, 32 * p.banks) == BankFlagged(p, b)
    {
      assert b * 32 + 32 <= 32 * p.banks;
    }
  }

  /** Packing one more message: it goes in when it fits the room left. */
  lemma {:induction false} PackEachSnoc(ms: seq<GpioMessage>, m: GpioMessage, room: nat, size: nat)
    ensures var r := PackEach(ms, room, size);
      PackEach(ms + [m], room, size)
        == if size <= room - r.1 then (r.0 + [m], r.1 + size) else r
    decreases |ms|
  {
    if ms == [] {
      assert [m][1..] == [];
      assert [m] + [] == [] + [m];
    } else {
      assert (ms + [m])[1..] == ms[1..] + [m];
      if size <= room {
        PackEachSnoc(ms[1..], m, room - size, size);
        var r := PackEach(ms[1..], room - size, size);
        assert [ms[0]] + (r.0 + [m]) == ([ms[0]] + r.0) + [m];
      } else {
        PackEachSnoc(ms[1..], m, room, size);
      }
    }
  }
}
