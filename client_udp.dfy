/**
 * The UDP test client of src/test_client/udp.c, the one built against
 * src/shared/messages.h. With -oneshot it packs one typed line of
 * messages ("4:0:10, 8:0:2") into a datagram. With -loop it sends, each
 * millisecond, a timing message and the positions of four axes that swing
 * back and forth, and it forwards to the controller the gains a graphing
 * tool writes into a FIFO; every position it packs is also logged, as a
 * 10-byte record, to another FIFO for that tool. Every message struct is
 * made of 32-bit fields, so a packet is modelled by its words up to
 * packet_size; sizes and the space left are counted in bytes, as the C
 * code counts them. The typed line, the FIFO bytes, the results of
 * opening the FIFOs and the clock are parameters; the sockets, the
 * replies and the busy wait are not modelled.
 */
module ClientUdp {
  import opened CInt
  import opened Text
  import opened Wrappers
  import LegacyClientUdp
  import PacketLayout

  const BUFSIZE: nat := 1024
  /** main's packet buffer, in 32-bit words. */
  const PACKET_WORDS: nat := 256
  const MAX_AXIS: nat := 4

  // Message types numbered in src/shared/messages.h:13-20.
  const MSG_TIMING: u32 := 0x8888_8888
  const MSG_SET_AXIS_ENABLED: u32 := 3
  const MSG_SET_AXIS_ABS_POS: u32 := 4
  const MSG_SET_AXIS_MAX_ACCEL: u32 := 7
  const MSG_SET_AXIS_IO_STEP: u32 := 8
  const MSG_SET_AXIS_IO_DIR: u32 := 9

  /** The codes of the types serialize_data also handles that
   *  src/shared/messages.h does not number: MSG_SET_GLOAL_UPDATE_RATE,
   *  MSG_SET_AXIS_REL_POS, MSG_SET_AXIS_MAX_SPEED, MSG_SET_AXIS_PID_KP
   *  and MSG_GET_GLOBAL_CONFIG. */
  datatype Codes = Codes(updateRate: u32, relPos: u32, maxSpeed: u32, pidKp: u32, globalConfig: u32)

  /** The case labels of serialize_data's switch all differ, as C
   *  requires of a switch. */
  predicate Distinct(c: Codes)
  {
    var own := [c.updateRate, c.relPos, c.maxSpeed, c.pidKp, c.globalConfig];
    && (forall i :: 0 <= i < |own| ==>
          && own[i] != MSG_TIMING && own[i] != MSG_SET_AXIS_ENABLED && own[i] != MSG_SET_AXIS_ABS_POS
          && own[i] != MSG_SET_AXIS_MAX_ACCEL && own[i] != MSG_SET_AXIS_IO_STEP && own[i] != MSG_SET_AXIS_IO_DIR)
    && (forall i, j :: 0 <= i < j < |own| ==> own[i] != own[j])
  }

  /** The cases of serialize_data (src/test_client/udp.c:308-377). */
  datatype Kind = TimingKind | UpdateRate | Enabled | AbsPos | RelPos | Gain | Gpio | GlobalConfig | Unknown

  /** The case a message type reaches, in the order of the switch;
   *  MAX_SPEED and MAX_ACCEL fall through to PID_KP. */
  function KindOf(t: u32, c: Codes): (k: Kind)
    ensures k == TimingKind <==> t == MSG_TIMING
    ensures k == Unknown <==> t !in {MSG_TIMING, c.updateRate, MSG_SET_AXIS_ENABLED, MSG_SET_AXIS_ABS_POS, c.relPos,
      c.maxSpeed, MSG_SET_AXIS_MAX_ACCEL, c.pidKp, MSG_SET_AXIS_IO_STEP, MSG_SET_AXIS_IO_DIR, c.globalConfig}
  {
    if t == MSG_TIMING then TimingKind
    else if t == c.updateRate then UpdateRate
    else if t == MSG_SET_AXIS_ENABLED then Enabled
    else if t == MSG_SET_AXIS_ABS_POS then AbsPos
    else if t == c.relPos then RelPos
    else if t == c.maxSpeed || t == MSG_SET_AXIS_MAX_ACCEL || t == c.pidKp then Gain
    else if t == MSG_SET_AXIS_IO_STEP || t == MSG_SET_AXIS_IO_DIR then Gpio
    else if t == c.globalConfig then GlobalConfig
    else Unknown
  }

  /** With distinct labels every label reaches its own case. */
  lemma KindsOfLabels(c: Codes)
    requires Distinct(c)
    ensures KindOf(MSG_TIMING, c) == TimingKind && KindOf(c.updateRate, c) == UpdateRate
    ensures KindOf(MSG_SET_AXIS_ENABLED, c) == Enabled && KindOf(MSG_SET_AXIS_ABS_POS, c) == AbsPos
    ensures KindOf(c.relPos, c) == RelPos && KindOf(c.globalConfig, c) == GlobalConfig
    ensures KindOf(c.maxSpeed, c) == Gain && KindOf(MSG_SET_AXIS_MAX_ACCEL, c) == Gain && KindOf(c.pidKp, c) == Gain
    ensures KindOf(MSG_SET_AXIS_IO_STEP, c) == Gpio && KindOf(MSG_SET_AXIS_IO_DIR, c) == Gpio
  {
    var own := [c.updateRate, c.relPos, c.maxSpeed, c.pidKp, c.globalConfig];
    assert own[0] == c.updateRate && own[1] == c.relPos && own[2] == c.maxSpeed;
    assert own[3] == c.pidKp && own[4] == c.globalConfig;
  }

  // ---------------------------------------------------------------------
  // all_digits (src/test_client/udp.c:53-63) is the code of
  // LegacyClientUdp.AllDigits, whose `sign` is not looked at either.

  /** all_digits accepts the line a user types for any number, signed or
   *  not: get_property_uint takes a '-' just as get_property_int does. */
  lemma {:induction false} SignedLineAccepted(n: nat, negative: bool)
    ensures LegacyClientUdp.NumberLine((if negative then "-" else "") + Digits(n) + "\n")
  {
    var line := (if negative then "-" else "") + Digits(n) + "\n";
    assert line[|line| - 1] == '\n';
    assert forall k :: 0 <= k < |line| - 1 ==> IsDigit(line[k]) || line[k] == '-';
  }

  // ---------------------------------------------------------------------
  // Messages

  /** The message structs: Message, Message_uint, Message_uint_uint,
   *  Message_uint_int (an int32_t value), Message_timing and
   *  Message_set_kp (a float, carried as its bits). */
  datatype Message =
    | Header(msgType: u32)
    | Uint(msgType: u32, value: u32)
    | UintUint(msgType: u32, axis: u32, value: u32)
    | UintInt(msgType: u32, axis: u32, signed: i32)
    | Timing(msgType: u32, updateId: u32, time: u32)
    | UintFloat(msgType: u32, axis: u32, gain: F32)

  /** The words of the struct in memory. */
  function Words(m: Message): (ws: seq<u32>)
    ensures 1 <= |ws| <= 3 && ws[0] == m.msgType
  {
    match m
    case Header(t) => [t]
    case Uint(t, v) => [t, v]
    case UintUint(t, a, v) => [t, a, v]
    case UintInt(t, a, v) => [t, a, U32(v)]
    case Timing(t, id, time) => [t, id, time]
    case UintFloat(t, a, g) => [t, a, g]
  }

  /** sizeof the struct, in bytes. */
  function Size(m: Message): nat
  {
    4 * |Words(m)|
  }

  /** The words of several messages, one after the other. */
  function Flat(ms: seq<Message>): seq<u32>
  {
    if ms == [] then [] else Flat(ms[..|ms| - 1]) + Words(ms[|ms| - 1])
  }

  lemma FlatSnoc(ms: seq<Message>, m: Message)
    ensures Flat(ms + [m]) == Flat(ms) + Words(m)
  {
    assert (ms + [m])[..|ms|] == ms;
  }

  /**
   * The struct serialize_data fills from the four values for their type
   * (src/test_client/udp.c:308-373), or None for a type it does not know,
   * where it ends the program (lines 374-376). The struct is the first
   * one, two or three values as they are: the int32_t fields take the 32
   * bits of values[2] and the float field its raw bits.
   */
  function MessageFor(values: seq<u32>, c: Codes): (r: Option<Message>)
    requires |values| == 4
    ensures r.None? <==> KindOf(values[0], c) == Unknown
    ensures r.Some? ==> Words(r.value) == values[..|Words(r.value)|]
    ensures r.Some? ==>
      |Words(r.value)| == match KindOf(values[0], c) case GlobalConfig => 1 case UpdateRate => 2 case _ => 3
  {
    var t, v1, v2 := values[0], values[1], values[2];
    match KindOf(t, c)
    case TimingKind => Some(Timing(t, v1, v2))
    case UpdateRate => Some(Uint(t, v1))
    case Enabled => Some(UintUint(t, v1, v2))
    case AbsPos => Some(UintUint(t, v1, v2))
    case RelPos => I32Congruent(0, v2); Some(UintInt(t, v1, I32(v2)))
    case Gain => Some(UintFloat(t, v1, v2))
    case Gpio => I32Congruent(0, v2); Some(UintInt(t, v1, I32(v2)))
    case GlobalConfig => Some(Header(t))
    case Unknown => None
  }

  /** How a run of the client ends. Sent: the packet is ready to send.
   *  TooManyValues and Unexpected: the line is refused and the packet
   *  cleared. InvalidType and NoSpace: the program exits. Overflow: the C
   *  code writes past the packet buffer, which C leaves undefined. */
  datatype Outcome =
    | Sent
    | TooManyValues(value: u32)
    | Unexpected(ch: char)
    | InvalidType(msgType: u32)
    | NoSpace
    | Overflow

  /** serialize_data, corrected: with `space` bytes left, the message it
   *  stores, or the exit; the space is checked before anything is copied. */
  function Next(values: seq<u32>, space: nat, c: Codes): (r: Result<Message, Outcome>)
    requires |values| == 4
    ensures r.Ok? ==> MessageFor(values, c) == Some(r.value) && Size(r.value) <= space
    ensures r.Err? ==> r.error in {InvalidType(values[0]), NoSpace}
    ensures KindOf(values[0], c) == Unknown ==> r == Err(InvalidType(values[0]))
    ensures KindOf(values[0], c) != Unknown && space >= 12 ==> r.Ok?
  {
    match MessageFor(values, c)
    case None => Err(InvalidType(values[0]))
    case Some(m) => if space < Size(m) then Err(NoSpace) else Ok(m)
  }

  /** An absolute position is stored whenever there is room. */
  lemma NextPosition(k: u32, pos: u32, space: nat, c: Codes)
    requires Distinct(c) && space >= 12
    ensures Next([MSG_SET_AXIS_ABS_POS, k, pos, 0], space, c) == Ok(UintUint(MSG_SET_AXIS_ABS_POS, k, pos))
  {
    KindsOfLabels(c);
  }

  // ---------------------------------------------------------------------
  // serialize_data as written (src/test_client/udp.c:289-388)

  /**
   * serialize_data as the code stands, with *packet a word index into
   * main's packet: the struct is copied before the space is checked, so a
   * full packet is written past (Overflow); and `packet_space -=
   * message_size` moves the local pointer instead of the count it points
   * to, so *packet_space never shrinks. The new *packet and *packet_space.
   */
  function SerializeAsWritten(at: nat, space: nat, values: seq<u32>, c: Codes): (r: Result<(nat, nat), Outcome>)
    requires |values| == 4
    ensures r.Ok? ==> r.value.1 == space && at < r.value.0 <= PACKET_WORDS
    ensures r.Err? && r.error == InvalidType(values[0]) <==> KindOf(values[0], c) == Unknown
  {
    match MessageFor(values, c)
    case None => Err(InvalidType(values[0]))
    case Some(m) =>
      if at + |Words(m)| > PACKET_WORDS then Err(Overflow)
      else if space < Size(m) then Err(NoSpace)
      else Ok((at + |Words(m)|, space))
  }

  /** Several calls of serialize_data as written, one after the other. */
  function PackAsWritten(at: nat, space: nat, vs: seq<seq<u32>>, c: Codes): (r: Result<(nat, nat), Outcome>)
    requires forall k :: 0 <= k < |vs| ==> |vs[k]| == 4
    decreases |vs|
  {
    if vs == [] then Ok((at, space))
    else
      match SerializeAsWritten(at, space, vs[0], c)
      case Err(o) => Err(o)
      case Ok((a, s)) => PackAsWritten(a, s, vs[1..], c)
  }

  /** The values of the line "4,4,...,4\n": `k` positions of axis 0. */
  function Positions(k: nat): (vs: seq<seq<u32>>)
    ensures |vs| == k && forall j :: 0 <= j < k ==> vs[j] == [MSG_SET_AXIS_ABS_POS, 0, 0, 0]
  {
    seq(k, _ => [MSG_SET_AXIS_ABS_POS, 0, 0, 0])
  }

  /** As written, *packet_space stays at its first value however many
   *  positions are stored, while *packet moves three words each. */
  lemma {:induction false} PositionsAsWritten(at: nat, k: nat, c: Codes)
    requires Distinct(c) && at + 3 * k <= PACKET_WORDS
    ensures PackAsWritten(at, BUFSIZE - 4, Positions(k), c) == Ok((at + 3 * k, BUFSIZE - 4))
    decreases k
  {
    if k > 0 {
      var vs := Positions(k);
      assert vs[1..] == Positions(k - 1);
      NextPosition(0, 0, BUFSIZE - 4, c);
      assert SerializeAsWritten(at, BUFSIZE - 4, vs[0], c) == Ok((at + 3, BUFSIZE - 4));
      PositionsAsWritten(at + 3, k - 1, c);
    }
  }

  /** The finding: the line of 86 positions "4,4,...,4\n" fills the
   *  256-word packet and the 86th copy goes past its end; the space check
   *  never stops it, because the space never shrinks. */
  lemma PositionsOverflow(c: Codes)
    requires Distinct(c)
    ensures PackAsWritten(0, BUFSIZE - 4, Positions(86), c) == Err(Overflow)
  {
    PositionsPast(0, 86, c);
  }

  lemma {:induction false} PositionsPast(at: nat, k: nat, c: Codes)
    requires Distinct(c) && at <= PACKET_WORDS < at + 3 * k
    ensures PackAsWritten(at, BUFSIZE - 4, Positions(k), c) == Err(Overflow)
    decreases k
  {
    var vs := Positions(k);
    NextPosition(0, 0, BUFSIZE - 4, c);
    if at + 3 <= PACKET_WORDS {
      assert vs[1..] == Positions(k - 1);
      assert SerializeAsWritten(at, BUFSIZE - 4, vs[0], c) == Ok((at + 3, BUFSIZE - 4));
      PositionsPast(at + 3, k - 1, c);
    } else {
      assert SerializeAsWritten(at, BUFSIZE - 4, vs[0], c) == Err(Overflow);
    }
  }

  // ---------------------------------------------------------------------
  // populate_data_oneshot (src/test_client/udp.c:390-449)

  /**
   * The tokenizer of populate_data_oneshot from character `i` of the line
   * fgets read, with `n` numbers of the current message in `values`,
   * `space` bytes left and the messages `ms` stored so far: the stored
   * messages and how it ends. ',' stores the message and starts a new
   * one, ':' and white space are skipped, '\n' stores the message and
   * stops, a number (read by strtol and kept as uint32_t) fills the next
   * value; a fifth number or any other character refuses the line. The
   * line ends at its first NUL; a last message with no newline after it
   * is not stored.
   */
  function Oneshot(line: string, i: nat, values: seq<u32>, n: nat, space: nat, ms: seq<Message>, c: Codes): (r: (seq<Message>, Outcome))
    requires i <= |line| && |values| == 4 && n <= 4
    ensures ms <= r.0
    ensures forall k :: |ms| <= k < |r.0| ==> KindOf(r.0[k].msgType, c) != Unknown
    decreases |line| - i, 4 - n
  {
    if i == |line| || line[i] == '\0' then (ms, Sent)
    else
      var ch := line[i];
      if ch == ',' then
        match Next(values, space, c)
        case Err(o) => (ms, o)
        case Ok(m) => Oneshot(line, i + 1, [0, 0, 0, 0], 0, space - Size(m), ms + [m], c)
      else if ch == ':' then Oneshot(line, i + 1, values, n, space, ms, c)
      else if ch == '\n' then
        match Next(values, space, c)
        case Err(o) => (ms, o)
        case Ok(m) => (ms + [m], Sent)
      else if IsSpace(ch) then Oneshot(line, i + 1, values, n, space, ms, c)
      else if IsDigit(ch) || ch == '-' then
        var (v, j) := LegacyClientUdp.StrtolAt(line, i);
        if n < 4 then Oneshot(line, j, values[n := v], n + 1, space, ms, c)
        else (ms, TooManyValues(v))
      else (ms, Unexpected(ch))
  }

  /** The tokenizer at ',' or '\n': the message is stored, or the program
   *  exits. */
  lemma OneshotStore(line: string, i: nat, values: seq<u32>, n: nat, space: nat, ms: seq<Message>, c: Codes)
    requires i < |line| && (line[i] == ',' || line[i] == '\n') && |values| == 4 && n <= 4
    ensures var r := Oneshot(line, i, values, n, space, ms, c);
      match Next(values, space, c)
      case Err(o) => r == (ms, o)
      case Ok(m) =>
        r == if line[i] == '\n' then (ms + [m], Sent)
             else Oneshot(line, i + 1, [0, 0, 0, 0], 0, space - Size(m), ms + [m], c)
  {
  }

  /** The tokenizer skips ':' and white space. */
  lemma OneshotSkip(line: string, i: nat, values: seq<u32>, n: nat, space: nat, ms: seq<Message>, c: Codes)
    requires i < |line| && line[i] != ',' && line[i] != '\n' && (line[i] == ':' || IsSpace(line[i]))
    requires |values| == 4 && n <= 4
    ensures Oneshot(line, i, values, n, space, ms, c) == Oneshot(line, i + 1, values, n, space, ms, c)
  {
  }

  /** The tokenizer reads a number into the next value, or refuses a
   *  fifth one. */
  lemma OneshotNumber(line: string, i: nat, values: seq<u32>, n: nat, space: nat, ms: seq<Message>, c: Codes)
    requires i < |line| && (IsDigit(line[i]) || line[i] == '-') && |values| == 4 && n <= 4
    ensures var v := LegacyClientUdp.StrtolAt(line, i);
      Oneshot(line, i, values, n, space, ms, c) ==
        if n < 4 then Oneshot(line, v.1, values[n := v.0], n + 1, space, ms, c) else (ms, TooManyValues(v.0))
  {
  }

  /** Any other character refuses the line. */
  lemma OneshotOther(line: string, i: nat, values: seq<u32>, n: nat, space: nat, ms: seq<Message>, c: Codes)
    requires i < |line| && line[i] != '\0' && line[i] !in {',', ':', '\n', '-'}
    requires !IsSpace(line[i]) && !IsDigit(line[i]) && |values| == 4 && n <= 4
    ensures Oneshot(line, i, values, n, space, ms, c) == (ms, Unexpected(line[i]))
  {
  }

  /** The finding of the refused line: "4:0:10, x" stores one position of
   *  three words and then refuses 'x'; the clear of BUFSIZE bytes from
   *  *packet as written (src/test_client/udp.c:437, 443) then starts
   *  three words in and runs past the packet. */
  lemma RefusedAfterPosition(line: string, buf: seq<u32>, c: Codes)
    requires line == "4:0:10, x\n" && |buf| == PACKET_WORDS && Distinct(c)
    ensures Oneshot(line, 0, [0, 0, 0, 0], 0, BUFSIZE - 4, [], c) == ([UintUint(4, 0, 10)], Unexpected('x'))
    ensures |Flat([UintUint(4, 0, 10)])| == 3
    ensures LegacyClientUdp.ClearAsWritten(buf, 3) == Err(LegacyClientUdp.Overflow)
  {
    RefusedHead(line, c);
    RefusedMiddle(line, c);
    RefusedTail(line, c);
    assert [UintUint(4, 0, 10)][..0] == [];
    LegacyClientUdp.ClearOverflows(buf, 3);
  }

  lemma RefusedHead(line: string, c: Codes)
    requires line == "4:0:10, x\n"
    ensures Oneshot(line, 0, [0, 0, 0, 0], 0, BUFSIZE - 4, [], c) == Oneshot(line, 2, [4, 0, 0, 0], 1, BUFSIZE - 4, [], c)
  {
    var S: nat := BUFSIZE - 4;
    assert Digits(4) == "4" && line[0..1] == "4";
    LegacyClientUdp.StrtolReadsDigits(line, 0, 4);
    var z: seq<u32> := [0, 0, 0, 0];
    assert z[0 := 4] == [4, 0, 0, 0];
    OneshotNumber(line, 0, z, 0, S, [], c);
    OneshotSkip(line, 1, [4, 0, 0, 0], 1, S, [], c);
  }

  lemma RefusedMiddle(line: string, c: Codes)
    requires line == "4:0:10, x\n"
    ensures Oneshot(line, 2, [4, 0, 0, 0], 1, BUFSIZE - 4, [], c) == Oneshot(line, 6, [4, 0, 10, 0], 3, BUFSIZE - 4, [], c)
  {
    RefusedZero(line, c);
    RefusedTen(line, c);
  }

  lemma RefusedZero(line: string, c: Codes)
    requires line == "4:0:10, x\n"
    ensures Oneshot(line, 2, [4, 0, 0, 0], 1, BUFSIZE - 4, [], c) == Oneshot(line, 4, [4, 0, 0, 0], 2, BUFSIZE - 4, [], c)
  {
    var S: nat := BUFSIZE - 4;
    assert Digits(0) == "0" && line[2..3] == "0";
    LegacyClientUdp.StrtolReadsDigits(line, 2, 0);
    assert [4, 0, 0, 0][1 := 0] == [4, 0, 0, 0];
    OneshotNumber(line, 2, [4, 0, 0, 0], 1, S, [], c);
    OneshotSkip(line, 3, [4, 0, 0, 0], 2, S, [], c);
  }

  lemma RefusedTen(line: string, c: Codes)
    requires line == "4:0:10, x\n"
    ensures Oneshot(line, 4, [4, 0, 0, 0], 2, BUFSIZE - 4, [], c) == Oneshot(line, 6, [4, 0, 10, 0], 3, BUFSIZE - 4, [], c)
  {
    TenAt(line);
    OneshotNumber(line, 4, [4, 0, 0, 0], 2, BUFSIZE - 4, [], c);
  }

  lemma TenAt(line: string)
    requires line == "4:0:10, x\n"
    ensures LegacyClientUdp.StrtolAt(line, 4) == (10, 6)
  {
    assert Digits(10) == "10";
    LegacyClientUdp.StrtolReadsDigits(line, 4, 10);
  }

  lemma RefusedTail(line: string, c: Codes)
    requires line == "4:0:10, x\n" && Distinct(c)
    ensures Oneshot(line, 6, [4, 0, 10, 0], 3, BUFSIZE - 4, [], c) == ([UintUint(4, 0, 10)], Unexpected('x'))
  {
    var S: nat := BUFSIZE - 4;
    var m := UintUint(4, 0, 10);
    NextPosition(0, 10, S, c);
    assert Size(m) == 12 && [] + [m] == [m];
    OneshotStore(line, 6, [4, 0, 10, 0], 3, S, [], c);
    OneshotSkip(line, 7, [0, 0, 0, 0], 0, S - 12, [m], c);
    OneshotOther(line, 8, [0, 0, 0, 0], 0, S - 12, [m], c);
  }

  /** The tokenizer at ',' or '\n' (src/test_client/udp.c:412-427): the
   *  message serialize_data stores, or the reason it exits. */
  method Store(line: string, i: nat, values: seq<u32>, n: nat, space: nat, c: Codes,
               ghost ms: seq<Message>, ghost final: (seq<Message>, Outcome))
    returns (next: Result<Message, Outcome>)
    requires i < |line| && (line[i] == ',' || line[i] == '\n')
    requires |values| == 4 && n <= 4 && Oneshot(line, i, values, n, space, ms, c) == final
    ensures next == Next(values, space, c)
    ensures next.Err? ==> final == (ms, next.error)
    ensures next.Ok? ==> Size(next.value) <= space
    ensures next.Ok? && line[i] == '\n' ==> final == (ms + [next.value], Sent)
    ensures next.Ok? && line[i] == ',' ==>
      Oneshot(line, i + 1, [0, 0, 0, 0], 0, space - Size(next.value), ms + [next.value], c) == final
  {
    OneshotStore(line, i, values, n, space, ms, c);
    next := Next(values, space, c);
  }

  /** The tokenizer's other characters (src/test_client/udp.c:428-445):
   *  skip ':' and white space, read a number into the next value, or
   *  refuse the line with the reason. */
  method Take(line: string, i: nat, values: seq<u32>, n: nat, space: nat, c: Codes,
              ghost ms: seq<Message>, ghost final: (seq<Message>, Outcome))
    returns (i': nat, values': seq<u32>, n': nat, stop: Option<Outcome>)
    requires i < |line| && line[i] != '\0' && line[i] != ',' && line[i] != '\n'
    requires |values| == 4 && n <= 4 && Oneshot(line, i, values, n, space, ms, c) == final
    ensures stop.Some? ==> final == (ms, stop.value) && (stop.value.TooManyValues? || stop.value.Unexpected?)
    ensures stop.None? ==>
      && i' <= |line| && |values'| == 4 && n' <= 4 && (i' > i || (i' == i && n' > n))
      && Oneshot(line, i', values', n', space, ms, c) == final
  {
    var ch := line[i];
    i', values', n', stop := i, values, n, None;
    if ch == ':' || IsSpace(ch) {
      OneshotSkip(line, i, values, n, space, ms, c);
      i' := i + 1;
    } else if IsDigit(ch) || ch == '-' {
      OneshotNumber(line, i, values, n, space, ms, c);
      var conv := LegacyClientUdp.StrtolAt(line, i);
      if n >= 4 {
        stop := Some(TooManyValues(conv.0));
      } else {
        values' := values[n := conv.0];
        n' := n + 1;
        i' := conv.1;
      }
    } else {
      OneshotOther(line, i, values, n, space, ms, c);
      stop := Some(Unexpected(ch));
    }
  }

  /**
   * populate_data_oneshot on the line fgets read, with serialize_data
   * corrected (Next): the words of the packet up to packet_size, and the
   * size. A refused line clears the packet and returns 0, the clear
   * starting at the packet's start (corrected, see RefusedAfterPosition);
   * an exit leaves the messages stored before it. The packet never holds
   * more than BUFSIZE - 4 bytes, which keeps a zero word at its end.
   */
  method PopulateDataOneshot(line: string, c: Codes) returns (packet: seq<u32>, packetSize: nat, outcome: Outcome)
    ensures var r := Oneshot(line, 0, [0, 0, 0, 0], 0, BUFSIZE - 4, [], c);
      && outcome == r.1
      && (outcome.TooManyValues? || outcome.Unexpected? ==> packetSize == 0 && packet == [])
      && (!outcome.TooManyValues? && !outcome.Unexpected? ==>
            packet == Flat(r.0) && packetSize == 4 * |packet| <= BUFSIZE - 4)
  {
    ghost var final := Oneshot(line, 0, [0, 0, 0, 0], 0, BUFSIZE - 4, [], c);
    var space: nat := BUFSIZE - 4;
    var values: seq<u32> := [0, 0, 0, 0];
    var valueNum: nat := 0;
    packet, packetSize := [], 0;
    ghost var ms: seq<Message> := [];
    var i := 0;
    while i < |line| && line[i] != '\0'
      invariant i <= |line| && |values| == 4 && valueNum <= 4
      invariant packet == Flat(ms) && packetSize == 4 * |packet| && packetSize + space == BUFSIZE - 4
      invariant Oneshot(line, i, values, valueNum, space, ms, c) == final
      decreases |line| - i, 4 - valueNum
    {
      var ch := line[i];
      if ch == ',' || ch == '\n' {
        var next := Store(line, i, values, valueNum, space, c, ms, final);
        if next.Err? {
          return packet, packetSize, next.error;
        }
        var m := next.value;
        FlatSnoc(ms, m);
        ms := ms + [m];
        packet := packet + Words(m);
        packetSize, space := packetSize + Size(m), space - Size(m);
        if ch == '\n' {
          return packet, packetSize, Sent;
        }
        values, valueNum := [0, 0, 0, 0], 0;
        i := i + 1;
      } else {
        var stop;
        i, values, valueNum, stop := Take(line, i, values, valueNum, space, c, ms, final);
        if stop.Some? {
          return [], 0, stop.value;
        }
      }
    }
    outcome := Sent;
  }

  // ---------------------------------------------------------------------
  // log_data_write (src/test_client/udp.c:163-195)

  /** What one call logs: the axis and the kind of data (uint8_t), and the
   *  value (int32_t). serialize_data logs each position it stores as data
   *  type 1 (src/test_client/udp.c:338). */
  datatype LogEntry = LogEntry(axis: u8, dataType: u8, value: i32)

  /** The 10 bytes log_data_write sends to the FIFO: the call counter,
   *  the axis, the data type and the value, little-endian
   *  (src/test_client/udp.c:178-187). */
  function Frame(count: u32, e: LogEntry): (f: seq<u8>)
    ensures |f| == 10
  {
    LeBytes32(count) + [e.axis, e.dataType] + LeBytes32(U32(e.value))
  }

  /** How a reader takes a 10-byte frame apart. */
  function Unframe(f: seq<u8>): (u32, LogEntry)
    requires |f| == 10
  {
    (LeWord32(f[..4]), LogEntry(f[4], f[5], I32(LeWord32(f[6..]))))
  }

  /** A frame gives back the counter and the entry it was made from. */
  lemma FrameRoundTrip(count: u32, e: LogEntry)
    ensures Unframe(Frame(count, e)) == (count, e)
  {
    var f := Frame(count, e);
    assert f[..4] == LeBytes32(count);
    assert f[6..] == LeBytes32(U32(e.value));
    LegacyClientUdp.SignedBack(e.value);
  }

  /** The bytes of the entries `es` logged one after the other, the first
   *  with the counter at `first`. */
  function Stream(first: u32, es: seq<LogEntry>): (s: seq<u8>)
    ensures |s| == 10 * |es|
  {
    if es == [] then [] else Stream(first, es[..|es| - 1]) + Frame(U32(first + |es| - 1), es[|es| - 1])
  }

  /** The log can be cut every 10 bytes: frame `i` holds entry `i` and a
   *  counter `i` past the first, so a reader sees the counters climb by
   *  one (modulo 2^32). */
  lemma {:induction false} StreamFrames(first: u32, es: seq<LogEntry>, i: nat)
    requires i < |es|
    ensures Unframe(Stream(first, es)[10 * i..10 * i + 10]) == (U32(first + i), es[i])
    decreases |es|
  {
    var init := es[..|es| - 1];
    var s := Stream(first, es);
    var front := Stream(first, init);
    if i < |es| - 1 {
      assert s[10 * i..10 * i + 10] == front[10 * i..10 * i + 10];
      StreamFrames(first, init, i);
      assert init[i] == es[i];
    } else {
      assert s[10 * i..10 * i + 10] == Frame(U32(first + i), es[i]);
      FrameRoundTrip(U32(first + i), es[i]);
    }
  }

  /** One more entry adds its frame with the next counter. */
  lemma StreamSnoc(es: seq<LogEntry>, e: LogEntry)
    ensures Stream(0, es + [e]) == Stream(0, es) + Frame(U32(|es|), e)
  {
    assert (es + [e])[..|es|] == es;
  }

  /** Logging one more entry adds its frame and counts it. */
  lemma WriterStep(es: seq<LogEntry>, e: LogEntry, count: u32)
    requires count == U32(|es|)
    ensures Stream(0, es + [e]) == Stream(0, es) + Frame(count, e)
    ensures U32(count + 1) == U32(|es + [e]|)
  {
    StreamSnoc(es, e);
    ModAddBoth(|es|, 1, 0x1_0000_0000);
  }

  /** The statics of log_data_write: the counter, whether the FIFO is
   *  open, and what has reached the FIFO. */
  class LogWriter {
    var count: u32
    var open: bool
    var written: seq<u8>
    /** The entries whose frames were written, in order. */
    ghost var entries: seq<LogEntry>

    /** The FIFO holds the frames of the entries written, counted from 0,
     *  and the counter is the number of them (modulo 2^32). */
    ghost predicate Valid()
      reads this
    {
      written == Stream(0, entries) && count == U32(|entries|)
    }

    constructor ()
      ensures Valid() && entries == [] && !open
    {
      count, open, written, entries := 0, false, [], [];
    }

    /**
     * log_data_write(axis, data_type, value): open the FIFO if it is not
     * open (`opens` is whether fopen succeeds; when it fails the call
     * returns and logs nothing), write the frame, close the FIFO after
     * every 500th call, and count the call. The fwrite loop runs once:
     * fwrite returns a count, which is never negative.
     */
    method LogDataWrite(e: LogEntry, opens: bool)
      requires Valid()
      modifies this
      ensures Valid()
      ensures !old(open) && !opens ==> entries == old(entries) && count == old(count) && !open
      ensures old(open) || opens ==>
        && entries == old(entries) + [e]
        && written == old(written) + Frame(old(count), e)
        && open == (old(count) % 500 != 0)
    {
      if !open {
        if !opens {
          return;
        }
        open := true;
      }
      WriterStep(entries, e, count);
      written := written + Frame(count, e);
      entries := entries + [e];
      if count % 500 == 0 {
        open := false;
      }
      count := U32(count + 1);
    }
  }

  // ---------------------------------------------------------------------
  // log_data_read (src/test_client/udp.c:198-244)

  /** The 8 bytes the graphing tool sends: a uint32_t data type and a
   *  float gain, little-endian. */
  function Record(dataType: u32, gain: F32): (r: seq<u8>)
    ensures |r| == 8
  {
    LeBytes32(dataType) + LeBytes32(gain)
  }

  /** The values log_data_read builds from the bytes read
   *  (src/test_client/udp.c:218-225); a short read leaves the rest of the
   *  8-byte buffer zero. */
  function ReadValues(got: seq<u8>, c: Codes): (values: seq<u32>)
    requires 0 < |got| <= 8
    ensures |values| == 4
  {
    var b := got + seq(8 - |got|, _ => 0);
    [U32(LeWord32(b[..4]) + c.pidKp), 1, LeWord32(b[4..]), 0]
  }

  /** A whole record becomes the gain message for its data type past
   *  MSG_SET_AXIS_PID_KP, for axis 1, carrying the gain's bits. */
  lemma ReadRecord(dataType: u32, gain: F32, c: Codes)
    ensures ReadValues(Record(dataType, gain), c) == [U32(dataType + c.pidKp), 1, gain, 0]
  {
    var r := Record(dataType, gain);
    assert r + seq(0, _ => 0) == r;
    assert r[..4] == LeBytes32(dataType) && r[4..] == LeBytes32(gain);
  }

  /** Data type 0 asks for a proportional gain: the message sent is the
   *  Message_set_kp of axis 1 with the gain's bits. */
  lemma GainRecord(gain: F32, c: Codes)
    requires Distinct(c)
    ensures Next(ReadValues(Record(0, gain), c), BUFSIZE - 4, c) == Ok(UintFloat(c.pidKp, 1, gain))
  {
    ReadRecord(0, gain, c);
    KindsOfLabels(c);
  }

  /** The statics of log_data_read: the call counter and the descriptor
   *  of the FIFO, 0 when it is not open. */
  class LogReader {
    var count: u32
    var fd: int

    constructor ()
      ensures count == 0 && fd == 0
    {
      count, fd := 0, 0;
    }

    /**
     * log_data_read: open the FIFO when fd is 0 (`openFd` is what open
     * returns: a descriptor, or -1, which the code does not take for a
     * failure; only 0 makes it return), read up to 8 bytes (`got`, empty
     * when read returns nothing; a bad descriptor reads nothing), and when
     * something was read send the message serialize_data makes of it;
     * close the FIFO after every 500th call and count the call. The
     * datagram is empty when nothing is sent; an unknown type ends the
     * program (exit).
     */
    method LogDataRead(openFd: int, got: seq<u8>, c: Codes) returns (datagram: seq<u32>, exit: Option<Outcome>)
      requires |got| <= 8
      modifies this
      ensures var d := if old(fd) == 0 then openFd else old(fd);
        && (d == 0 ==> datagram == [] && exit == None && count == old(count) && fd == 0)
        && (d != 0 ==> count == U32(old(count) + 1) && fd == (if old(count) % 500 == 0 then 0 else d))
        && (d <= 0 || got == [] ==> datagram == [] && exit == None)
        && (d > 0 && got != [] ==>
              match MessageFor(ReadValues(got, c), c)
              case None => exit == Some(InvalidType(ReadValues(got, c)[0])) && datagram == []
              case Some(m) => exit == None && datagram == Words(m))
    {
      datagram, exit := [], None;
      if fd == 0 {
        fd := openFd;
        if fd == 0 {
          return;
        }
      }
      if fd > 0 && got != [] {
        var values := ReadValues(got, c);
        var next := Next(values, BUFSIZE - 4, c);
        if next.Err? {
          exit := Some(next.error);
        } else {
          datagram := Words(next.value);
        }
      }
      if count % 500 == 0 {
        fd := 0;
      }
      count := U32(count + 1);
    }
  }

  // ---------------------------------------------------------------------
  // populate_data_loop (src/test_client/udp.c:499-602)

  /** The static arrays of populate_data_loop for one axis: axis_pos,
   *  axis_direction (down when not zero), axis_period, axis_speed and
   *  axis_destination. */
  datatype Swing = Swing(pos: u32, down: bool, period: u32, speed: u32, destination: u32)

  /** axis_start: UINT_MAX / 2. */
  const AXIS_START: u32 := UINT_MAX / 2

  /** The speeds of the four axes. */
  const SPEEDS: seq<u32> := [1, 10, 100, 1000]

  /** An axis after the init block: at axis_start, odd axes going down,
   *  turning every (axis + 1) * 1000 calls, swinging up to 10000 steps
   *  above the start. */
  function Initial(k: nat): Swing
    requires k < MAX_AXIS
  {
    Swing(AXIS_START, k % 2 == 1, (k + 1) * 1000, SPEEDS[k], AXIS_START + 10000)
  }

  function Initials(): (xs: seq<Swing>)
    ensures |xs| == MAX_AXIS
  {
    seq(MAX_AXIS, k requires 0 <= k < MAX_AXIS => Initial(k))
  }

  /** One call's pass over an axis (src/test_client/udp.c:553-569): the
   *  direction flips when run_count is a multiple of the period; going up
   *  the position moves by the speed and is held at the destination,
   *  going down it moves back and is held at axis_start. */
  function Turn(x: Swing, run: u32): (y: Swing)
    requires x.period > 0
    ensures y.period == x.period && y.speed == x.speed && y.destination == x.destination
    ensures !y.down ==> y.pos <= x.destination
    ensures y.down ==> y.pos >= AXIS_START
  {
    var down := if run % x.period == 0 then !x.down else x.down;
    if !down then
      var p := U32(x.pos + x.speed);
      x.(down := down, pos := if p > x.destination then x.destination else p)
    else
      var p := U32(x.pos - x.speed);
      x.(down := down, pos := if p < AXIS_START then AXIS_START else p)
  }

  /** An axis whose swing fits in 32 bits: between axis_start and the
   *  destination, with room for one step past either end. */
  predicate Bounded(x: Swing)
  {
    && x.period > 0
    && AXIS_START <= x.pos <= x.destination
    && x.destination as int + x.speed < 0x1_0000_0000
    && x.speed <= AXIS_START
  }

  /** A swing stays between axis_start and the destination, and each call
   *  moves it by the speed toward the end it is heading for, stopping
   *  there: the uint32_t arithmetic never wraps. */
  lemma TurnBounded(x: Swing, run: u32)
    requires Bounded(x)
    ensures Bounded(Turn(x, run))
    ensures var y := Turn(x, run);
      && (!y.down ==> y.pos as int == if x.pos + x.speed < x.destination then x.pos + x.speed else x.destination)
      && (y.down ==> y.pos as int == if x.pos - x.speed > AXIS_START then x.pos - x.speed else AXIS_START)
  {
  }

  lemma InitialBounded(k: nat)
    requires k < MAX_AXIS
    ensures Bounded(Initial(k))
  {
  }

  /** Every axis turned once. */
  function TurnAll(xs: seq<Swing>, run: u32): (ys: seq<Swing>)
    requires forall k :: 0 <= k < |xs| ==> Bounded(xs[k])
    ensures |ys| == |xs|
    decreases |xs|
  {
    if xs == [] then []
    else
      var x := xs[|xs| - 1];
      assert Bounded(x);
      TurnAll(xs[..|xs| - 1], run) + [Turn(x, run)]
  }

  /** Axis `i` of TurnAll is axis `i` turned, and stays bounded. */
  lemma {:induction false} TurnAllAt(xs: seq<Swing>, run: u32, i: nat)
    requires forall k :: 0 <= k < |xs| ==> Bounded(xs[k])
    requires i < |xs|
    ensures TurnAll(xs, run)[i] == Turn(xs[i], run) && Bounded(TurnAll(xs, run)[i])
    decreases |xs|
  {
    if i < |xs| - 1 {
      TurnAllAt(xs[..|xs| - 1], run, i);
    } else {
      TurnBounded(xs[i], run);
    }
  }

  lemma TurnAllSnoc(xs: seq<Swing>, run: u32, k: nat)
    requires forall j :: 0 <= j < |xs| ==> Bounded(xs[j])
    requires k < |xs|
    ensures TurnAll(xs[..k + 1], run) == TurnAll(xs[..k], run) + [Turn(xs[k], run)]
  {
    assert xs[..k + 1][..k] == xs[..k];
  }

  /** The position message of axis `k`. */
  function Report(k: nat, x: Swing): Message
    requires k < MAX_AXIS
  {
    UintUint(MSG_SET_AXIS_ABS_POS, k, x.pos)
  }

  /** The position messages of the axes `xs`, in axis order. */
  function Reports(xs: seq<Swing>): (ms: seq<Message>)
    requires |xs| <= MAX_AXIS
    ensures |ms| == |xs| && |Flat(ms)| == 3 * |xs|
    decreases |xs|
  {
    if xs == [] then []
    else
      var init := Reports(xs[..|xs| - 1]);
      var m := Report(|xs| - 1, xs[|xs| - 1]);
      FlatSnoc(init, m);
      init + [m]
  }

  lemma ReportsSnoc(xs: seq<Swing>, y: Swing)
    requires |xs| < MAX_AXIS
    ensures Reports(xs + [y]) == Reports(xs) + [Report(|xs|, y)]
  {
    assert (xs + [y])[..|xs|] == xs;
  }

  /** The speed stores of the init block as written
   *  (src/test_client/udp.c:517-528): index and value. */
  const SPEED_STORES: seq<(nat, u32)> := [(0, 1), (1, 10), (2, 100), (3, 1000), (4, 10000), (5, 10000)]

  /** Stores into an array of |a| elements, one after the other: the
   *  array after them, or the index of the first store past its end. */
  function Stored(a: seq<u32>, stores: seq<(nat, u32)>): (r: Result<seq<u32>, nat>)
    ensures r.Ok? ==> |r.value| == |a|
    decreases |stores|
  {
    if stores == [] then Ok(a)
    else if stores[0].0 >= |a| then Err(stores[0].0)
    else Stored(a[stores[0].0 := stores[0].1], stores[1..])
  }

  /** The finding: the init block stores six speeds into the four-element
   *  axis_speed, the fifth one past its end; its first four stores give
   *  the speeds of the four axes. */
  lemma SpeedsOverflow()
    ensures Stored(seq(MAX_AXIS, _ => 0), SPEED_STORES) == Err(4)
    ensures Stored(seq(MAX_AXIS, _ => 0), SPEED_STORES[..MAX_AXIS]) == Ok(SPEEDS)
  {
    var z: seq<u32> := seq(MAX_AXIS, _ => 0);
    var a1, a2, a3 := z[0 := 1], z[0 := 1][1 := 10], z[0 := 1][1 := 10][2 := 100];
    assert a3[3 := 1000] == SPEEDS;
    var s := SPEED_STORES;
    var t: seq<(nat, u32)> := s[..MAX_AXIS];
    assert s[1..] == [(1, 10), (2, 100), (3, 1000), (4, 10000), (5, 10000)];
    assert s[1..][1..] == [(2, 100), (3, 1000), (4, 10000), (5, 10000)];
    assert s[1..][1..][1..] == [(3, 1000), (4, 10000), (5, 10000)];
    assert s[1..][1..][1..][1..] == [(4, 10000), (5, 10000)];
    assert Stored(SPEEDS, [(4, 10000), (5, 10000)]) == Err(4);
    assert t == [(0, 1), (1, 10), (2, 100), (3, 1000)];
    assert t[1..] == [(1, 10), (2, 100), (3, 1000)];
    assert t[1..][1..] == [(2, 100), (3, 1000)];
    assert t[1..][1..][1..] == [(3, 1000)];
    assert Stored(a3, t[1..][1..][1..]) == Ok(SPEEDS);
    assert Stored(a2, t[1..][1..]) == Ok(SPEEDS);
    assert Stored(a1, t[1..]) == Ok(SPEEDS);
  }

  /** The static state of populate_data_loop: the axes and run_count. */
  class Oscillator {
    var axes: seq<Swing>
    var runCount: u32

    /** The statics before the first call are zero. */
    constructor ()
      ensures Valid() && runCount == 0
    {
      axes := seq(MAX_AXIS, _ => Swing(0, false, 0, 0, 0));
      runCount := 0;
    }

    /** Once set up, every axis swings within its bounds. */
    predicate Valid()
      reads this
    {
      |axes| == MAX_AXIS && (runCount != 0 ==> forall k :: 0 <= k < MAX_AXIS ==> Bounded(axes[k]))
    }

    /** The init block, run when run_count is 0 (src/test_client/udp.c:510-533),
     *  storing the speeds and destinations of the four axes only (the
     *  stores past them are the finding of SpeedsOverflow). */
    method Start()
      requires Valid()
      modifies this
      ensures runCount == old(runCount) && |axes| == MAX_AXIS
      ensures axes == if runCount == 0 then Initials() else old(axes)
      ensures forall k :: 0 <= k < MAX_AXIS ==> Bounded(axes[k])
    {
      if runCount == 0 {
        var xs: seq<Swing> := [];
        for k := 0 to MAX_AXIS
          invariant |xs| == k && forall j :: 0 <= j < k ==> xs[j] == Initial(j)
        {
          xs := xs + [Swing(AXIS_START, k % 2 == 1, (k + 1) * 1000, SPEEDS[k], AXIS_START + 10000)];
        }
        axes := xs;
      }
      forall k | 0 <= k < MAX_AXIS
        ensures Bounded(axes[k])
      {
        if runCount == 0 {
          InitialBounded(k);
        }
      }
    }

    /** run_count++ at the end of a call. */
    method Tick()
      modifies this
      ensures axes == old(axes) && runCount == U32(old(runCount) + 1)
    {
      runCount := U32(runCount + 1);
    }

    /** The flip and the move of axis `k` (src/test_client/udp.c:553-569). */
    method TurnAxis(k: nat) returns (pos: u32)
      requires |axes| == MAX_AXIS && k < MAX_AXIS && Bounded(axes[k])
      modifies this
      ensures runCount == old(runCount)
      ensures axes == old(axes)[k := Turn(old(axes)[k], runCount)] && pos == axes[k].pos
    {
      var x := axes[k];
      var down := x.down;
      if runCount % x.period == 0 {
        down := !down;
      }
      var p: u32;
      if !down {
        p := U32(x.pos + x.speed);
        if p > x.destination {
          p := x.destination;
        }
      } else {
        p := U32(x.pos - x.speed);
        if p < AXIS_START {
          p := AXIS_START;
        }
      }
      axes := axes[k := x.(pos := p, down := down)];
      pos := p;
    }
  }

  /** One pass of the loop over the axes (src/test_client/udp.c:553-580):
   *  turn axis `k` after the axes `done`, and store its position after
   *  theirs. */
  method ReportAxis(osc: Oscillator, k: nat, space: nat, c: Codes, ghost start: seq<Swing>, ghost done: seq<Swing>)
    returns (ws: seq<u32>, size: nat, ghost done': seq<Swing>)
    requires Distinct(c) && space >= 12
    requires k < MAX_AXIS == |start| && (forall j :: 0 <= j < MAX_AXIS ==> Bounded(start[j]))
    requires done == TurnAll(start[..k], osc.runCount) && osc.axes == done + start[k..]
    modifies osc
    ensures osc.runCount == old(osc.runCount)
    ensures done' == TurnAll(start[..k + 1], osc.runCount) && osc.axes == done' + start[k + 1..]
    ensures Flat(Reports(done')) == Flat(Reports(done)) + ws && size == 12
  {
    assert osc.axes[k] == start[k];
    assert Bounded(start[k]);
    var pos := osc.TurnAxis(k);
    var x := osc.axes[k];
    done' := done + [x];
    assert osc.axes == done' + start[k + 1..];
    TurnAllSnoc(start, osc.runCount, k);
    ReportsSnoc(done, x);
    FlatSnoc(Reports(done), Report(k, x));
    NextPosition(k as u32, pos, space, c);
    var m := Next([MSG_SET_AXIS_ABS_POS, k as u32, pos, 0], space, c);
    ws, size := Words(m.value), Size(m.value);
  }

  /** The timing message comes first, with run_count and the clock. */
  lemma TimingFirst(run: u32, time: u32, c: Codes)
    requires Distinct(c)
    ensures Next([MSG_TIMING, run, time, 0], BUFSIZE - 4, c) == Ok(Timing(MSG_TIMING, run, time))
  {
    KindsOfLabels(c);
  }

  /** The loop over the axes (src/test_client/udp.c:553-580): every
   *  axis turned, and its position stored after the timing message. */
  method ReportAxes(osc: Oscillator, c: Codes) returns (ws: seq<u32>)
    requires Distinct(c) && |osc.axes| == MAX_AXIS
    requires forall j :: 0 <= j < MAX_AXIS ==> Bounded(osc.axes[j])
    modifies osc
    ensures osc.runCount == old(osc.runCount)
    ensures osc.axes == TurnAll(old(osc.axes), osc.runCount) && ws == Flat(Reports(osc.axes))
    ensures forall j :: 0 <= j < MAX_AXIS ==> Bounded(osc.axes[j])
  {
    ghost var start := osc.axes;
    var run := osc.runCount;
    var space: nat := BUFSIZE - 4 - 12;
    ghost var done: seq<Swing> := [];
    ws := [];
    var axis := 0;
    while axis < MAX_AXIS
      invariant axis <= MAX_AXIS && osc.runCount == run
      invariant done == TurnAll(start[..axis], run) && osc.axes == done + start[axis..]
      invariant ws == Flat(Reports(done)) && space == BUFSIZE - 16 - 12 * axis
    {
      var more, size;
      more, size, done := ReportAxis(osc, axis, space, c, start, done);
      ws := ws + more;
      space := space - size;
      axis := axis + 1;
    }
    assert start[..MAX_AXIS] == start;
    forall k | 0 <= k < MAX_AXIS
      ensures Bounded(osc.axes[k])
    {
      TurnAllAt(start, run, k);
    }
  }

  /**
   * populate_data_loop (src/test_client/udp.c:499-602): set the axes up on
   * the first call (and again when run_count wraps to 0), store a timing
   * message with run_count and the low 32 bits of the clock in
   * nanoseconds, turn each axis and store its position, and count the
   * call. The words of the packet up to packet_size, and the size.
   */
  method PopulateDataLoop(osc: Oscillator, nowNs: nat, c: Codes) returns (packet: seq<u32>, packetSize: nat)
    requires osc.Valid() && Distinct(c)
    modifies osc
    ensures osc.Valid() && osc.runCount == U32(old(osc.runCount) + 1)
    ensures var from := if old(osc.runCount) == 0 then Initials() else old(osc.axes);
      (forall k :: 0 <= k < MAX_AXIS ==> Bounded(from[k])) && osc.axes == TurnAll(from, old(osc.runCount))
    ensures packet == Words(Timing(MSG_TIMING, old(osc.runCount), U32(nowNs))) + Flat(Reports(osc.axes))
    ensures packetSize == 4 * |packet| == 60
  {
    osc.Start();
    var run := osc.runCount;
    TimingFirst(run, U32(nowNs), c);
    var timing := Next([MSG_TIMING, run, U32(nowNs), 0], BUFSIZE - 4, c);
    var positions := ReportAxes(osc, c);
    packet := Words(timing.value) + positions;
    packetSize := Size(timing.value) + 4 * |positions|;
    osc.Tick();
  }
}
