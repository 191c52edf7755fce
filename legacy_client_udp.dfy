/**
 * The UDP test client of test_client/udp.c. With -oneshot it reads one
 * line of messages ("3:0:10, 8:0"), packs them into one datagram and
 * prints back what it packed; with -loop it sends, again and again, the
 * positions of six simulated axes that drift under random kicks; and it
 * prints the replies the controller sends back. Every message struct is
 * made of 32-bit fields, so the packet is a sequence of 32-bit words;
 * sizes and the space left are counted in bytes, as the C code counts
 * them. The terminal line, the random kicks and the reply layout are
 * parameters; the socket and the clock are not modelled.
 */
module LegacyClientUdp {
  import opened CInt
  import opened Text
  import opened Wrappers
  import opened PacketLayout

  const BUFSIZE: nat := 1024
  /** main's packet buffer, in 32-bit words. */
  const PACKET_WORDS: nat := 256
  const MAX_AXIS: nat := 6
  const LONG_MAX: int := 0x7FFF_FFFF_FFFF_FFFF
  const LONG_MIN: int := -0x8000_0000_0000_0000

  // Message types, numbered as in shared/messages.h:5-15.
  const MSG_SET_GLOAL_UPDATE_RATE: u32 := 1
  const MSG_SET_AXIS_ABS_POS: u32 := 2
  const MSG_SET_AXIS_REL_POS: u32 := 3
  const MSG_SET_AXIS_MAX_SPEED: u32 := 4
  const MSG_SET_AXIS_MAX_ACCEL: u32 := 5
  const MSG_SET_AXIS_ABS_POS_AT_TIME: u32 := 6
  const MSG_GET_GLOBAL_CONFIG: u32 := 7
  const MSG_GET_AXIS_CONFIG: u32 := 8
  const MSG_GET_AXIS_POS: u32 := 9

  // ---------------------------------------------------------------------
  // all_digits (test_client/udp.c:40-50)

  /** The line holds only decimal digits and '-' before its end. */
  predicate NumberLine(buf: string)
  {
    forall k :: 0 <= k < LineEnd(buf, 0) ==> IsDigit(buf[k]) || buf[k] == '-'
  }

  /** all_digits: 1 exactly when every character before the first NUL or
   *  newline is a decimal digit or '-'; `sign` is not looked at. */
  method AllDigits(buf: string, sign: u32) returns (ok: u32)
    ensures ok == 0 || ok == 1
    ensures ok == 1 <==> NumberLine(buf)
  {
    var i := 0;
    while i < |buf| && buf[i] != '\0' && buf[i] != '\n'
      invariant i <= LineEnd(buf, 0)
      invariant forall k :: 0 <= k < i ==> IsDigit(buf[k]) || buf[k] == '-'
      invariant LineEnd(buf, i) == LineEnd(buf, 0)
    {
      if !IsDigit(buf[i]) && buf[i] != '-' {
        return 0;
      }
      i := i + 1;
    }
    return 1;
  }

  // ---------------------------------------------------------------------
  // Messages

  /** The message structs: Message, Message_uint, Message_uint_uint and
   *  Message_uint_int, whose last field is an int32_t. */
  datatype Message =
    | Message(msgType: u32)
    | MessageUint(msgType: u32, value: u32)
    | MessageUintUint(msgType: u32, axis: u32, value: u32)
    | MessageUintInt(msgType: u32, axis: u32, signed: i32)

  /** The words of the struct in memory. */
  function Words(m: Message): (ws: seq<u32>)
    ensures 1 <= |ws| <= 3 && ws[0] == m.msgType
  {
    match m
    case Message(t) => [t]
    case MessageUint(t, v) => [t, v]
    case MessageUintUint(t, a, v) => [t, a, v]
    case MessageUintInt(t, a, v) => [t, a, U32(v)]
  }

  /** sizeof the struct, in bytes. */
  function Size(m: Message): nat
  {
    4 * |Words(m)|
  }

  /** The words of several messages, one after the other. */
  function Flat(ms: seq<Message>): seq<u32>
  {
    if ms == [] then [] else Flat(ms[..|ms| - 1]) + Words(ms[|ms| - 1])
  }

  lemma {:induction false} FlatCons(m: Message, ms: seq<Message>)
    ensures Flat([m] + ms) == Words(m) + Flat(ms)
    decreases |ms|
  {
    var s := [m] + ms;
    if ms == [] {
      assert s[..0] == [];
    } else {
      var init, last := ms[..|ms| - 1], ms[|ms| - 1];
      assert s[..|s| - 1] == [m] + init;
      assert s[|s| - 1] == last;
      FlatCons(m, init);
      Assoc(Words(m), Flat(init), Words(last));
    }
  }

  lemma FlatFirst(ms: seq<Message>)
    requires ms != []
    ensures Flat(ms) == Words(ms[0]) + Flat(ms[1..])
  {
    FlatCons(ms[0], ms[1..]);
    assert [ms[0]] + ms[1..] == ms;
  }

  /** The struct each type is sent as. */
  predicate Shaped(m: Message)
  {
    && (m.msgType in {MSG_SET_GLOAL_UPDATE_RATE, MSG_GET_AXIS_CONFIG, MSG_GET_AXIS_POS} ==> m.MessageUint?)
    && (m.msgType == MSG_SET_AXIS_ABS_POS ==> m.MessageUintUint?)
    && (m.msgType == MSG_SET_AXIS_REL_POS ==> m.MessageUintInt?)
    && (m.msgType == MSG_GET_GLOBAL_CONFIG ==> m.Message?)
  }

  /** A message store_message can build: the shape of its type and a type
   *  from 1 to 9. */
  predicate Packable(m: Message)
  {
    Shaped(m) && MSG_SET_GLOAL_UPDATE_RATE <= m.msgType <= MSG_GET_AXIS_POS
  }

  /**
   * The switch of store_message (test_client/udp.c:199-241) on values[0]:
   * the struct it fills from the values, or None for a type it does not
   * know (the program then ends). Types 4 to 6 fall through to the bare
   * Message of type 7. The int64_t values hold uint32_t numbers, and the
   * int32_t field of Message_uint_int takes the same 32 bits.
   */
  function MessageFor(values: seq<u32>): (r: Option<Message>)
    requires |values| == 4
    ensures r.Some? ==> Words(r.value) == values[..|Words(r.value)|]
  {
    var t := values[0];
    if t == MSG_SET_GLOAL_UPDATE_RATE || t == MSG_GET_AXIS_CONFIG || t == MSG_GET_AXIS_POS then
      Some(MessageUint(t, values[1]))
    else if t == MSG_SET_AXIS_ABS_POS then Some(MessageUintUint(t, values[1], values[2]))
    else if t == MSG_SET_AXIS_REL_POS then Some(MessageUintInt(t, values[1], I32(values[2])))
    else if MSG_SET_AXIS_MAX_SPEED <= t <= MSG_GET_GLOBAL_CONFIG then Some(Message(t))
    else None
  }

  /** store_message builds a message exactly for the types 1 to 9, with the
   *  type it was given and the shape of that type. */
  lemma MessageForPackable(values: seq<u32>)
    requires |values| == 4
    ensures MessageFor(values).Some? <==> 1 <= values[0] <= 9
    ensures MessageFor(values).Some? ==>
      Packable(MessageFor(values).value) && MessageFor(values).value.msgType == values[0]
  {
  }

  /** How a run of the client ends. Sent: the packet is ready to send.
   *  TooManyValues and Unexpected: the line is refused and the packet
   *  cleared. InvalidType and NoSpace: the program exits. Overflow: the
   *  C code writes past the packet buffer, which C leaves undefined. */
  datatype Outcome =
    | Sent
    | TooManyValues(value: u32)
    | Unexpected(c: char)
    | InvalidType(msgType: u32)
    | NoSpace
    | Overflow

  /** What store_message, corrected, makes of the values with `space`
   *  bytes left: the message, or the exit. */
  function Next(values: seq<u32>, space: nat): (r: Result<Message, Outcome>)
    requires |values| == 4
    ensures r.Ok? ==> Words(r.value) == values[..|Words(r.value)|]
    ensures r.Err? && r.error.InvalidType? ==> !(1 <= values[0] <= 9)
  {
    match MessageFor(values)
    case None => Err(InvalidType(values[0]))
    case Some(m) => if space < Size(m) then Err(NoSpace) else Ok(m)
  }

  /** A stored message fits the space it was checked against, and an
   *  unknown type is the only other way out besides a full packet. */
  lemma NextFits(values: seq<u32>, space: nat)
    requires |values| == 4
    ensures Next(values, space).Ok? ==>
      Size(Next(values, space).value) <= space && Packable(Next(values, space).value)
    ensures Next(values, space).Err? ==>
      Next(values, space).error in {InvalidType(values[0]), NoSpace}
    ensures (1 <= values[0] <= 9 && space >= 12) ==> Next(values, space).Ok?
  {
  }

  /** An absolute position message is stored whenever there is room. */
  lemma NextPosition(k: u32, pos: u32, space: nat)
    requires space >= 12
    ensures Next([MSG_SET_AXIS_ABS_POS, k, pos, 0], space) == Ok(MessageUintUint(MSG_SET_AXIS_ABS_POS, k, pos))
  {
  }

  // ---------------------------------------------------------------------
  // store_message as written (test_client/udp.c:191-252)

  /**
   * store_message as the code stands: the struct is copied to *packet
   * before the space is checked, so a packet that is full is written past
   * (Overflow); and `packet_space -= message_size` moves the local
   * pointer instead of the count it points to, so *packet_space never
   * shrinks. The new buffer, *packet (a word index) and *packet_space.
   */
  function StoreAsWritten(buf: seq<u32>, at: nat, space: nat, values: seq<u32>): (r: Result<(seq<u32>, nat, nat), Outcome>)
    requires |values| == 4
  {
    match MessageFor(values)
    case None => Err(InvalidType(values[0]))
    case Some(m) =>
      if at + |Words(m)| > |buf| then Err(Overflow)
      else if space < Size(m) then Err(NoSpace)
      else Ok((Copied(buf, at, Words(m)), at + |Words(m)|, space))
  }

  /** Several calls of store_message as written, one after the other. */
  function StoreAllAsWritten(buf: seq<u32>, at: nat, space: nat, vs: seq<seq<u32>>): (r: Result<(seq<u32>, nat, nat), Outcome>)
    requires forall k :: 0 <= k < |vs| ==> |vs[k]| == 4
    decreases |vs|
  {
    if vs == [] then Ok((buf, at, space))
    else
      match StoreAsWritten(buf, at, space, vs[0])
      case Err(o) => Err(o)
      case Ok((b, a, s)) => StoreAllAsWritten(b, a, s, vs[1..])
  }

  /** `k` bare messages of type 7, as the line "7,7,7,..." asks for. */
  function Sevens(k: nat): (vs: seq<seq<u32>>)
    ensures |vs| == k && forall j :: 0 <= j < k ==> vs[j] == [MSG_GET_GLOBAL_CONFIG, 0, 0, 0]
  {
    seq(k, _ => [MSG_GET_GLOBAL_CONFIG, 0, 0, 0])
  }

  /** As written, *packet_space stays at its first value however many
   *  messages are stored, while *packet moves one word per bare message. */
  lemma {:induction false} SevensAsWritten(buf: seq<u32>, at: nat, k: nat)
    requires at + k <= |buf|
    ensures StoreAllAsWritten(buf, at, BUFSIZE - 4, Sevens(k)).Ok?
    ensures StoreAllAsWritten(buf, at, BUFSIZE - 4, Sevens(k)).value.1 == at + k
    ensures StoreAllAsWritten(buf, at, BUFSIZE - 4, Sevens(k)).value.2 == BUFSIZE - 4
    ensures |StoreAllAsWritten(buf, at, BUFSIZE - 4, Sevens(k)).value.0| == |buf|
    decreases k
  {
    if k > 0 {
      var vs := Sevens(k);
      assert vs[1..] == Sevens(k - 1);
      var m := Message(MSG_GET_GLOBAL_CONFIG);
      assert MessageFor(vs[0]) == Some(m);
      var b := Copied(buf, at, Words(m));
      var a: nat, sp: nat := at + 1, BUFSIZE - 4;
      assert StoreAsWritten(buf, at, BUFSIZE - 4, vs[0]) == Ok((b, a, sp));
      SevensAsWritten(b, at + 1, k - 1);
    }
  }

  /** The finding: 257 bare messages on one line fill the 256-word packet
   *  and the next copy goes past its end; the space check never stops
   *  them, because the space never shrinks. */
  lemma StoreOverflows(buf: seq<u32>)
    requires |buf| == PACKET_WORDS
    ensures StoreAllAsWritten(buf, 0, BUFSIZE - 4, Sevens(257)) == Err(Overflow)
  {
    SevensOverflow(buf, 0, 257);
  }

  lemma {:induction false} SevensOverflow(buf: seq<u32>, at: nat, k: nat)
    requires at <= |buf| < at + k
    ensures StoreAllAsWritten(buf, at, BUFSIZE - 4, Sevens(k)) == Err(Overflow)
    decreases k
  {
    var vs := Sevens(k);
    var m := Message(MSG_GET_GLOBAL_CONFIG);
    assert MessageFor(vs[0]) == Some(m);
    if at < |buf| {
      assert vs[1..] == Sevens(k - 1);
      var b := Copied(buf, at, Words(m));
      var a: nat, sp: nat := at + 1, BUFSIZE - 4;
      assert StoreAsWritten(buf, at, BUFSIZE - 4, vs[0]) == Ok((b, a, sp));
      SevensOverflow(b, at + 1, k - 1);
    }
  }

  /** The error paths of populate_data_oneshot as written
   *  (test_client/udp.c:303, 309) clear BUFSIZE bytes from *packet, which
   *  store_message has moved past the messages already stored. */
  function ClearAsWritten(buf: seq<u32>, at: nat): (r: Result<seq<u32>, Outcome>)
  {
    if at + PACKET_WORDS > |buf| then Err(Overflow)
    else Ok(buf[..at] + Zeros(PACKET_WORDS) + buf[at + PACKET_WORDS..])
  }

  /** The finding: once one message is stored, a refused line clears
   *  memory past the end of the packet. */
  lemma ClearOverflows(buf: seq<u32>, at: nat)
    requires |buf| == PACKET_WORDS && at > 0
    ensures ClearAsWritten(buf, at) == Err(Overflow)
  {
  }

  // ---------------------------------------------------------------------
  // populate_data_oneshot (test_client/udp.c:254-315)

  /**
   * strtol(s + i, &end, 10) where s[i] is a digit or '-', converted to
   * uint32_t: the value and where `end` is left. The value saturates at
   * LONG_MIN and LONG_MAX (64-bit long); a '-' with no digit after it
   * converts nothing and leaves `end` where it was.
   */
  function StrtolAt(s: string, i: nat): (r: (u32, nat))
    requires i < |s| && (IsDigit(s[i]) || s[i] == '-')
    ensures i <= r.1 <= |s|
    ensures r.1 == i <==> s[i] == '-' && (i + 1 == |s| || !IsDigit(s[i + 1]))
  {
    if s[i] == '-' then
      var j := DigitRun(s, i + 1);
      if j == i + 1 then (0, i)
      else
        var neg: int := -(Decimal(s[i + 1..j]) as int);
        (U32(if neg < LONG_MIN then LONG_MIN else neg), j)
    else
      var j := DigitRun(s, i);
      var n := Decimal(s[i..j]);
      (U32(if n > LONG_MAX then LONG_MAX else n), j)
  }

  /** A run of digits laid out in `s` from `i` ends where it is followed
   *  by a non-digit. */
  lemma RunOf(s: string, i: nat, ds: seq<char>)
    requires i + |ds| <= |s| && s[i..i + |ds|] == ds
    requires forall k :: 0 <= k < |ds| ==> IsDigit(ds[k])
    requires i + |ds| == |s| || !IsDigit(s[i + |ds|])
    ensures DigitRun(s, i) == i + |ds|
  {
    forall k | i <= k < i + |ds|
      ensures IsDigit(s[k])
    {
      assert s[k] == s[i..i + |ds|][k - i];
    }
    RunAcross(s, i, i + |ds|);
  }

  /** strtol reads back a number written in decimal, up to the first
   *  character that is not a digit. */
  lemma StrtolReadsDigits(s: string, i: nat, n: nat)
    requires n <= LONG_MAX && i + |Digits(n)| <= |s| && s[i..i + |Digits(n)|] == Digits(n)
    requires i + |Digits(n)| == |s| || !IsDigit(s[i + |Digits(n)|])
    ensures StrtolAt(s, i) == (U32(n), i + |Digits(n)|)
  {
    var ds := Digits(n);
    assert s[i] == s[i..i + |ds|][0] == ds[0];
    RunOf(s, i, ds);
    DecimalDigits(n);
    var j := DigitRun(s, i);
    assert Decimal(s[i..j]) == n;
    assert s[i] != '-';
  }

  /** The same with a minus sign in front. */
  lemma StrtolReadsNegative(s: string, i: nat, n: nat)
    requires n <= -LONG_MIN && i + 1 + |Digits(n)| <= |s| && s[i] == '-'
    requires s[i + 1..i + 1 + |Digits(n)|] == Digits(n)
    requires i + 1 + |Digits(n)| == |s| || !IsDigit(s[i + 1 + |Digits(n)|])
    ensures StrtolAt(s, i) == (U32(-(n as int)), i + 1 + |Digits(n)|)
  {
    var ds := Digits(n);
    assert s[i + 1] == s[i + 1..i + 1 + |ds|][0] == ds[0];
    RunOf(s, i + 1, ds);
    DecimalDigits(n);
  }

  /**
   * The tokenizer of populate_data_oneshot from character `i` of the line
   * fgets read, with `n` numbers of the current message in `values`,
   * `space` bytes left, and the messages `ms` stored so far: the stored
   * messages and how it ends. ':' and white space are skipped, a number
   * fills the next value, ',' stores the message and starts a new one,
   * '\n' stores it and stops; a fifth number or any other character
   * refuses the line. The line ends at its first NUL; a last message with
   * no newline after it is not stored.
   */
  function Oneshot(line: string, i: nat, values: seq<u32>, n: nat, space: nat, ms: seq<Message>): (r: (seq<Message>, Outcome))
    requires i <= |line| && |values| == 4 && n <= 4
    ensures ms <= r.0
    ensures forall k :: |ms| <= k < |r.0| ==> Packable(r.0[k])
    decreases |line| - i, 4 - n
  {
    if i == |line| || line[i] == '\0' then (ms, Sent)
    else
      var c := line[i];
      if c == ',' then
        match Next(values, space)
        case Err(o) => (ms, o)
        case Ok(m) => Oneshot(line, i + 1, [0, 0, 0, 0], 0, space - Size(m), ms + [m])
      else if c == ':' then Oneshot(line, i + 1, values, n, space, ms)
      else if c == '\n' then
        match Next(values, space)
        case Err(o) => (ms, o)
        case Ok(m) => (ms + [m], Sent)
      else if IsSpace(c) then Oneshot(line, i + 1, values, n, space, ms)
      else if IsDigit(c) || c == '-' then
        var (v, j) := StrtolAt(line, i);
        if n < 4 then Oneshot(line, j, values[n := v], n + 1, space, ms)
        else (ms, TooManyValues(v))
      else (ms, Unexpected(c))
  }

  /** The tokenizer at ',' or '\n': the message is stored, or the
   *  program exits. */
  lemma OneshotStore(line: string, i: nat, values: seq<u32>, n: nat, space: nat, ms: seq<Message>)
    requires i < |line| && (line[i] == ',' || line[i] == '\n') && |values| == 4 && n <= 4
    ensures var r := Oneshot(line, i, values, n, space, ms);
      match Next(values, space)
      case Err(o) => r == (ms, o)
      case Ok(m) =>
        r == if line[i] == '\n' then (ms + [m], Sent)
             else Oneshot(line, i + 1, [0, 0, 0, 0], 0, space - Size(m), ms + [m])
  {
  }

  /** The tokenizer skips ':' and white space. */
  lemma OneshotSkip(line: string, i: nat, values: seq<u32>, n: nat, space: nat, ms: seq<Message>)
    requires i < |line| && line[i] != ',' && line[i] != '\n' && (line[i] == ':' || IsSpace(line[i]))
    requires |values| == 4 && n <= 4
    ensures Oneshot(line, i, values, n, space, ms) == Oneshot(line, i + 1, values, n, space, ms)
  {
  }

  /** The tokenizer reads a number into the next value, or refuses a
   *  fifth. */
  lemma OneshotNumber(line: string, i: nat, values: seq<u32>, n: nat, space: nat, ms: seq<Message>)
    requires i < |line| && (IsDigit(line[i]) || line[i] == '-') && |values| == 4 && n <= 4
    ensures var v := StrtolAt(line, i);
      Oneshot(line, i, values, n, space, ms) ==
        if n < 4 then Oneshot(line, v.1, values[n := v.0], n + 1, space, ms) else (ms, TooManyValues(v.0))
  {
  }

  /** Any other character refuses the line. */
  lemma OneshotOther(line: string, i: nat, values: seq<u32>, n: nat, space: nat, ms: seq<Message>)
    requires i < |line| && line[i] != '\0' && line[i] !in {',', ':', '\n', '-'}
    requires !IsSpace(line[i]) && !IsDigit(line[i]) && |values| == 4 && n <= 4
    ensures Oneshot(line, i, values, n, space, ms) == (ms, Unexpected(line[i]))
  {
  }

  /** The messages the tokenizer stores are Packable, and it never ends
   *  in an Overflow. */
  lemma {:induction false} OneshotPackable(line: string, i: nat, values: seq<u32>, n: nat, space: nat, ms: seq<Message>)
    requires i <= |line| && |values| == 4 && n <= 4
    requires forall k :: 0 <= k < |ms| ==> Packable(ms[k])
    ensures var r := Oneshot(line, i, values, n, space, ms);
      (forall k :: 0 <= k < |r.0| ==> Packable(r.0[k])) && !r.1.Overflow?
    decreases |line| - i, 4 - n
  {
    if i < |line| && line[i] != '\0' {
      var c := line[i];
      if c == ',' || c == '\n' {
        NextFits(values, space);
        OneshotStore(line, i, values, n, space, ms);
        if Next(values, space).Ok? {
          var m := Next(values, space).value;
          PackableSnoc(ms, m);
          if c == ',' {
            OneshotPackable(line, i + 1, [0, 0, 0, 0], 0, space - Size(m), ms + [m]);
          }
        }
      } else if c == ':' || IsSpace(c) {
        OneshotSkip(line, i, values, n, space, ms);
        OneshotPackable(line, i + 1, values, n, space, ms);
      } else if IsDigit(c) || c == '-' {
        OneshotNumber(line, i, values, n, space, ms);
        var v := StrtolAt(line, i);
        if n < 4 {
          OneshotPackable(line, v.1, values[n := v.0], n + 1, space, ms);
        }
      } else {
        OneshotOther(line, i, values, n, space, ms);
      }
    }
  }

  lemma PackableSnoc(ms: seq<Message>, m: Message)
    requires forall k :: 0 <= k < |ms| ==> Packable(ms[k])
    requires Packable(m)
    ensures forall k :: 0 <= k < |ms + [m]| ==> Packable((ms + [m])[k])
  {
  }

  lemma FlatSnoc(ms: seq<Message>, m: Message)
    ensures Flat(ms + [m]) == Flat(ms) + Words(m)
  {
    assert (ms + [m])[..|ms|] == ms;
  }

  /** A relative move by a negative amount: "-10" is converted to the
   *  32 bits of -10, which the int32_t field reads back as -10. */
  lemma OneshotNegative(line: string)
    requires line == "3:0:-10\n"
    ensures Oneshot(line, 0, [0, 0, 0, 0], 0, BUFSIZE - 4, []) == ([MessageUintInt(3, 0, -10)], Sent)
  {
    var S: nat := BUFSIZE - 4;
    var minus10 := U32(-10);
    NegativeHead(line);
    NegativeMiddle(line);
    assert minus10 == 0xFFFF_FFF6 && I32(minus10) == -10;
    var m := MessageUintInt(3, 0, -10);
    assert Next([3, 0, minus10, 0], S) == Ok(m);
    OneshotStore(line, 7, [3, 0, minus10, 0], 3, S, []);
    assert [] + [m] == [m];
  }

  lemma NegativeMiddle(line: string)
    requires line == "3:0:-10\n"
    ensures Oneshot(line, 4, [3, 0, 0, 0], 2, BUFSIZE - 4, []) == Oneshot(line, 7, [3, 0, U32(-10), 0], 3, BUFSIZE - 4, [])
  {
    assert Digits(10) == "10";
    StrtolReadsNegative(line, 4, 10);
    assert [3, 0, 0, 0][2 := U32(-10)] == [3, 0, U32(-10), 0];
    OneshotNumber(line, 4, [3, 0, 0, 0], 2, BUFSIZE - 4, []);
  }

  lemma NegativeHead(line: string)
    requires line == "3:0:-10\n"
    ensures Oneshot(line, 0, [0, 0, 0, 0], 0, BUFSIZE - 4, []) == Oneshot(line, 4, [3, 0, 0, 0], 2, BUFSIZE - 4, [])
  {
    var S: nat := BUFSIZE - 4;
    assert Digits(3) == "3" && Digits(0) == "0";
    assert line[0..1] == "3" && line[2..3] == "0";
    StrtolReadsDigits(line, 0, 3);
    StrtolReadsDigits(line, 2, 0);
    var z: seq<u32> := [0, 0, 0, 0];
    assert z[0 := 3] == [3, 0, 0, 0];
    assert [3, 0, 0, 0][1 := 0] == [3, 0, 0, 0];
    OneshotNumber(line, 0, z, 0, S, []);
    OneshotSkip(line, 1, [3, 0, 0, 0], 1, S, []);
    OneshotNumber(line, 2, [3, 0, 0, 0], 1, S, []);
    OneshotSkip(line, 3, [3, 0, 0, 0], 2, S, []);
  }

  /** A '-' with no digit after it converts to 0 and does not move on, so
   *  the tokenizer reads it again as every value in turn and refuses the
   *  line as having too many values. */
  lemma LoneMinus(line: string)
    requires line == "-\n"
    ensures Oneshot(line, 0, [0, 0, 0, 0], 0, BUFSIZE - 4, []) == ([], TooManyValues(0))
  {
    var z: seq<u32> := [0, 0, 0, 0];
    var S: nat := BUFSIZE - 4;
    assert StrtolAt(line, 0) == (0, 0);
    assert z[0 := 0] == z && z[1 := 0] == z && z[2 := 0] == z && z[3 := 0] == z;
    OneshotNumber(line, 0, z, 0, S, []);
    OneshotNumber(line, 0, z, 1, S, []);
    OneshotNumber(line, 0, z, 2, S, []);
    OneshotNumber(line, 0, z, 3, S, []);
    OneshotNumber(line, 0, z, 4, S, []);
  }

  /** The finding for the refused line: "3:0:10, x" stores one message of
   *  three words and then refuses 'x', so the clear as written starts
   *  three words in and runs past the packet. */
  lemma RefusedAfterMessage(line: string, buf: seq<u32>)
    requires line == "3:0:10, x\n" && |buf| == PACKET_WORDS
    ensures Oneshot(line, 0, [0, 0, 0, 0], 0, BUFSIZE - 4, []) == ([MessageUintInt(3, 0, 10)], Unexpected('x'))
    ensures |Flat([MessageUintInt(3, 0, 10)])| == 3
    ensures ClearAsWritten(buf, 3) == Err(Overflow)
  {
    var m := MessageUintInt(3, 0, 10);
    RefusedHead(line);
    RefusedMiddle(line);
    RefusedTail(line, m);
    FlatOne(m);
    ClearOverflows(buf, 3);
  }

  lemma RefusedMiddle(line: string)
    requires line == "3:0:10, x\n"
    ensures Oneshot(line, 4, [3, 0, 0, 0], 2, BUFSIZE - 4, []) == Oneshot(line, 6, [3, 0, 10, 0], 3, BUFSIZE - 4, [])
  {
    assert Digits(10) == "10";
    StrtolReadsDigits(line, 4, 10);
    OneshotNumber(line, 4, [3, 0, 0, 0], 2, BUFSIZE - 4, []);
  }

  /** One message is its own words. */
  lemma FlatOne(m: Message)
    ensures Flat([m]) == Words(m)
  {
    assert [m][..0] == [];
  }

  lemma RefusedHead(line: string)
    requires line == "3:0:10, x\n"
    ensures Oneshot(line, 0, [0, 0, 0, 0], 0, BUFSIZE - 4, []) == Oneshot(line, 4, [3, 0, 0, 0], 2, BUFSIZE - 4, [])
  {
    RefusedType(line);
    RefusedAxis(line);
  }

  lemma RefusedType(line: string)
    requires line == "3:0:10, x\n"
    ensures Oneshot(line, 0, [0, 0, 0, 0], 0, BUFSIZE - 4, []) == Oneshot(line, 2, [3, 0, 0, 0], 1, BUFSIZE - 4, [])
  {
    var S: nat := BUFSIZE - 4;
    assert Digits(3) == "3" && line[0..1] == "3";
    StrtolReadsDigits(line, 0, 3);
    var z: seq<u32> := [0, 0, 0, 0];
    assert z[0 := 3] == [3, 0, 0, 0];
    OneshotNumber(line, 0, z, 0, S, []);
    OneshotSkip(line, 1, [3, 0, 0, 0], 1, S, []);
  }

  lemma RefusedAxis(line: string)
    requires line == "3:0:10, x\n"
    ensures Oneshot(line, 2, [3, 0, 0, 0], 1, BUFSIZE - 4, []) == Oneshot(line, 4, [3, 0, 0, 0], 2, BUFSIZE - 4, [])
  {
    var S: nat := BUFSIZE - 4;
    assert Digits(0) == "0" && line[2..3] == "0";
    StrtolReadsDigits(line, 2, 0);
    assert [3, 0, 0, 0][1 := 0] == [3, 0, 0, 0];
    OneshotNumber(line, 2, [3, 0, 0, 0], 1, S, []);
    OneshotSkip(line, 3, [3, 0, 0, 0], 2, S, []);
  }

  lemma RefusedTail(line: string, m: Message)
    requires line == "3:0:10, x\n" && m == MessageUintInt(3, 0, 10)
    ensures Oneshot(line, 6, [3, 0, 10, 0], 3, BUFSIZE - 4, []) == ([m], Unexpected('x'))
  {
    var S: nat := BUFSIZE - 4;
    var z: seq<u32> := [0, 0, 0, 0];
    assert Next([3, 0, 10, 0], S) == Ok(m);
    assert Size(m) == 12 && [] + [m] == [m];
    OneshotStore(line, 6, [3, 0, 10, 0], 3, S, []);
    OneshotSkip(line, 7, z, 0, S - 12, [m]);
    OneshotOther(line, 8, z, 0, S - 12, [m]);
  }

  /** The tokenizer's other characters (test_client/udp.c:287-311): skip
   *  ':' and white space, read a number into the next value, or refuse
   *  the line with the reason. */
  method Take(line: string, i: nat, values: seq<u32>, n: nat, space: nat,
              ghost ms: seq<Message>, ghost final: (seq<Message>, Outcome))
    returns (i': nat, values': seq<u32>, n': nat, stop: Option<Outcome>)
    requires i < |line| && line[i] != '\0' && line[i] != ',' && line[i] != '\n'
    requires |values| == 4 && n <= 4 && Oneshot(line, i, values, n, space, ms) == final
    ensures stop.Some? ==> final == (ms, stop.value) && (stop.value.TooManyValues? || stop.value.Unexpected?)
    ensures stop.None? ==>
      && i' <= |line| && |values'| == 4 && n' <= 4 && (i' > i || (i' == i && n' > n))
      && Oneshot(line, i', values', n', space, ms) == final
  {
    var c := line[i];
    i', values', n', stop := i, values, n, None;
    if c == ':' || IsSpace(c) {
      OneshotSkip(line, i, values, n, space, ms);
      i' := i + 1;
    } else if IsDigit(c) || c == '-' {
      OneshotNumber(line, i, values, n, space, ms);
      var conv := StrtolAt(line, i);
      var val := conv.0;
      if n >= 4 {
        stop := Some(TooManyValues(val));
      } else {
        values' := values[n := val];
        n' := n + 1;
        i' := conv.1;
      }
    } else {
      OneshotOther(line, i, values, n, space, ms);
      stop := Some(Unexpected(c));
    }
  }

  /** main's packet buffer (char packet[BUFSIZE]), as 256 words. */
  class Packet {
    var buf: seq<u32>

    constructor (memory: seq<u32>)
      requires |memory| == PACKET_WORDS
      ensures buf == memory
    {
      buf := memory;
    }

    /**
     * store_message with the space checked before the copy and taken off
     * *packet_space: `at` is *packet (a word index) and `space` is
     * *packet_space in bytes; it returns the size, the new *packet and
     * *packet_space, and the exit when there is one. A message is copied
     * only when it fits, so the packet is never written past.
     */
    method StoreMessage(values: seq<u32>, at: nat, space: nat) returns (size: nat, next: nat, left: nat, exit: Option<Outcome>)
      requires |values| == 4 && 4 * at + space <= 4 * |buf|
      modifies this
      ensures 4 * next + left <= 4 * |buf| && |buf| == old(|buf|)
      ensures match Next(values, space)
        case Err(o) => exit == Some(o) && buf == old(buf) && next == at && left == space
        case Ok(m) =>
          && exit == None && size == Size(m)
          && buf == Copied(old(buf), at, Words(m))
          && next == at + |Words(m)| && left == space - Size(m)
    {
      var m := MessageFor(values);
      if m.None? {
        return 0, at, space, Some(InvalidType(values[0]));
      }
      size := Size(m.value);
      if space < size {
        return size, at, space, Some(NoSpace);
      }
      var ws := Words(m.value);
      buf := Copied(buf, at, ws);
      next, left, exit := at + |ws|, space - size, None;
    }

    /** StoreMessage, seen as one more message laid out after `ms` over
     *  the `n` words cleared from the start of the packet. */
    method Pack(values: seq<u32>, at: nat, space: nat, ghost mem: seq<u32>, ghost n: nat, ghost ms: seq<Message>)
      returns (size: nat, next: nat, left: nat, exit: Option<Outcome>)
      requires |values| == 4 && |buf| == |mem| && n <= |mem|
      requires at == |Flat(ms)| && 4 * at + space <= 4 * n && buf == Laid(mem, 0, n, Flat(ms))
      modifies this
      ensures |buf| == |mem|
      ensures match Next(values, space)
        case Err(o) => exit == Some(o) && buf == old(buf) && next == at && left == space
        case Ok(m) =>
          && exit == None && size == Size(m) && left == space - size
          && buf == Laid(mem, 0, n, Flat(ms + [m])) && next == |Flat(ms + [m])|
          && 4 * next + left <= 4 * n
    {
      ghost var b := buf;
      size, next, left, exit := StoreMessage(values, at, space);
      if exit == None {
        PackedNext(mem, n, ms, MessageFor(values).value, b, at);
      }
    }

    /** The second half of one pass of the loop over the axes
     *  (test_client/udp.c:384-390): store the position of axis `k`, `x`,
     *  after the reports of the axes before it, `before`. */
    method PackPosition(k: nat, pos: u32, at: nat, space: nat, ghost before: seq<Axis>, ghost x: Axis)
      returns (size: nat, next: nat, left: nat)
      requires |before| == k < MAX_AXIS && x.pos == pos
      requires at == 3 * k && space == BUFSIZE - 4 - 12 * k
      requires buf == Cleared(Flat(Reports(before)))
      modifies this
      ensures size == 12 && next == at + 3 && left == space - 12
      ensures buf == Cleared(Flat(Reports(before + [x])))
    {
      ghost var ms := Reports(before);
      ghost var mem := buf;
      ClearedLaid(mem, Flat(ms));
      var values: seq<u32> := [MSG_SET_AXIS_ABS_POS, k as u32, pos, 0];
      ghost var m := Report(k, x);
      NextPosition(k as u32, pos, space);
      var exit;
      size, next, left, exit := Pack(values, at, space, mem, PACKET_WORDS, ms);
      ReportsSnoc(before, x);
      ClearedLaid(mem, Flat(ms + [m]));
    }

    /** The tokenizer's ',' and '\n' (test_client/udp.c:278-293): store
     *  the message, keeping the layout of the messages stored so far. */
    method Emit(line: string, i: nat, values: seq<u32>, n: nat, at: nat, space: nat,
                ghost mem: seq<u32>, ghost ms: seq<Message>, ghost final: (seq<Message>, Outcome))
      returns (size: nat, next: nat, left: nat, exit: Option<Outcome>, ghost ms': seq<Message>)
      requires i < |line| && (line[i] == ',' || line[i] == '\n') && |values| == 4 && n <= 4
      requires |buf| == |mem| == PACKET_WORDS && at == |Flat(ms)| && 4 * at + space == BUFSIZE - 4
      requires buf == Laid(mem, 0, PACKET_WORDS - 1, Flat(ms))
      requires Oneshot(line, i, values, n, space, ms) == final
      modifies this
      ensures |buf| == PACKET_WORDS
      ensures exit.Some? ==> final == (ms, exit.value) && buf == old(buf)
      ensures exit.Some? ==> exit.value.InvalidType? || exit.value.NoSpace?
      ensures exit.None? ==>
        && next == |Flat(ms')| && 4 * next + left == BUFSIZE - 4 && size == 4 * (next - at)
        && buf == Laid(mem, 0, PACKET_WORDS - 1, Flat(ms'))
        && (line[i] == '\n' ==> final == (ms', Sent))
        && (line[i] == ',' ==> Oneshot(line, i + 1, [0, 0, 0, 0], 0, left, ms') == final)
    {
      OneshotStore(line, i, values, n, space, ms);
      NextFits(values, space);
      size, next, left, exit := Pack(values, at, space, mem, PACKET_WORDS - 1, ms);
      ms' := ms;
      if exit.None? {
        ms' := ms + [Next(values, space).value];
      }
    }

    /**
     * populate_data_oneshot on the line fgets read: clear the packet but
     * its last word, run the tokenizer, and return the packet size. A
     * refused line clears the whole packet and returns 0; the clear
     * starts at the start of the packet (corrected, see ClearAsWritten).
     * An exit leaves the messages stored before it.
     */
    method PopulateDataOneshot(line: string) returns (packetSize: nat, outcome: Outcome)
      requires |buf| == PACKET_WORDS
      modifies this
      ensures |buf| == PACKET_WORDS
      ensures var r := Oneshot(line, 0, [0, 0, 0, 0], 0, BUFSIZE - 4, []);
        && outcome == r.1
        && (outcome.TooManyValues? || outcome.Unexpected? ==> packetSize == 0 && buf == Zeros(PACKET_WORDS))
        && (!outcome.TooManyValues? && !outcome.Unexpected? ==>
              && packetSize == 4 * |Flat(r.0)| <= BUFSIZE - 4
              && buf == Laid(old(buf), 0, PACKET_WORDS - 1, Flat(r.0)))
    {
      ghost var final := Oneshot(line, 0, [0, 0, 0, 0], 0, BUFSIZE - 4, []);
      ghost var mem := buf;
      var space: nat := BUFSIZE - 4;
      buf := Zeros(PACKET_WORDS - 1) + buf[PACKET_WORDS - 1..];
      var values: seq<u32> := [0, 0, 0, 0];
      var valueNum: nat := 0;
      var at: nat := 0;
      packetSize := 0;
      ghost var ms: seq<Message> := [];
      assert Laid(mem, 0, PACKET_WORDS - 1, []) == buf;
      var i := 0;
      while i < |line| && line[i] != '\0'
        invariant i <= |line| && |values| == 4 && valueNum <= 4 && |buf| == PACKET_WORDS
        invariant at == |Flat(ms)| && packetSize == 4 * at && 4 * at + space == BUFSIZE - 4
        invariant buf == Laid(mem, 0, PACKET_WORDS - 1, Flat(ms))
        invariant Oneshot(line, i, values, valueNum, space, ms) == final
        decreases |line| - i, 4 - valueNum
      {
        var c := line[i];
        if c == ',' || c == '\n' {
          var size, next, left, exit, ms' := Emit(line, i, values, valueNum, at, space, mem, ms, final);
          if exit.Some? {
            return packetSize, exit.value;
          }
          ms := ms';
          packetSize, at, space := packetSize + size, next, left;
          if c == '\n' {
            return packetSize, Sent;
          }
          values, valueNum := [0, 0, 0, 0], 0;
          i := i + 1;
        } else {
          var stop;
          i, values, valueNum, stop := Take(line, i, values, valueNum, space, ms, final);
          if stop.Some? {
            buf := Zeros(PACKET_WORDS);
            return 0, stop.value;
          }
        }
      }
      assert final == (ms, Sent);
      outcome := Sent;
    }
  }

  /** Writing one more message keeps the layout. */
  lemma PackedNext(mem: seq<u32>, n: nat, ms: seq<Message>, m: Message, b: seq<u32>, a: nat)
    requires n <= |mem| && |Flat(ms)| + |Words(m)| <= n
    requires b == Laid(mem, 0, n, Flat(ms)) && a == |Flat(ms)|
    ensures Flat(ms + [m]) == Flat(ms) + Words(m)
    ensures Copied(b, a, Words(m)) == Laid(mem, 0, n, Flat(ms + [m]))
  {
    FlatSnoc(ms, m);
    LaidNext(mem, 0, n, Flat(ms), Words(m));
  }

  // ---------------------------------------------------------------------
  // populate_data_loop (test_client/udp.c:326-411)

  /** What populate_data_loop keeps for one axis between calls: the
   *  position, and as int32_t the velocity and the acceleration. */
  datatype Axis = Axis(pos: u32, velocity: i32, acceleration: i32)

  /** On the first call every axis starts half way up the uint32_t range,
   *  at rest (test_client/udp.c:333-338). */
  const START: Axis := Axis(UINT_MAX / 2, 0, 0)

  /**
   * One call's update of one axis (test_client/udp.c:357-365), `kick`
   * being accel_mod: the acceleration decays to 8/10 and takes the kick,
   * the velocity decays to 18/20 and takes the acceleration, and the
   * position moves by the velocity modulo 2^32. C's division truncates
   * toward zero; a product or a sum that leaves int32_t is undefined in
   * C and wraps here.
   */
  function Step(x: Axis, kick: i32): (y: Axis)
    ensures x.acceleration == 0 && kick == 0 ==> y.acceleration == 0
    ensures x.acceleration == 0 && x.velocity == 0 && kick == 0 ==> y == x
  {
    var a := I32(CDiv(I32(x.acceleration * 8), 10) + kick);
    var v := I32(CDiv(I32(x.velocity * 18), 20) + a);
    Axis(U32(x.pos + v), v, a)
  }

  /** The axis after a run of calls with the given kicks. */
  function Run(x: Axis, kicks: seq<i32>): (y: Axis)
    ensures x.acceleration == 0 && x.velocity == 0 && (forall k :: 0 <= k < |kicks| ==> kicks[k] == 0) ==> y == x
    decreases |kicks|
  {
    if kicks == [] then x else Run(Step(x, kicks[0]), kicks[1..])
  }

  /** Acceleration and velocity within the bounds that kicks of at most
   *  `bound` keep. */
  predicate Calm(x: Axis, bound: nat)
  {
    Abs(x.acceleration) <= 5 * bound && Abs(x.velocity) <= 50 * bound
  }

  /**
   * With kicks of at most `bound` (up to 2,000,000; a kick is a normal
   * sample times 100), a calm axis stays calm and no step wraps: the
   * acceleration and the velocity are the truncated decays plus what is
   * added, exactly, and the position moves by the velocity modulo 2^32.
   */
  lemma StepCalm(x: Axis, kick: i32, bound: nat)
    requires bound <= 2_000_000 && Calm(x, bound) && Abs(kick) <= bound
    ensures var y := Step(x, kick);
      && Calm(y, bound)
      && y.acceleration == CDiv(x.acceleration * 8, 10) + kick
      && y.velocity == CDiv(x.velocity * 18, 20) + y.acceleration
      && y.pos == (x.pos + y.velocity) % 0x1_0000_0000
  {
    var a := AccelStep(x.acceleration, kick, bound);
    var v := VelocityStep(x.velocity, a, bound);
    assert Step(x, kick) == Axis(U32(x.pos + v), v, a);
  }

  /** The acceleration's update does not wrap: 8/10 of at most 5 * bound,
   *  plus a kick of at most bound, is at most 5 * bound. */
  lemma AccelStep(a: i32, kick: i32, bound: nat) returns (a': i32)
    requires bound <= 2_000_000 && Abs(a) <= 5 * bound && Abs(kick) <= bound
    ensures a' == I32(CDiv(I32(a * 8), 10) + kick) == CDiv(a * 8, 10) + kick
    ensures Abs(a') <= 5 * bound
  {
    assert Abs(a * 8) == Abs(a) * 8;
    assert I32(a * 8) == a * 8;
    var d := CDiv(a * 8, 10);
    assert Abs(d) <= 4 * bound;
    a' := I32(d + kick);
  }

  /** The velocity's update does not wrap: 18/20 of at most 50 * bound,
   *  plus an acceleration of at most 5 * bound, is at most 50 * bound. */
  lemma VelocityStep(v: i32, a: i32, bound: nat) returns (v': i32)
    requires bound <= 2_000_000 && Abs(v) <= 50 * bound && Abs(a) <= 5 * bound
    ensures v' == I32(CDiv(I32(v * 18), 20) + a) == CDiv(v * 18, 20) + a
    ensures Abs(v') <= 50 * bound
  {
    assert Abs(v * 18) == Abs(v) * 18;
    assert I32(v * 18) == v * 18;
    var d := CDiv(v * 18, 20);
    assert Abs(d) <= 45 * bound;
    v' := I32(d + a);
  }

  /** From the start, any run of kicks of at most `bound` keeps every axis
   *  calm, so the velocity and acceleration never wrap. */
  lemma {:induction false} RunCalm(x: Axis, kicks: seq<i32>, bound: nat)
    requires bound <= 2_000_000 && Calm(x, bound)
    requires forall k :: 0 <= k < |kicks| ==> Abs(kicks[k]) <= bound
    ensures Calm(Run(x, kicks), bound)
    decreases |kicks|
  {
    if kicks != [] {
      StepCalm(x, kicks[0], bound);
      RunCalm(Step(x, kicks[0]), kicks[1..], bound);
    }
  }

  lemma StartCalm(bound: nat)
    ensures Calm(START, bound)
  {
  }

  /** C's truncation makes the decay symmetric in sign: a small negative
   *  acceleration decays to zero, as a small positive one does, where a
   *  floored division would keep it at -1 for ever. */
  lemma DecayTruncates(p: u32)
    ensures Step(Axis(p, 0, -1), 0).acceleration == 0
    ensures Step(Axis(p, 0, 1), 0).acceleration == 0
    ensures Step(Axis(p, -1, 0), 0).velocity == 0
  {
    assert CDiv(-8, 10) == 0;
    assert CDiv(8, 10) == 0;
    assert CDiv(-18, 20) == 0;
  }

  /** The position message sent for axis `k`. */
  function Report(k: nat, x: Axis): Message
    requires k < MAX_AXIS
  {
    MessageUintUint(MSG_SET_AXIS_ABS_POS, k as u32, x.pos)
  }

  /** Every axis stepped once, each with its own kick. */
  function StepAll(xs: seq<Axis>, kicks: seq<i32>): (ys: seq<Axis>)
    requires |xs| == |kicks|
    ensures |ys| == |xs|
    decreases |xs|
  {
    if xs == [] then []
    else StepAll(xs[..|xs| - 1], kicks[..|xs| - 1]) + [Step(xs[|xs| - 1], kicks[|xs| - 1])]
  }

  /** Axis `i` of StepAll is axis `i` stepped with kick `i`. */
  lemma {:induction false} StepAllAt(xs: seq<Axis>, kicks: seq<i32>, i: nat)
    requires |xs| == |kicks| && i < |xs|
    ensures StepAll(xs, kicks)[i] == Step(xs[i], kicks[i])
    decreases |xs|
  {
    if i < |xs| - 1 {
      StepAllAt(xs[..|xs| - 1], kicks[..|xs| - 1], i);
    }
  }

  /** Stepping one more axis appends it. */
  lemma StepAllSnoc(xs: seq<Axis>, kicks: seq<i32>, k: nat)
    requires |xs| == |kicks| && k < |xs|
    ensures StepAll(xs[..k + 1], kicks[..k + 1]) == StepAll(xs[..k], kicks[..k]) + [Step(xs[k], kicks[k])]
  {
    assert xs[..k + 1][..k] == xs[..k] && kicks[..k + 1][..k] == kicks[..k];
  }

  /** The position messages of the axes `xs`, in axis order: one
   *  three-word message per axis. */
  function Reports(xs: seq<Axis>): (ms: seq<Message>)
    requires |xs| <= MAX_AXIS
    ensures |ms| == |xs| && |Flat(ms)| == 3 * |xs|
    decreases |xs|
  {
    if xs == [] then []
    else
      var init := Reports(xs[..|xs| - 1]);
      var m := Report(|xs| - 1, xs[|xs| - 1]);
      FlatSnoc(init, m);
      init + [m]
  }

  /** Reporting one more axis appends its message. */
  lemma ReportsSnoc(xs: seq<Axis>, y: Axis)
    requires |xs| < MAX_AXIS
    ensures Reports(xs + [y]) == Reports(xs) + [Report(|xs|, y)]
  {
    assert (xs + [y])[..|xs|] == xs;
  }

  /** The packet after memset of all of it and the copies of `ws` from its
   *  start. */
  function Cleared(ws: seq<u32>): (b: seq<u32>)
    requires |ws| <= PACKET_WORDS
    ensures |b| == PACKET_WORDS
  {
    ws + Zeros(PACKET_WORDS - |ws|)
  }

  lemma ClearedLaid(mem: seq<u32>, ws: seq<u32>)
    requires |mem| == PACKET_WORDS && |ws| <= PACKET_WORDS
    ensures Laid(mem, 0, PACKET_WORDS, ws) == Cleared(ws)
  {
    assert mem[..0] + ws == ws && mem[PACKET_WORDS..] == [];
  }

  /** The static state of populate_data_loop: axis_pos, axis_velocity and
   *  axis_acceleration, held as one Axis per axis, and first_run. */
  class Simulation {
    var axes: seq<Axis>
    var firstRun: bool

    predicate Valid()
      reads this
    {
      |axes| == MAX_AXIS
    }

    /** Statics start zeroed, with first_run set. */
    constructor ()
      ensures Valid() && firstRun && axes == seq(MAX_AXIS, _ => Axis(0, 0, 0))
    {
      axes := seq(MAX_AXIS, _ => Axis(0, 0, 0));
      firstRun := true;
    }

    /** The update of axis `k` (test_client/udp.c:357-365), in place. */
    method Advance(k: nat, kick: i32) returns (pos: u32)
      requires Valid() && k < MAX_AXIS
      modifies this
      ensures Valid() && firstRun == old(firstRun)
      ensures axes == old(axes)[k := Step(old(axes)[k], kick)] && pos == axes[k].pos
    {
      var x := axes[k];
      var accel := I32(x.acceleration * 8);
      accel := CDiv(accel, 10);
      accel := I32(accel + kick);
      var vel := I32(x.velocity * 18);
      vel := CDiv(vel, 20);
      vel := I32(vel + accel);
      pos := U32(x.pos + vel);
      axes := axes[k := Axis(pos, vel, accel)];
    }

    /** The first half of one pass of the loop over the axes
     *  (test_client/udp.c:357-365): step axis `k`, the axes before it
     *  being stepped already (`done`). */
    method StepAxis(k: nat, kick: i32, ghost start: seq<Axis>, ghost done: seq<Axis>)
      returns (pos: u32, ghost x: Axis, ghost done': seq<Axis>)
      requires Valid() && k == |done| < MAX_AXIS == |start| && axes == done + start[k..]
      modifies this
      ensures Valid() && firstRun == old(firstRun)
      ensures x == Step(start[k], kick) && pos == x.pos
      ensures done' == done + [x] && axes == done' + start[k + 1..]
    {
      assert axes[k] == start[k];
      pos := Advance(k, kick);
      x := axes[k];
      done' := done + [x];
      assert axes == done' + start[k + 1..];
    }

    /** One pass of the loop over the axes (test_client/udp.c:351-391):
     *  step axis `k` and store its position after the reports of the
     *  axes before it, `done`. */
    method ReportAxis(packet: Packet, k: nat, kick: i32, at: nat, space: nat,
                      ghost start: seq<Axis>, ghost done: seq<Axis>)
      returns (size: nat, next: nat, left: nat, ghost done': seq<Axis>)
      requires Valid() && k == |done| < MAX_AXIS == |start| && axes == done + start[k..]
      requires at == 3 * k && space == BUFSIZE - 4 - 12 * k
      requires packet.buf == Cleared(Flat(Reports(done)))
      modifies this, packet
      ensures Valid() && firstRun == old(firstRun)
      ensures done' == done + [Step(start[k], kick)] && axes == done' + start[k + 1..]
      ensures size == 12 && next == at + 3 && left == space - 12
      ensures packet.buf == Cleared(Flat(Reports(done')))
    {
      var pos;
      ghost var x;
      pos, x, done' := StepAxis(k, kick, start, done);
      size, next, left := packet.PackPosition(k, pos, at, space, done, x);
    }

    /**
     * populate_data_loop with the kicks of this call (accel_mod: 0, or
     * one time in twenty a normal sample times 100): set the axes up on
     * the first call, clear the packet, step every axis and store its
     * new position; the packet holds the six position messages.
     */
    method PopulateDataLoop(packet: Packet, kicks: seq<i32>) returns (packetSize: nat)
      requires Valid() && |kicks| == MAX_AXIS && |packet.buf| == PACKET_WORDS
      modifies this, packet
      ensures Valid() && !firstRun && |packet.buf| == PACKET_WORDS
      ensures axes == StepAll(if old(firstRun) then seq(MAX_AXIS, _ => START) else old(axes), kicks)
      ensures packetSize == 4 * |Flat(Reports(axes))| == 72
      ensures packet.buf == Cleared(Flat(Reports(axes)))
    {
      if firstRun {
        axes := seq(MAX_AXIS, _ => START);
        firstRun := false;
      }
      packet.buf := Zeros(PACKET_WORDS);
      assert packet.buf == Cleared([]);
      packetSize := ReportAll(packet, kicks);
    }

    /** The loop over the axes (test_client/udp.c:351-391), into the
     *  cleared packet. */
    method ReportAll(packet: Packet, kicks: seq<i32>) returns (packetSize: nat)
      requires Valid() && |kicks| == MAX_AXIS && packet.buf == Cleared([])
      modifies this, packet
      ensures Valid() && firstRun == old(firstRun) && |packet.buf| == PACKET_WORDS
      ensures axes == StepAll(old(axes), kicks)
      ensures packetSize == 4 * |Flat(Reports(axes))| == 72
      ensures packet.buf == Cleared(Flat(Reports(axes)))
    {
      ghost var start := axes;
      ghost var done: seq<Axis> := [];
      assert axes == done + start[0..];
      var space: nat := BUFSIZE - 4;
      packetSize := 0;
      var at: nat := 0;
      var axis: nat := 0;
      while axis < MAX_AXIS
        invariant axis <= MAX_AXIS && |axes| == MAX_AXIS && |packet.buf| == PACKET_WORDS
        invariant firstRun == old(firstRun)
        invariant done == StepAll(start[..axis], kicks[..axis]) && axes == done + start[axis..]
        invariant at == 3 * axis && packetSize == 12 * axis && space == BUFSIZE - 4 - 12 * axis
        invariant packet.buf == Cleared(Flat(Reports(done)))
      {
        StepAllSnoc(start, kicks, axis);
        var size;
        size, at, space, done := ReportAxis(packet, axis, kicks[axis], at, space, start, done);
        packetSize := packetSize + size;
        axis := axis + 1;
      }
      assert start[..MAX_AXIS] == start && kicks[..MAX_AXIS] == kicks;
      assert axes == done;
    }
  }

  // ---------------------------------------------------------------------
  // display_data (test_client/udp.c:413-477)

  /** How display_data ended: it printed everything, met a type it does
   *  not print (and the program exits), or would read past the buffer. */
  datatype Shown = Printed | Refused(msgType: u32) | Overrun

  /** The types display_data prints. */
  predicate Shows(t: u32)
  {
    t == 1 || t == 2 || t == 3 || t == 7 || t == 8 || t == 9
  }

  /** One message as display_data reads it: the message and its size in
   *  words, a message cut short by the end of the buffer, or a type it
   *  does not print. */
  datatype Item = Item(m: Message, size: nat) | Short | Unknown(msgType: u32)

  /**
   * The switch of display_data on the type word at the head of `words`
   * (test_client/udp.c:433-472): types 1, 8 and 9 are two words, 2 and 3
   * three words (3 read with an int32_t last field), 7 one word; types
   * 4 to 6 and unknown types are not printed.
   */
  function Decode(words: seq<u32>): (r: Item)
    requires words != []
    ensures r.Item? <==> Shows(words[0]) && !r.Short?
    ensures r.Item? ==> 1 <= r.size <= |words| && r.m.msgType == words[0] && Shaped(r.m)
    ensures r.Unknown? ==> r.msgType == words[0] && !Shows(words[0])
  {
    var t := words[0];
    if t == MSG_SET_GLOAL_UPDATE_RATE || t == MSG_GET_AXIS_CONFIG || t == MSG_GET_AXIS_POS then
      if |words| < 2 then Short else Item(MessageUint(t, words[1]), 2)
    else if t == MSG_SET_AXIS_ABS_POS then
      if |words| < 3 then Short else Item(MessageUintUint(t, words[1], words[2]), 3)
    else if t == MSG_SET_AXIS_REL_POS then
      if |words| < 3 then Short else Item(MessageUintInt(t, words[1], I32(words[2])), 3)
    else if t == MSG_GET_GLOBAL_CONFIG then Item(Message(t), 1)
    else Unknown(t)
  }

  /** display_data over the words from packet_parsed on, with `left`
   *  bytes of the packet still to print, after printing `shown`. */
  function Display(words: seq<u32>, left: int, shown: seq<Message>): (r: (seq<Message>, Shown))
    decreases |words|
  {
    if left <= 0 then (shown, Printed)
    else if words == [] then (shown, Overrun)
    else
      match Decode(words)
      case Item(m, k) => Display(words[k..], left - 4 * k, shown + [m])
      case Short => (shown, Overrun)
      case Unknown(t) => (shown, Refused(t))
  }

  /** The walk of display_data as a loop; `w` is packet_parsed in words.
   *  The raw dump before it only prints. */
  method DisplayData(packet: seq<u32>, packetSize: nat) returns (shown: seq<Message>, how: Shown)
    ensures (shown, how) == Display(packet, packetSize, [])
  {
    var w := 0;
    shown := [];
    assert packet[0..] == packet;
    while 4 * w < packetSize
      invariant w <= |packet|
      invariant Display(packet[w..], packetSize - 4 * w, shown) == Display(packet, packetSize, [])
      decreases packetSize - 4 * w
    {
      if w >= |packet| {
        return shown, Overrun;
      }
      match Decode(packet[w..])
      case Short =>
        return shown, Overrun;
      case Unknown(t) =>
        return shown, Refused(t);
      case Item(m, messageWords) =>
        shown := shown + [m];
        assert packet[w..][messageWords..] == packet[w + messageWords..];
        w := w + messageWords;
    }
    how := Printed;
  }

  /** The 32 bits of an int32_t read back as int32_t. */
  lemma SignedBack(v: i32)
    ensures I32(U32(v)) == v
  {
    if v < 0 {
      assert U32(v) == v + 0x1_0000_0000;
    }
  }

  /** display_data prints a packed message of a type it shows and moves
   *  past it. */
  lemma DisplayNext(words: seq<u32>, left: int, shown: seq<Message>, m: Message, tail: seq<u32>)
    requires Shaped(m) && Shows(m.msgType) && words == Words(m) + tail && left > 0
    ensures Display(words, left, shown) == Display(tail, left - 4 * |Words(m)|, shown + [m])
  {
    var ws := Words(m);
    assert words[0] == ws[0];
    assert words[|ws|..] == tail;
    if |ws| > 1 {
      assert words[1] == ws[1];
    }
    if |ws| > 2 {
      assert words[2] == ws[2];
    }
    if m.MessageUintInt? {
      SignedBack(m.signed);
    }
  }

  /** display_data stops at a packed message of any other type. */
  lemma DisplayStops(words: seq<u32>, left: int, shown: seq<Message>, m: Message, tail: seq<u32>)
    requires words == Words(m) + tail && left > 0 && !Shows(m.msgType)
    ensures Display(words, left, shown) == (shown, Refused(m.msgType))
  {
    assert words[0] == Words(m)[0];
  }

  /** Every message has the shape of its type. */
  predicate AllShaped(ms: seq<Message>)
  {
    ms == [] || (Shaped(ms[0]) && AllShaped(ms[1..]))
  }

  lemma {:induction false} AllShapedOf(ms: seq<Message>)
    requires forall k :: 0 <= k < |ms| ==> Shaped(ms[k])
    ensures AllShaped(ms)
  {
    if ms != [] {
      assert forall k :: 0 <= k < |ms[1..]| ==> ms[1..][k] == ms[k + 1];
      AllShapedOf(ms[1..]);
    }
  }

  /** What display_data shows of packed messages after `shown`, message
   *  by message. */
  function Expected(ms: seq<Message>, shown: seq<Message>): (seq<Message>, Shown)
  {
    if ms == [] then (shown, Printed)
    else if Shows(ms[0].msgType) then Expected(ms[1..], shown + [ms[0]])
    else (shown, Refused(ms[0].msgType))
  }

  /** The index of the first message display_data refuses, or |ms|. */
  function FirstRefused(ms: seq<Message>): (j: nat)
    ensures j <= |ms|
  {
    if ms == [] || !Shows(ms[0].msgType) then 0 else 1 + FirstRefused(ms[1..])
  }

  /** Expected is the prefix before the first refused message. */
  lemma {:induction false} ExpectedIs(ms: seq<Message>, shown: seq<Message>)
    ensures var j := FirstRefused(ms);
      Expected(ms, shown) == (shown + ms[..j], if j == |ms| then Printed else Refused(ms[j].msgType))
  {
    if ms == [] || !Shows(ms[0].msgType) {
      assert shown + ms[..0] == shown;
    } else {
      var rest := ms[1..];
      ExpectedIs(rest, shown + [ms[0]]);
      var j := FirstRefused(rest);
      assert FirstRefused(ms) == 1 + j;
      assert ms[..1 + j] == [ms[0]] + rest[..j];
      Assoc(shown, [ms[0]], rest[..j]);
      assert j < |rest| ==> ms[1 + j] == rest[j];
    }
  }

  lemma {:induction false} DisplayFrom(ms: seq<Message>, tail: seq<u32>, shown: seq<Message>)
    requires AllShaped(ms)
    ensures Display(Flat(ms) + tail, 4 * |Flat(ms)|, shown) == Expected(ms, shown)
    decreases |ms|
  {
    if ms != [] {
      var m, rest := ms[0], ms[1..];
      FlatFirst(ms);
      var ws, fr := Words(m), Flat(rest);
      Assoc(ws, fr, tail);
      assert Shaped(m) && AllShaped(rest);
      if Shows(m.msgType) {
        DisplayNext(Flat(ms) + tail, 4 * |Flat(ms)|, shown, m, fr + tail);
        DisplayFrom(rest, tail, shown + [m]);
        assert Expected(ms, shown) == Expected(rest, shown + [m]);
      } else {
        DisplayStops(Flat(ms) + tail, 4 * |Flat(ms)|, shown, m, fr + tail);
      }
    }
  }

  /**
   * What store_message packs, display_data prints back: the messages up
   * to the first one of type 4, 5 or 6 (packed as a bare Message but not
   * printed), where the program stops with that type.
   */
  lemma DisplayPacked(ms: seq<Message>, tail: seq<u32>)
    requires forall k :: 0 <= k < |ms| ==> Packable(ms[k])
    ensures var j := FirstRefused(ms);
      Display(Flat(ms) + tail, 4 * |Flat(ms)|, []) ==
        (ms[..j], if j == |ms| then Printed else Refused(ms[j].msgType))
    ensures FirstRefused(ms) < |ms| ==> 4 <= ms[FirstRefused(ms)].msgType <= 6
  {
    AllShapedOf(ms);
    DisplayFrom(ms, tail, []);
    ExpectedIs(ms, []);
    assert [] + ms[..FirstRefused(ms)] == ms[..FirstRefused(ms)];
    RefusedIsFourToSix(ms);
  }

  lemma {:induction false} RefusedIsFourToSix(ms: seq<Message>)
    requires forall k :: 0 <= k < |ms| ==> Packable(ms[k])
    ensures FirstRefused(ms) < |ms| ==> 4 <= ms[FirstRefused(ms)].msgType <= 6
  {
    if ms != [] && Shows(ms[0].msgType) {
      assert forall k :: 0 <= k < |ms[1..]| ==> ms[1..][k] == ms[k + 1];
      RefusedIsFourToSix(ms[1..]);
    }
  }

  // ---------------------------------------------------------------------
  // display_reply (test_client/udp.c:479-527)

  /** The reply codes and the sizes, in words, of Reply_global_config,
   *  Reply_axis_config and Reply_axis_pos. The header that defines them
   *  is not part of this model, so they are a parameter. */
  datatype ReplyLayout = ReplyLayout(
    globalConfig: u32, axisConfig: u32, axisPos: u32,
    globalConfigWords: nat, axisConfigWords: nat, axisPosWords: nat)

  /** Codes other than the 0 that ends the walk, told apart by the switch,
   *  and structs that hold at least their type word. */
  predicate ValidLayout(l: ReplyLayout)
  {
    && l.globalConfig != 0 && l.axisConfig != 0 && l.axisPos != 0
    && l.globalConfig != l.axisConfig && l.globalConfig != l.axisPos && l.axisConfig != l.axisPos
    && l.globalConfigWords >= 1 && l.axisConfigWords >= 1 && l.axisPosWords >= 1
  }

  /** The size of the reply struct of type `t`, or None for a type the
   *  switch does not know. */
  function ReplyWords(l: ReplyLayout, t: u32): (r: Option<nat>)
    ensures ValidLayout(l) && r.Some? ==> r.value >= 1
  {
    if t == l.globalConfig then Some(l.globalConfigWords)
    else if t == l.axisConfig then Some(l.axisConfigWords)
    else if t == l.axisPos then Some(l.axisPosWords)
    else None
  }

  /** How display_reply ended: at a zero type word, at an unknown reply
   *  type (the program exits), or reading past the buffer. */
  datatype ReplyEnd = Ended | UnknownReply(replyType: u32) | ReplyOverrun

  /** display_reply from word `w` of the receive buffer, after printing
   *  the replies `acc`: each reply is the words of its struct. */
  function Replies(buf: seq<u32>, w: nat, l: ReplyLayout, acc: seq<seq<u32>>): (r: (seq<seq<u32>>, ReplyEnd))
    requires ValidLayout(l)
    ensures acc <= r.0
    ensures forall k :: |acc| <= k < |r.0| ==> r.0[k] != [] && r.0[k][0] != 0 && ReplyWords(l, r.0[k][0]) == Some(|r.0[k]|)
    decreases |buf| - w
  {
    if w >= |buf| then (acc, ReplyOverrun)
    else if buf[w] == 0 then (acc, Ended)
    else
      match ReplyWords(l, buf[w])
      case None => (acc, UnknownReply(buf[w]))
      case Some(k) =>
        if w + k > |buf| then (acc, ReplyOverrun)
        else Replies(buf, w + k, l, acc + [buf[w..w + k]])
  }

  /** The walk of display_reply as a loop over the receive buffer. */
  method DisplayReply(buf: seq<u32>, l: ReplyLayout) returns (replies: seq<seq<u32>>, end: ReplyEnd)
    requires ValidLayout(l)
    ensures (replies, end) == Replies(buf, 0, l, [])
  {
    var w := 0;
    replies := [];
    while true
      invariant w <= |buf| && Replies(buf, w, l, replies) == Replies(buf, 0, l, [])
      decreases |buf| - w
    {
      if w >= |buf| {
        return replies, ReplyOverrun;
      }
      var msgType := buf[w];
      if msgType == 0 {
        return replies, Ended;
      }
      var size := ReplyWords(l, msgType);
      if size.None? {
        return replies, UnknownReply(msgType);
      }
      if w + size.value > |buf| {
        return replies, ReplyOverrun;
      }
      replies := replies + [buf[w..w + size.value]];
      w := w + size.value;
    }
  }

  /** A reply as the controller lays it out: a known, non-zero type word
   *  and the size of its struct. */
  predicate WellFormed(l: ReplyLayout, r: seq<u32>)
  {
    r != [] && r[0] != 0 && ReplyWords(l, r[0]) == Some(|r|)
  }

  /** Replies one after the other. */
  function Concat(rs: seq<seq<u32>>): seq<u32>
  {
    if rs == [] then [] else rs[0] + Concat(rs[1..])
  }

  /** display_reply prints back exactly the replies laid out before a zero
   *  type word. */
  lemma RepliesRead(l: ReplyLayout, rs: seq<seq<u32>>, tail: seq<u32>)
    requires ValidLayout(l) && forall k :: 0 <= k < |rs| ==> WellFormed(l, rs[k])
    ensures Replies(Concat(rs) + [0] + tail, 0, l, []) == (rs, Ended)
  {
    assert [] + Concat(rs) + [0] + tail == Concat(rs) + [0] + tail;
    RepliesFrom(l, [], rs, tail, []);
    assert [] + rs == rs;
  }

  lemma {:induction false} RepliesFrom(l: ReplyLayout, pre: seq<u32>, rs: seq<seq<u32>>, tail: seq<u32>, acc: seq<seq<u32>>)
    requires ValidLayout(l) && forall k :: 0 <= k < |rs| ==> WellFormed(l, rs[k])
    ensures Replies(pre + Concat(rs) + [0] + tail, |pre|, l, acc) == (acc + rs, Ended)
    decreases |rs|
  {
    var buf := pre + Concat(rs) + [0] + tail;
    if rs == [] {
      assert buf[|pre|] == 0;
      assert acc + rs == acc;
    } else {
      var r, rest := rs[0], rs[1..];
      var k := |r|;
      assert Concat(rs) == r + Concat(rest);
      assert buf == (pre + r) + Concat(rest) + [0] + tail;
      assert buf[|pre|] == r[0];
      assert buf[|pre|..|pre| + k] == r;
      assert forall j :: 0 <= j < |rest| ==> rest[j] == rs[j + 1];
      RepliesFrom(l, pre + r, rest, tail, acc + [r]);
      assert acc + [r] + rest == acc + rs;
    }
  }
}
