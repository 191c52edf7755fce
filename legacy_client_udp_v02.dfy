/**
 * The interactive UDP test client of test_client/udp_v0.2.c. It asks on
 * the terminal for message types and their values, packs the messages of
 * the top-level shared/messages.h into one datagram, and prints back what
 * it packed. Every message struct there is made of `uint` fields, so the
 * packet buffer is a sequence of 32-bit words; sizes and the remaining
 * space are counted in bytes, as the C code counts them. The terminal is
 * the sequence of lines that fgets returns; the socket is not modelled.
 */
module LegacyClientUdpV02 {
  import opened CInt
  import opened Text
  import opened Wrappers
  import opened PacketLayout

  const BUFSIZE: nat := 1024
  const LONG_MAX: int := 0x7FFF_FFFF_FFFF_FFFF

  // shared/messages.h:5-15
  const MSG_NONE: u32 := 0
  const MSG_SET_GLOAL_UPDATE_RATE: u32 := 1
  const MSG_SET_AXIS_ABS_POS: u32 := 2
  const MSG_SET_AXIS_REL_POS: u32 := 3
  const MSG_SET_AXIS_MAX_SPEED: u32 := 4
  const MSG_SET_AXIS_MAX_ACCEL: u32 := 5
  const MSG_SET_AXIS_ABS_POS_AT_TIME: u32 := 6
  const MSG_GET_GLOBAL_CONFIG: u32 := 7
  const MSG_GET_AXIS_CONFIG: u32 := 8
  const MSG_GET_AXIS_POS: u32 := 9

  // ---------------------------------------------------------------------
  // all_digits and get_property_uint (test_client/udp_v0.2.c:36-57)

  /** The line holds only decimal digits before its end. */
  predicate DigitLine(buf: string)
  {
    forall k :: 0 <= k < LineEnd(buf, 0) ==> IsDigit(buf[k])
  }

  /** all_digits: 1 exactly when every character before the first NUL or
   *  newline is a decimal digit; a '-' is refused. */
  method AllDigits(buf: string) returns (ok: bool)
    ensures ok <==> DigitLine(buf)
  {
    var i := 0;
    while i < |buf| && buf[i] != '\0' && buf[i] != '\n'
      invariant i <= LineEnd(buf, 0)
      invariant forall k :: 0 <= k < i ==> IsDigit(buf[k])
      invariant LineEnd(buf, i) == LineEnd(buf, 0)
    {
      if !IsDigit(buf[i]) {
        return false;
      }
      i := i + 1;
    }
    return true;
  }

  /** strtol(buf, _, 10) of a digit line, converted to uint: the value
   *  saturates at LONG_MAX and is then reduced modulo 2^32. */
  function Strtol(buf: string): (v: u32)
    requires DigitLine(buf)
  {
    var n := Decimal(buf[..LineEnd(buf, 0)]);
    U32(if n > LONG_MAX then LONG_MAX else n)
  }

  /**
   * get_property_uint on the lines still to come, after the buffer last
   * held `prev`: the lines left and the value, or None when it never
   * returns (the input ends after a refused line, so fgets leaves the
   * refused line in the buffer for ever). At the end of the input fgets
   * leaves the buffer as it was.
   */
  function Property(lines: seq<string>, prev: string): (r: Option<(seq<string>, u32)>)
    ensures r.Some? ==> |r.value.0| <= |lines|
    ensures r.Some? && r.value.1 != 0 && prev == "" ==> |r.value.0| < |lines|
    decreases |lines|
  {
    if lines == [] then
      if DigitLine(prev) then Some(([], Strtol(prev))) else None
    else if DigitLine(lines[0]) then Some((lines[1..], Strtol(lines[0])))
    else Property(lines[1..], lines[0])
  }


  /** The terminal: the lines fgets will return, in order. */
  class Console {
    var input: seq<string>

    constructor (lines: seq<string>)
      ensures input == lines
    {
      input := lines;
    }

    /** get_property_uint (test_client/udp_v0.2.c:48-57): prompt until a
     *  line of digits comes, then its value; `hangs` when it never
     *  returns. */
    method GetPropertyUint() returns (v: u32, hangs: bool)
      modifies this
      ensures hangs <==> Property(old(input), "").None?
      ensures !hangs ==> (input, v) == Property(old(input), "").value
    {
      var buf := "";
      while true
        invariant Property(input, buf) == Property(old(input), "")
        decreases |input|
      {
        if input == [] {
          var ok := AllDigits(buf);
          if ok {
            return Strtol(buf), false;
          }
          return 0, true;
        }
        buf := input[0];
        input := input[1..];
        var ok := AllDigits(buf);
        if ok {
          return Strtol(buf), false;
        }
      }
    }

    /** The value prompts populate_data asks after a valid type, and the
     *  message they make (test_client/udp_v0.2.c:76-77, 90-92, 113-144). */
    method ReadMessage(t: u32) returns (m: Message, hangs: bool)
      requires 1 <= t <= 9
      modifies this
      ensures hangs <==> Read(old(input), t).None?
      ensures !hangs ==> (input, m) == Read(old(input), t).value
    {
      var n := Prompts(t);
      var v0, v1: u32 := 0, 0;
      hangs := false;
      if n >= 1 {
        v0, hangs := GetPropertyUint();
      }
      if !hangs && n == 2 {
        ghost var mid := input;
        v1, hangs := GetPropertyUint();
        assert Values(old(input), 2) == (match Values(mid, 1) case None => None case Some(p) => Some((p.0, [v0] + p.1)));
      }
      m := Shape(t, v0, v1);
    }
  }

  /** A line holding a number, as a user types it, is accepted and read
   *  back as that number. */
  lemma NumberLine(n: nat, rest: seq<string>)
    requires n < 0x1_0000_0000
    ensures Property([Digits(n) + "\n"] + rest, "") == Some((rest, n as u32))
  {
    var line := Digits(n) + "\n";
    var ds := Digits(n);
    LineEndAt(line, |ds|);
    assert line[..|ds|] == ds;
    DecimalDigits(n);
    assert ([line] + rest)[1..] == rest;
  }

  lemma {:induction false} LineEndAt(buf: string, j: nat)
    requires j < |buf| && (buf[j] == '\0' || buf[j] == '\n')
    requires forall k :: 0 <= k < j ==> IsDigit(buf[k])
    ensures LineEnd(buf, 0) == j
  {
    LineEndFrom(buf, 0, j);
  }

  lemma {:induction false} LineEndFrom(buf: string, i: nat, j: nat)
    requires i <= j < |buf| && (buf[j] == '\0' || buf[j] == '\n')
    requires forall k :: i <= k < j ==> IsDigit(buf[k])
    ensures LineEnd(buf, i) == j
    decreases j - i
  {
    if i < j {
      LineEndFrom(buf, i + 1, j);
    }
  }

  /** An empty line, or the end of the input before any refused line,
   *  reads as 0, which ends the packet. */
  lemma EmptyLineIsZero(rest: seq<string>)
    ensures Property(["\n"] + rest, "") == Some((rest, 0))
    ensures Property([], "") == Some(([], 0))
  {
    assert LineEnd("\n", 0) == 0;
    assert ("\n")[..0] == [];
    assert (["\n"] + rest)[1..] == rest;
    assert LineEnd("", 0) == 0;
  }

  /** A refused last line makes get_property_uint wait for ever. */
  lemma RefusedLastLineHangs()
    ensures Property(["-1\n"], "") == None
  {
    assert !IsDigit("-1\n"[0]);
    assert LineEnd("-1\n", 0) >= 1 by {
      assert LineEnd("-1\n", 0) == LineEnd("-1\n", 1);
    }
  }

  // ---------------------------------------------------------------------
  // Messages and their layout

  /** struct Message, Message_uint and Message_uint_uint. */
  datatype Message =
    | Message(msgType: u32)
    | MessageUint(msgType: u32, value0: u32)
    | MessageUintUint(msgType: u32, value0: u32, value1: u32)

  /** The words of the struct as memcpy lays them out. */
  function Words(m: Message): (ws: seq<u32>)
    ensures |ws| >= 1 && ws[0] == m.msgType
  {
    match m
    case Message(t) => [t]
    case MessageUint(t, v0) => [t, v0]
    case MessageUintUint(t, v0, v1) => [t, v0, v1]
  }

  /** sizeof the struct, in bytes. */
  function Size(m: Message): nat
  {
    4 * |Words(m)|
  }

  /** The words of several messages, one after the other. */
  function Flat(ms: seq<Message>): seq<u32>
  {
    if ms == [] then [] else Flat(ms[..|ms| - 1]) + Words(ms[|ms| - 1])
  }

  lemma {:induction false} FlatCons(m: Message, ms: seq<Message>)
    ensures Flat([m] + ms) == Words(m) + Flat(ms)
    decreases |ms|
  {
    var s := [m] + ms;
    if ms == [] {
      assert s[..0] == [];
    } else {
      var init, last := ms[..|ms| - 1], ms[|ms| - 1];
      assert s[..|s| - 1] == [m] + init;
      assert s[|s| - 1] == last;
      FlatCons(m, init);
      Assoc(Words(m), Flat(init), Words(last));
    }
  }


  /** The message populate_data builds for a type, given the values the
   *  following prompts return (test_client/udp_v0.2.c:113-144). */
  function Shape(t: u32, v0: u32, v1: u32): (m: Message)
    requires 1 <= t <= 9
    ensures m.msgType == t
  {
    if t == MSG_SET_GLOAL_UPDATE_RATE then MessageUint(t, v0)
    else if t == MSG_SET_AXIS_ABS_POS then MessageUintUint(t, v0, v1)
    else if t == MSG_GET_AXIS_CONFIG || t == MSG_GET_AXIS_POS then MessageUint(t, v0)
    else Message(t)
  }

  /** How many values the prompts of a type ask for. */
  function Prompts(t: u32): nat
  {
    if t == MSG_SET_AXIS_ABS_POS then 2
    else if t == MSG_SET_GLOAL_UPDATE_RATE || t == MSG_GET_AXIS_CONFIG || t == MSG_GET_AXIS_POS then 1
    else 0
  }

  /** Why populate_data or display_data stopped. */
  datatype Outcome =
    | Finished
    | NoSpace
    | InvalidType(msgType: u32)
    | Hangs

  /** `n` values from the terminal: the lines left and the values, or
   *  None when a prompt never returns. */
  function Values(lines: seq<string>, n: nat): (r: Option<(seq<string>, seq<u32>)>)
    ensures r.Some? ==> |r.value.0| <= |lines| && |r.value.1| == n
    decreases n
  {
    if n == 0 then Some((lines, []))
    else
      match Property(lines, "")
      case None => None
      case Some((rest, v)) =>
        match Values(rest, n - 1)
        case None => None
        case Some((left, vs)) => Some((left, [v] + vs))
  }

  /** The values asked after a valid type and the message they make:
   *  the lines left and the message, or None when a prompt never
   *  returns. */
  function Read(lines: seq<string>, t: u32): (r: Option<(seq<string>, Message)>)
    requires 1 <= t <= 9
    ensures r.Some? ==> |r.value.0| <= |lines| && r.value.1.msgType == t
  {
    match Values(lines, Prompts(t))
    case None => None
    case Some((left, vs)) =>
      Some((left, Shape(t, if |vs| > 0 then vs[0] else 0, if |vs| > 1 then vs[1] else 0)))
  }

  /**
   * populate_data from the lines still to come, with `space` bytes left
   * and the messages `ms` packed so far: the messages packed, the space
   * left and why it stopped. A type 0 ends the packet; a type above 9
   * and a message larger than the space left end the program.
   */
  function Build(lines: seq<string>, space: nat, ms: seq<Message>): (r: (seq<Message>, nat, Outcome))
    ensures 4 * |Flat(r.0)| + r.1 == 4 * |Flat(ms)| + space
    ensures ms <= r.0
    decreases |lines|
  {
    match Property(lines, "")
    case None => (ms, space, Hangs)
    case Some((rest, t)) =>
      if t == MSG_NONE then (ms, space, Finished)
      else if t > MSG_GET_AXIS_POS then (ms, space, InvalidType(t))
      else
        match Read(rest, t)
        case None => (ms, space, Hangs)
        case Some((left, m)) =>
          if space < Size(m) then (ms, space, NoSpace)
          else Build(left, space - Size(m), ms + [m])
  }

  /** One round of populate_data's loop: what the type read next decides. */
  lemma BuildNext(lines: seq<string>, rest: seq<string>, t: u32, space: nat, ms: seq<Message>)
    requires Property(lines, "") == Some((rest, t))
    ensures t == MSG_NONE ==> Build(lines, space, ms) == (ms, space, Finished)
    ensures t > MSG_GET_AXIS_POS ==> Build(lines, space, ms) == (ms, space, InvalidType(t))
    ensures MSG_NONE < t <= MSG_GET_AXIS_POS ==>
      match Read(rest, t)
      case None => Build(lines, space, ms) == (ms, space, Hangs)
      case Some((left, m)) =>
        && |left| < |lines|
        && Build(lines, space, ms) == if space < Size(m) then (ms, space, NoSpace) else Build(left, space - Size(m), ms + [m])
  {
  }

  /** A message as populate_data packs it: the shape of its type and a
   *  type from 1 to 9. */
  predicate Packable(m: Message)
  {
    Shaped(m) && 1 <= m.msgType <= 9
  }

  /** Every message populate_data packs is Packable. */
  lemma {:induction false} BuildShaped(lines: seq<string>, space: nat, ms: seq<Message>)
    requires forall k :: 0 <= k < |ms| ==> Packable(ms[k])
    ensures forall k :: 0 <= k < |Build(lines, space, ms).0| ==> Packable(Build(lines, space, ms).0[k])
    decreases |lines|
  {
    var p := Property(lines, "");
    if p.Some? {
      var (rest, t) := p.value;
      BuildNext(lines, rest, t, space, ms);
      if MSG_NONE < t <= MSG_GET_AXIS_POS && Read(rest, t).Some? {
        var (left, m) := Read(rest, t).value;
        if space >= Size(m) {
          ReadPackable(rest, t);
          var ms' := ms + [m];
          forall k | 0 <= k < |ms'|
            ensures Packable(ms'[k])
          {
            if k < |ms| {
              assert ms'[k] == ms[k];
            }
          }
          BuildShaped(left, space - Size(m), ms');
        }
      }
    }
  }

  lemma ReadPackable(lines: seq<string>, t: u32)
    requires 1 <= t <= 9 && Read(lines, t).Some?
    ensures Packable(Read(lines, t).value.1)
  {
  }

  // ---------------------------------------------------------------------
  // populate_data

  /** The packet being filled: its memory, where *packet points (a word
   *  index) and *packet_space (bytes). */
  class Writer {
    var buf: seq<u32>
    var at: nat
    var space: nat

    /** The space left is whole words and lies inside the buffer. */
    predicate Valid()
      reads this
    {
      space % 4 == 0 && 4 * at + space <= 4 * |buf|
    }

    /** main's packet and packet_space, which keeps room for an empty
     *  terminating record (test_client/udp_v0.2.c:198-200). */
    constructor (memory: seq<u32>)
      requires |memory| == BUFSIZE / 4
      ensures Valid() && buf == memory && at == 0 && space == BUFSIZE - 4
    {
      buf, at, space := memory, 0, BUFSIZE - 4;
    }

    /** The copy shared by populate_message, populate_message_uint and
     *  populate_message_uint_uint (test_client/udp_v0.2.c:62-70, 77-85,
     *  94-102): refuse a message larger than the space left, otherwise
     *  copy it, take its size from the space and move past it. */
    method Store(m: Message) returns (size: nat, ok: bool)
      requires Valid()
      modifies this
      ensures Valid() && size == Size(m) && (ok <==> old(space) >= Size(m))
      ensures !ok ==> buf == old(buf) && at == old(at) && space == old(space)
      ensures ok ==> && buf == Copied(old(buf), old(at), Words(m))
                     && at == old(at) + |Words(m)| && space == old(space) - Size(m)
    {
      size := Size(m);
      if space < size {
        return size, false;
      }
      var ws := Words(m);
      buf := Copied(buf, at, ws);
      space := space - size;
      at := at + |ws|;
      ok := true;
    }

    /** Store, seen as one more message laid out after `ms` over the
     *  space cleared from word `start` on. */
    method Pack(m: Message, ghost mem: seq<u32>, ghost start: nat, ghost n: nat, ghost ms: seq<Message>)
      returns (size: nat, ok: bool)
      requires Valid() && start + n <= |mem| && 4 * |Flat(ms)| + space == 4 * n
      requires buf == Laid(mem, start, n, Flat(ms)) && at == start + |Flat(ms)|
      modifies this
      ensures Valid() && size == Size(m) && (ok <==> old(space) >= Size(m))
      ensures !ok ==> buf == old(buf) && at == old(at) && space == old(space)
      ensures ok ==> && buf == Laid(mem, start, n, Flat(ms + [m])) && at == start + |Flat(ms + [m])|
                     && space == old(space) - size && 4 * |Flat(ms + [m])| + space == 4 * n
    {
      ghost var a, b := at, buf;
      size, ok := Store(m);
      if ok {
        PackedNext(mem, start, n, ms, m, b, a);
      }
    }

    /**
     * populate_data (test_client/udp_v0.2.c:105-151): clear the space
     * left, then pack messages while the user gives a non-zero type. The
     * packet size returned is the total of the message sizes.
     */
    method PopulateData(console: Console) returns (packetSize: nat, outcome: Outcome)
      requires Valid()
      modifies this, console
      ensures Valid()
      ensures var r := Build(old(console.input), old(space), []);
        && outcome == r.2 && space == r.1 && packetSize == 4 * |Flat(r.0)|
        && at == old(at) + |Flat(r.0)|
        && buf == Laid(old(buf), old(at), old(space) / 4, Flat(r.0))
    {
      ghost var final := Build(console.input, space, []);
      ghost var start, space0, mem := at, space, buf;
      ghost var n := space / 4;
      buf := buf[..at] + Zeros(space / 4) + buf[at + space / 4..];
      ghost var ms: seq<Message> := [];
      packetSize := 0;
      assert Laid(mem, start, n, []) == buf;
      while true
        invariant Valid() && at == start + |Flat(ms)| && packetSize == 4 * |Flat(ms)|
        invariant packetSize + space == space0 == 4 * n
        invariant buf == Laid(mem, start, n, Flat(ms))
        invariant Build(console.input, space, ms) == final
        decreases |console.input|
      {
        ghost var lines := console.input;
        var msgType, hangs := console.GetPropertyUint();
        if hangs {
          assert final == (ms, space, Hangs);
          return packetSize, Hangs;
        }
        BuildNext(lines, console.input, msgType, space, ms);
        if msgType == MSG_NONE {
          assert final == (ms, space, Finished);
          return packetSize, Finished;
        }
        if msgType > MSG_GET_AXIS_POS {
          assert final == (ms, space, InvalidType(msgType));
          return packetSize, InvalidType(msgType);
        }
        var m, hung := console.ReadMessage(msgType);
        if hung {
          assert final == (ms, space, Hangs);
          return packetSize, Hangs;
        }
        var size, ok := Pack(m, mem, start, n, ms);
        if !ok {
          assert final == (ms, space, NoSpace);
          return packetSize, NoSpace;
        }
        ms := ms + [m];
        packetSize := packetSize + size;
      }
    }
  }

  /** Writing one more message keeps the layout. */
  lemma PackedNext(mem: seq<u32>, start: nat, n: nat, ms: seq<Message>, m: Message, b: seq<u32>, a: nat)
    requires start + n <= |mem| && |Flat(ms)| + |Words(m)| <= n
    requires b == Laid(mem, start, n, Flat(ms)) && a == start + |Flat(ms)|
    ensures Flat(ms + [m]) == Flat(ms) + Words(m)
    ensures Copied(b, a, Words(m)) == Laid(mem, start, n, Flat(ms + [m]))
  {
    assert (ms + [m])[..|ms|] == ms;
    var f, wm := Flat(ms), Words(m);
    assert Flat(ms + [m]) == f + wm;
    LaidNext(mem, start, n, f, wm);
  }

  // ---------------------------------------------------------------------
  // display_data

  /**
   * display_data (test_client/udp_v0.2.c:153-188) from word `w` on (byte
   * 4 * w of the packet), after printing `shown`: only types 1 and 2 are
   * printed, anything else ends the program. A message that would be read
   * beyond the buffer is Overrun; C leaves that undefined.
   */
  function Display(packet: seq<u32>, w: nat, size: nat, shown: seq<Message>): (r: (seq<Message>, Shown))
    ensures shown <= r.0
    ensures forall k :: |shown| <= k < |r.0| ==> r.0[k].msgType in {MSG_SET_GLOAL_UPDATE_RATE, MSG_SET_AXIS_ABS_POS}
    ensures r.1.Refused? ==> r.1.msgType !in {MSG_SET_GLOAL_UPDATE_RATE, MSG_SET_AXIS_ABS_POS}
    decreases size - 4 * w
  {
    if 4 * w >= size then (shown, Printed)
    else if w >= |packet| then (shown, Overrun)
    else
      var t := packet[w];
      if t == MSG_SET_GLOAL_UPDATE_RATE then
        if w + 2 > |packet| then (shown, Overrun)
        else Display(packet, w + 2, size, shown + [MessageUint(t, packet[w + 1])])
      else if t == MSG_SET_AXIS_ABS_POS then
        if w + 3 > |packet| then (shown, Overrun)
        else Display(packet, w + 3, size, shown + [MessageUintUint(t, packet[w + 1], packet[w + 2])])
      else (shown, Refused(t))
  }

  /** How display_data ended. */
  datatype Shown = Printed | Refused(msgType: u32) | Overrun

  /** The walk of display_data as a loop; `w` is packet_parsed in words. */
  method DisplayData(packet: seq<u32>, packetSize: nat) returns (shown: seq<Message>, how: Shown)
    ensures (shown, how) == Display(packet, 0, packetSize, [])
  {
    var w := 0;
    shown := [];
    while 4 * w < packetSize
      invariant Display(packet, w, packetSize, shown) == Display(packet, 0, packetSize, [])
      decreases packetSize - 4 * w
    {
      if w >= |packet| {
        return shown, Overrun;
      }
      var msgType := packet[w];
      var messageWords: nat;
      if msgType == MSG_SET_GLOAL_UPDATE_RATE {
        if w + 2 > |packet| {
          return shown, Overrun;
        }
        shown := shown + [MessageUint(msgType, packet[w + 1])];
        messageWords := 2;
      } else if msgType == MSG_SET_AXIS_ABS_POS {
        if w + 3 > |packet| {
          return shown, Overrun;
        }
        shown := shown + [MessageUintUint(msgType, packet[w + 1], packet[w + 2])];
        messageWords := 3;
      } else {
        return shown, Refused(msgType);
      }
      w := w + messageWords;
    }
    how := Printed;
  }

  /** The messages populate_data builds have the shape of their type. */
  predicate Shaped(m: Message)
  {
    && (m.msgType == MSG_SET_GLOAL_UPDATE_RATE ==> m.MessageUint?)
    && (m.msgType == MSG_SET_AXIS_ABS_POS ==> m.MessageUintUint?)
  }

  /** The index of the first message display_data refuses, or |ms|. */
  function FirstRefused(ms: seq<Message>): (j: nat)
    ensures j <= |ms|
  {
    if ms == [] || (ms[0].msgType != MSG_SET_GLOAL_UPDATE_RATE && ms[0].msgType != MSG_SET_AXIS_ABS_POS) then 0
    else 1 + FirstRefused(ms[1..])
  }

  /** display_data prints a packed message of type 1 or 2 and moves past
   *  it. */
  lemma DisplayNext(packet: seq<u32>, q: nat, size: nat, shown: seq<Message>, m: Message)
    requires Shaped(m) && At(packet, q, Words(m)) && 4 * q < size
    requires m.msgType == MSG_SET_GLOAL_UPDATE_RATE || m.msgType == MSG_SET_AXIS_ABS_POS
    ensures Display(packet, q, size, shown) == Display(packet, q + |Words(m)|, size, shown + [m])
  {
    var ws := Words(m);
    assert packet[q + 0] == ws[0];
    assert packet[q + 1] == ws[1];
    if m.msgType == MSG_SET_AXIS_ABS_POS {
      assert packet[q + 2] == ws[2];
    }
  }

  /** display_data stops at a packed message of any other type. */
  lemma DisplayStops(packet: seq<u32>, q: nat, size: nat, shown: seq<Message>, m: Message)
    requires At(packet, q, Words(m)) && 4 * q < size
    requires m.msgType != MSG_SET_GLOAL_UPDATE_RATE && m.msgType != MSG_SET_AXIS_ABS_POS
    ensures Display(packet, q, size, shown) == (shown, Refused(m.msgType))
  {
    assert packet[q + 0] == Words(m)[0];
  }


  /**
   * What populate_data packs, display_data prints back: the messages up
   * to the first one that is not of type 1 or 2, where it stops with
   * that type (types 3 to 9 can be packed but not displayed).
   */
  lemma DisplayPacked(ms: seq<Message>, tail: seq<u32>)
    requires forall k :: 0 <= k < |ms| ==> Shaped(ms[k])
    ensures var j := FirstRefused(ms);
      Display(Flat(ms) + tail, 0, 4 * |Flat(ms)|, []) ==
        (ms[..j], if j == |ms| then Printed else Refused(ms[j].msgType))
  {
    var packet := Flat(ms) + tail;
    assert At(packet, 0, Flat(ms)) by {
      forall i | 0 <= i < |Flat(ms)|
        ensures packet[0 + i] == Flat(ms)[i]
      {
      }
    }
    AllShapedOf(ms);
    DisplayFrom(ms, packet, 0, 4 * |Flat(ms)|, []);
    ExpectedIs(ms, []);
    assert [] + ms[..FirstRefused(ms)] == ms[..FirstRefused(ms)];
  }

  /** Every message has the shape of its type. */
  predicate AllShaped(ms: seq<Message>)
  {
    ms == [] || (Shaped(ms[0]) && AllShaped(ms[1..]))
  }

  lemma {:induction false} AllShapedOf(ms: seq<Message>)
    requires forall k :: 0 <= k < |ms| ==> Shaped(ms[k])
    ensures AllShaped(ms)
  {
    if ms != [] {
      assert forall k :: 0 <= k < |ms[1..]| ==> ms[1..][k] == ms[k + 1];
      AllShapedOf(ms[1..]);
    }
  }

  /** What display_data shows of packed messages after `shown`, message
   *  by message. */
  function Expected(ms: seq<Message>, shown: seq<Message>): (seq<Message>, Shown)
  {
    if ms == [] then (shown, Printed)
    else if ms[0].msgType == MSG_SET_GLOAL_UPDATE_RATE || ms[0].msgType == MSG_SET_AXIS_ABS_POS then
      Expected(ms[1..], shown + [ms[0]])
    else (shown, Refused(ms[0].msgType))
  }

  /** The same, as the prefix before the first refused message. */
  lemma {:induction false} ExpectedIs(ms: seq<Message>, shown: seq<Message>)
    ensures var j := FirstRefused(ms);
      Expected(ms, shown) == (shown + ms[..j], if j == |ms| then Printed else Refused(ms[j].msgType))
  {
    if ms == [] || (ms[0].msgType != MSG_SET_GLOAL_UPDATE_RATE && ms[0].msgType != MSG_SET_AXIS_ABS_POS) {
      assert shown + ms[..0] == shown;
    } else {
      var rest := ms[1..];
      ExpectedIs(rest, shown + [ms[0]]);
      var j := FirstRefused(rest);
      assert FirstRefused(ms) == 1 + j;
      assert ms[..1 + j] == [ms[0]] + rest[..j];
      Assoc(shown, [ms[0]], rest[..j]);
      assert j < |rest| ==> ms[1 + j] == rest[j];
    }
  }

  lemma {:induction false} DisplayFrom(ms: seq<Message>, packet: seq<u32>, q: nat, size: nat, shown: seq<Message>)
    requires AllShaped(ms)
    requires At(packet, q, Flat(ms)) && size == 4 * q + 4 * |Flat(ms)|
    ensures Display(packet, q, size, shown) == Expected(ms, shown)
    decreases |ms|
  {
    if ms != [] {
      var m, rest := ms[0], ms[1..];
      FlatFirst(ms);
      var ws, fr := Words(m), Flat(rest);
      AtSplit(packet, q, ws, fr);
      if m.msgType == MSG_SET_GLOAL_UPDATE_RATE || m.msgType == MSG_SET_AXIS_ABS_POS {
        DisplayNext(packet, q, size, shown, m);
        var q2 := q + |ws|;
        assert 4 * q2 + 4 * |fr| == size;
        DisplayFrom(rest, packet, q2, size, shown + [m]);
      } else {
        DisplayStops(packet, q, size, shown, m);
      }
    }
  }

  lemma FlatFirst(ms: seq<Message>)
    requires ms != []
    ensures Flat(ms) == Words(ms[0]) + Flat(ms[1..])
  {
    FlatCons(ms[0], ms[1..]);
    assert [ms[0]] + ms[1..] == ms;
  }
}
