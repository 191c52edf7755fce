/**
 * The command parsers of the sender firmware (sender/sender.c).
 *
 * A human command is a line such as "0:100:500:1": up to four unsigned
 * numbers separated by ':' or white space, whose count selects what is
 * done with them; a lone '?' asks for help. A machine command is a list
 * of (target, sequence, key, value) entries in which a run of entries
 * ending in sequence number 0 forms a group that sets one stepper's
 * absolute position over a time window. get_uart collects typed
 * characters into a line and hands it to the human parser on a carriage
 * return.
 *
 * The parsers' effects (stepper moves, position reports, help and reply
 * text) are returned as values; the stepper calls they make are the ones
 * modelled in pico_stepper.dfy.
 */
module Sender {
  import opened CInt
  import opened Wrappers
  import opened Text

  /** DATA_BUF_SIZE of sender/sender.h. */
  const DATA_BUF_SIZE: nat := 1024
  /** LONG_MAX of a 32-bit long: what strtol returns on overflow. */
  const LONG_MAX: nat := 0x7FFF_FFFF
  const MAX_VALUES: nat := 4
  const CARRIAGE_RETURN: int := 13

  /** isprint in the C locale. */
  predicate IsPrint(ch: int)
  {
    32 <= ch <= 126
  }

  /** strtol on a run of digits, saturating at LONG_MAX, stored in a
   *  uint32_t. */
  function Strtol(ds: seq<char>): (v: u32)
    requires forall k :: 0 <= k < |ds| ==> IsDigit(ds[k])
    ensures v <= LONG_MAX && (Decimal(ds) <= LONG_MAX ==> v == Decimal(ds))
  {
    if Decimal(ds) > LONG_MAX then LONG_MAX else Decimal(ds)
  }

  /** How the tokenizer of process_buffer_human ends. */
  datatype Scan = Values(vs: seq<u32>) | TooMany | Help | Unexpected

  /**
   * The tokenizer of process_buffer_human (sender/sender.c:156-186) from
   * position i with the numbers vs read so far: ':' and white space are
   * skipped, a maximal run of digits is one number, a fifth number stops
   * with TooMany, '?' before any number asks for help, and any other
   * character stops with Unexpected.
   */
  function ScanFrom(s: seq<char>, i: nat, vs: seq<u32>): (r: Scan)
    requires i <= |s| && |vs| <= MAX_VALUES
    ensures r.Values? ==> |r.vs| <= MAX_VALUES && vs <= r.vs
    ensures r.Help? ==> vs == []
    decreases |s| - i
  {
    if i == |s| then Values(vs)
    else if s[i] == ':' || IsSpace(s[i]) then ScanFrom(s, i + 1, vs)
    else if IsDigit(s[i]) then
      var j := DigitRun(s, i);
      if |vs| < MAX_VALUES then ScanFrom(s, j, vs + [Strtol(s[i..j])]) else TooMany
    else if s[i] == '?' && |vs| == 0 then Help
    else Unexpected
  }

  /** What process_buffer_human does with a line. */
  datatype Action =
    | SendSteps(stepper: u32, stepCount: u32, stepLenUs: u32, direction: u32)
    | SetAbsolute(stepper: u32, position: u32, timeSliceUs: u32)
    | Report(stepper: u32)
    | ReportAll
    | WrongCount
    | ShowHelp
    | Dropped

  /** The dispatch on the count of numbers (sender/sender.c:188-244). */
  function Dispatch(r: Scan): (a: Action)
    ensures a.SendSteps? <==> r.Values? && |r.vs| == 4
    ensures a.SetAbsolute? <==> r.Values? && |r.vs| == 3
    ensures a.Report? <==> r.Values? && |r.vs| == 1
    ensures a.ReportAll? <==> r.Values? && |r.vs| == 0
    ensures a.WrongCount? <==> r.Values? && (|r.vs| == 2 || |r.vs| > 4)
    ensures a.ShowHelp? <==> r.Help?
    ensures a.Dropped? <==> r.TooMany? || r.Unexpected?
  {
    if r.Values? then
      var vs := r.vs;
      if |vs| == 4 then SendSteps(vs[0], vs[1], vs[2], vs[3])
      else if |vs| == 3 then SetAbsolute(vs[0], vs[1], vs[2])
      else if |vs| == 1 then Report(vs[0])
      else if |vs| == 0 then ReportAll
      else WrongCount
    else if r.Help? then ShowHelp
    else Dropped
  }

  /** process_buffer_human on the text of a line. */
  function Human(line: seq<char>): (a: Action)
    ensures line == [] ==> a == ReportAll
    ensures line != [] && line[0] == '?' ==> a == ShowHelp
  {
    Dispatch(ScanFrom(line, 0, []))
  }

  /** A rendered number at i followed by a non-digit is read as one
   *  number. */
  lemma ScanNumberAt(s: seq<char>, i: nat, n: nat, vs: seq<u32>)
    requires n <= LONG_MAX && |vs| < MAX_VALUES
    requires i + |Digits(n)| <= |s| && s[i..i + |Digits(n)|] == Digits(n)
    requires i + |Digits(n)| == |s| || !IsDigit(s[i + |Digits(n)|])
    ensures ScanFrom(s, i, vs) == ScanFrom(s, i + |Digits(n)|, vs + [n])
  {
    var ds := Digits(n);
    var j := i + |ds|;
    assert s[i] == ds[0];
    forall k | i <= k < j
      ensures IsDigit(s[k])
    {
      assert s[k] == s[i..j][k - i];
    }
    RunAcross(s, i, j);
    DecimalDigits(n);
    assert Strtol(s[i..j]) == n;
  }

  /** The tokenizer reads a line the same way after any prefix it has
   *  already passed. */
  lemma {:induction false} ScanShift(p: seq<char>, t: seq<char>, i: nat, vs: seq<u32>)
    requires i <= |t| && |vs| <= MAX_VALUES
    ensures ScanFrom(p + t, |p| + i, vs) == ScanFrom(t, i, vs)
    decreases |t| - i
  {
    var s := p + t;
    if i < |t| {
      assert s[|p| + i] == t[i];
      if t[i] == ':' || IsSpace(t[i]) {
        ScanShift(p, t, i + 1, vs);
      } else if IsDigit(t[i]) {
        var j := DigitRun(t, i);
        forall k | |p| + i <= k < |p| + j
          ensures IsDigit(s[k])
        {
          assert s[k] == t[k - |p|];
        }
        assert |p| + j == |s| || s[|p| + j] == t[j];
        RunAcross(s, |p| + i, |p| + j);
        assert s[|p| + i..|p| + j] == t[i..j];
        if |vs| < MAX_VALUES {
          ScanShift(p, t, j, vs + [Strtol(t[i..j])]);
        }
      }
    }
  }

  /** A number and a separator are read as that number, and the rest of
   *  the line is read after them. */
  lemma NumberThenSeparator(n: nat, sep: char, t: seq<char>, vs: seq<u32>)
    requires n <= LONG_MAX && |vs| < MAX_VALUES && (sep == ':' || IsSpace(sep))
    ensures ScanFrom(Digits(n) + [sep] + t, 0, vs) == ScanFrom(t, 0, vs + [n])
  {
    var p := Digits(n) + [sep];
    var s := p + t;
    assert s[..|Digits(n)|] == Digits(n) && s[|Digits(n)|] == sep;
    ScanNumberAt(s, 0, n, vs);
    ScanShift(p, t, 0, vs + [n]);
  }

  /** A number that ends the line is read as the last one. */
  lemma NumberAtEnd(n: nat, vs: seq<u32>)
    requires n <= LONG_MAX && |vs| < MAX_VALUES
    ensures ScanFrom(Digits(n), 0, vs) == Values(vs + [n])
  {
    ScanNumberAt(Digits(n), 0, n, vs);
  }

  /** "a:b:c" sets the absolute position of stepper a to b over c
   *  microseconds. */
  lemma ThreeNumbersSetPosition(a: nat, b: nat, c: nat)
    requires a <= LONG_MAX && b <= LONG_MAX && c <= LONG_MAX
    ensures Human(Digits(a) + [':'] + (Digits(b) + [':'] + Digits(c))) == SetAbsolute(a, b, c)
  {
    NumberThenSeparator(a, ':', Digits(b) + [':'] + Digits(c), []);
    NumberThenSeparator(b, ':', Digits(c), [a]);
    NumberAtEnd(c, [a, b]);
    assert [] + [a as u32] == [a];
    assert [a as u32] + [b as u32] == [a, b];
    assert [a as u32, b] + [c as u32] == [a, b, c];
  }

  /** A fifth number drops the line. */
  lemma FiveNumbersDropped(a: nat, t: seq<char>)
    requires a <= LONG_MAX
    ensures var d := Digits(a) + [' '];
      Human(d + (d + (d + (d + (Digits(a) + t))))) == Dropped
  {
    var d := Digits(a) + [' '];
    NumberThenSeparator(a, ' ', d + (d + (d + (Digits(a) + t))), []);
    NumberThenSeparator(a, ' ', d + (d + (Digits(a) + t)), [a]);
    NumberThenSeparator(a, ' ', d + (Digits(a) + t), [a, a]);
    NumberThenSeparator(a, ' ', Digits(a) + t, [a, a, a]);
    assert [] + [a as u32] == [a];
    assert [a as u32] + [a as u32] == [a, a];
    assert [a as u32, a] + [a as u32] == [a, a, a];
    assert [a as u32, a, a] + [a as u32] == [a, a, a, a];
    assert IsDigit((Digits(a) + t)[0]);
  }

  /** The text of a C string: everything before the first NUL. */
  function CString(buf: seq<char>): (s: seq<char>)
    ensures |s| <= |buf| && s == buf[..|s|] && '\0' !in s
    ensures |s| < |buf| ==> buf[|s|] == '\0'
  {
    if buf == [] || buf[0] == '\0' then [] else [buf[0]] + CString(buf[1..])
  }

  /** memset(buf, '\0', ...). */
  method Clear(buf: array<char>)
    modifies buf
    ensures forall k :: 0 <= k < buf.Length ==> buf[k] == '\0'
  {
    forall k | 0 <= k < buf.Length {
      buf[k] := '\0';
    }
  }

  /**
   * process_buffer_human (sender/sender.c:154-246): tokenizes the C string
   * in tx, decides what to do by the count of numbers, and clears tx on
   * every path.
   */
  method ProcessBufferHuman(tx: array<char>) returns (action: Action)
    requires '\0' in tx[..]
    modifies tx
    ensures action == Human(CString(old(tx[..])))
    ensures forall k :: 0 <= k < tx.Length ==> tx[k] == '\0'
  {
    var s := CString(tx[..]);
    var values: seq<u32> := [];
    var i := 0;
    while i < |s|
      invariant i <= |s| && |values| <= MAX_VALUES
      invariant ScanFrom(s, 0, []) == ScanFrom(s, i, values)
    {
      var c := s[i];
      if c == ':' || IsSpace(c) {
        i := i + 1;
      } else if IsDigit(c) {
        var j := DigitRun(s, i);
        var val := Strtol(s[i..j]);
        if |values| < MAX_VALUES {
          values := values + [val];
        } else {
          Clear(tx);
          return Dropped;
        }
        i := j;
      } else if c == '?' && |values| == 0 {
        Clear(tx);
        return ShowHelp;
      } else {
        Clear(tx);
        return Dropped;
      }
    }
    action := Dispatch(Values(values));
    Clear(tx);
  }

  /** One character from the UART (sender/sender.c:253-261): a carriage
   *  return hands the line to the human parser and empties it; a printable
   *  character is appended while the line is shorter than bufferLen - 1;
   *  anything else is ignored. */
  function UartStep(line: seq<char>, ch: int, bufferLen: nat): (r: (seq<char>, seq<Action>))
    ensures |r.1| <= 1 && (r.1 != [] <==> ch == CARRIAGE_RETURN)
    ensures ch != CARRIAGE_RETURN ==> line <= r.0 && |r.0| <= |line| + 1
  {
    if ch == CARRIAGE_RETURN then ([], [Human(line)])
    else if |line| < bufferLen - 1 && IsPrint(ch) then (line + [ch as char], [])
    else (line, [])
  }

  /** The characters get_uart reads, up to the first that is not
   *  positive (getchar_timeout_us's timeout), one step each. */
  function UartRun(line: seq<char>, input: seq<int>, bufferLen: nat): (r: (seq<char>, seq<Action>))
    ensures |r.1| <= |input|
    decreases |input|
  {
    if input == [] || input[0] <= 0 then (line, [])
    else
      var (l, a) := UartStep(line, input[0], bufferLen);
      var (l2, a2) := UartRun(l, input[1..], bufferLen);
      (l2, a + a2)
  }

  /** The line never fills its buffer and holds printable characters
   *  only, whatever is typed. */
  lemma {:induction false} UartLineBounded(line: seq<char>, input: seq<int>, bufferLen: nat)
    requires bufferLen >= 1 && |line| < bufferLen
    requires forall k :: 0 <= k < |line| ==> IsPrint(line[k] as int)
    ensures var l := UartRun(line, input, bufferLen).0;
      |l| < bufferLen && forall k :: 0 <= k < |l| ==> IsPrint(l[k] as int)
    decreases |input|
  {
    if input != [] && input[0] > 0 {
      var l := UartStep(line, input[0], bufferLen).0;
      assert forall k :: 0 <= k < |l| ==> IsPrint(l[k] as int);
      UartLineBounded(l, input[1..], bufferLen);
    }
  }

  /** Each carriage return read hands over exactly one line. */
  lemma {:induction false} UartActionPerReturn(line: seq<char>, input: seq<int>, bufferLen: nat)
    ensures |UartRun(line, input, bufferLen).1| == Returns(input)
    decreases |input|
  {
    if input != [] && input[0] > 0 {
      UartActionPerReturn(UartStep(line, input[0], bufferLen).0, input[1..], bufferLen);
    }
  }

  /** The carriage returns get_uart reads before it stops. */
  function Returns(input: seq<int>): nat
  {
    if input == [] || input[0] <= 0 then 0
    else (if input[0] == CARRIAGE_RETURN then 1 else 0) + Returns(input[1..])
  }

  /** A buffer holding a C string of n characters, zero after them, as
   *  main's zero-initialised buffers and get_uart keep it. */
  ghost predicate Terminated(buf: array<char>, n: nat)
    reads buf
  {
    n < buf.Length && (forall k :: 0 <= k < n ==> buf[k] != '\0') && (forall k :: n <= k < buf.Length ==> buf[k] == '\0')
  }

  /** The text of a buffer whose first NUL is at n is its first n
   *  characters. */
  lemma {:induction false} CStringAt(b: seq<char>, n: nat)
    requires n < |b| && b[n] == '\0' && forall k :: 0 <= k < n ==> b[k] != '\0'
    ensures CString(b) == b[..n]
  {
    if n > 0 {
      CStringAt(b[1..], n - 1);
      assert b[..n] == [b[0]] + b[1..][..n - 1];
    }
  }

  lemma TerminatedText(buf: array<char>, n: nat)
    requires Terminated(buf, n)
    ensures CString(buf[..]) == buf[..n]
  {
    CStringAt(buf[..], n);
  }

  /** strlen. */
  method Strlen(buf: array<char>) returns (n: nat)
    requires '\0' in buf[..]
    ensures n < buf.Length && n == |CString(buf[..])| && forall k :: 0 <= k < n ==> buf[k] != '\0'
    ensures buf[n] == '\0'
  {
    n := 0;
    while buf[n] != '\0'
      invariant n < buf.Length && '\0' in buf[n..]
      invariant forall k :: 0 <= k < n ==> buf[k] != '\0'
      decreases buf.Length - n
    {
      assert buf[n..] == [buf[n]] + buf[n + 1..];
      n := n + 1;
    }
    CStringAt(buf[..], n);
  }

  /** One character of get_uart's loop on the line held in buf
   *  (sender/sender.c:253-261). */
  method UartChar(buf: array<char>, n: nat, ch: int) returns (n': nat, actions: seq<Action>)
    requires Terminated(buf, n)
    modifies buf
    ensures Terminated(buf, n')
    ensures (buf[..n'], actions) == UartStep(old(buf[..n]), ch, buf.Length)
  {
    n' := n;
    actions := [];
    if ch == CARRIAGE_RETURN {
      TerminatedText(buf, n);
      var a := ProcessBufferHuman(buf);
      actions := [a];
      n' := 0;
      assert buf[..n'] == [];
    } else if n < buf.Length - 1 && IsPrint(ch) {
      buf[n] := ch as char;
      n' := n + 1;
      assert buf[..n'] == old(buf[..n]) + [ch as char];
    }
  }

  /**
   * get_uart (sender/sender.c:248-266) over the characters read before
   * the timeout: the line and the actions taken are those of UartRun on
   * the line already in the buffer.
   */
  method GetUart(buf: array<char>, input: seq<int>) returns (actions: seq<Action>)
    requires exists n :: Terminated(buf, n)
    modifies buf
    ensures exists n :: Terminated(buf, n)
    ensures (CString(buf[..]), actions) == UartRun(CString(old(buf[..])), input, buf.Length)
  {
    ghost var m :| Terminated(buf, m);
    TerminatedText(buf, m);
    ghost var text := CString(buf[..]);
    var n: nat := Strlen(buf);
    assert n == m;
    actions := [];
    var k := 0;
    assert input[k..] == input;
    while k < |input| && input[k] > 0
      invariant k <= |input| && Terminated(buf, n)
      invariant UartRun(text, input, buf.Length).0 == UartRun(buf[..n], input[k..], buf.Length).0
      invariant UartRun(text, input, buf.Length).1 == actions + UartRun(buf[..n], input[k..], buf.Length).1
    {
      assert input[k..][1..] == input[k + 1..];
      ghost var step := UartStep(buf[..n], input[k], buf.Length);
      ghost var rest := UartRun(step.0, input[k + 1..], buf.Length);
      assert UartRun(buf[..n], input[k..], buf.Length) == (rest.0, step.1 + rest.1);
      var a;
      n, a := UartChar(buf, n, input[k]);
      assert actions + (step.1 + rest.1) == (actions + a) + rest.1;
      actions := actions + a;
      k := k + 1;
    }
    assert actions + [] == actions;
    TerminatedText(buf, n);
  }

  /** The keys of a machine entry that process_buffer_machine acts on;
   *  their codes are defined outside this model. */
  datatype Key = TimeWindow | SetAxisAbsPos | OtherKey

  datatype Entry = Entry(target: u32, sequence: u32, key: Key, value: u32)

  /** The values collected for the current group, None where not set. */
  datatype Collected = Collected(target: Option<u32>, timeWindowUs: Option<u32>, absPos: Option<u32>)

  const EMPTY: Collected := Collected(None, None, None)

  /** set_absolute_position(stepper, position, time window). */
  datatype Call = Call(stepper: u32, position: u32, timeWindowUs: u32)

  /** An entry's key stored into the group (sender/sender.c:127-138). */
  function Collect(g: Collected, e: Entry): Collected
  {
    if e.key == TimeWindow then g.(timeWindowUs := Some(e.value))
    else if e.key == SetAxisAbsPos then g.(absPos := Some(e.value))
    else g
  }

  /**
   * process_buffer_machine (sender/sender.c:103-151) from entry i, with
   * the group g and the last sequence number: the calls made, and whether
   * the walk reached the end rather than aborting on a target mismatch or
   * an invalid target.
   */
  function Walk(entries: seq<Entry>, i: nat, g: Collected, lastSequence: u32, maxTargets: nat)
    : (r: (seq<Call>, bool))
    requires i <= |entries|
    ensures forall c :: c in r.0 ==> c.stepper <= maxTargets
    decreases |entries| - i
  {
    if i == |entries| then ([], true)
    else
      var e := entries[i];
      var g0 := if lastSequence == 0 then EMPTY else g;
      if g0.target.Some? && g0.target.value != e.target then ([], false)
      else if e.target > maxTargets then ([], false)
      else
        var g1 := Collect(g0.(target := Some(e.target)), e);
        var call := if e.sequence == 0 && g1.timeWindowUs.Some? && g1.absPos.Some?
          then [Call(e.target, g1.absPos.value, g1.timeWindowUs.value)] else [];
        var rest := Walk(entries, i + 1, g1, e.sequence, maxTargets);
        (call + rest.0, rest.1)
  }

  function Machine(entries: seq<Entry>, maxTargets: nat): (seq<Call>, bool)
  {
    Walk(entries, 0, EMPTY, 0, maxTargets)
  }

  /** The entries from i that close a group. */
  function GroupEnds(entries: seq<Entry>, i: nat): nat
    requires i <= |entries|
    decreases |entries| - i
  {
    if i == |entries| then 0 else (if entries[i].sequence == 0 then 1 else 0) + GroupEnds(entries, i + 1)
  }

  /** A group is applied only where it closes: there are never more calls
   *  than entries with sequence number 0. */
  lemma {:induction false} CallsAtGroupEnds(entries: seq<Entry>, i: nat, g: Collected, lastSequence: u32, maxTargets: nat)
    requires i <= |entries|
    ensures |Walk(entries, i, g, lastSequence, maxTargets).0| <= GroupEnds(entries, i)
    decreases |entries| - i
  {
    if i < |entries| {
      var e := entries[i];
      var g0 := if lastSequence == 0 then EMPTY else g;
      var g1 := Collect(g0.(target := Some(e.target)), e);
      CallsAtGroupEnds(entries, i + 1, g1, e.sequence, maxTargets);
    }
  }

  /** A time window and a position for one target, closed by sequence 0,
   *  make one call. */
  lemma GroupApplied(t: u32, w: u32, p: u32, maxTargets: nat)
    requires t <= maxTargets
    ensures Machine([Entry(t, 1, TimeWindow, w), Entry(t, 0, SetAxisAbsPos, p)], maxTargets) == ([Call(t, p, w)], true)
  {
    var es := [Entry(t, 1, TimeWindow, w), Entry(t, 0, SetAxisAbsPos, p)];
    var g1 := Collected(Some(t), Some(w), None);
    assert Collect(EMPTY.(target := Some(t)), es[0]) == g1;
    assert Collect(g1.(target := Some(t)), es[1]) == Collected(Some(t), Some(w), Some(p));
    assert Walk(es, 2, Collected(Some(t), Some(w), Some(p)), 0, maxTargets) == ([], true);
    assert Walk(es, 1, g1, 1, maxTargets) == ([Call(t, p, w)] + [], true);
    assert Walk(es, 0, EMPTY, 0, maxTargets) == ([] + Walk(es, 1, g1, 1, maxTargets).0, true);
    assert [] + ([Call(t, p, w)] + []) == [Call(t, p, w)];
  }

  /** A group whose entries name different targets aborts the buffer. */
  lemma MixedTargetsAbort(t: u32, u: u32, w: u32, p: u32, maxTargets: nat)
    requires t <= maxTargets && t != u
    ensures Machine([Entry(t, 1, TimeWindow, w), Entry(u, 0, SetAxisAbsPos, p)], maxTargets) == ([], false)
  {
    var es := [Entry(t, 1, TimeWindow, w), Entry(u, 0, SetAxisAbsPos, p)];
    var g1 := Collected(Some(t), Some(w), None);
    assert Collect(EMPTY.(target := Some(t)), es[0]) == g1;
    assert Walk(es, 1, g1, 1, maxTargets) == ([], false);
    assert Walk(es, 0, EMPTY, 0, maxTargets) == ([] + Walk(es, 1, g1, 1, maxTargets).0, false);
    var none: seq<Call> := [];
    assert none + none == none;
  }

  /** The walk at one entry: it aborts, or it makes the call of the
   *  group this entry closes, if any, before the calls of the rest. */
  lemma WalkEntry(entries: seq<Entry>, i: nat, g: Collected, lastSequence: u32, maxTargets: nat)
    requires i < |entries|
    ensures var e := entries[i];
      var g0 := if lastSequence == 0 then EMPTY else g;
      var r := Walk(entries, i, g, lastSequence, maxTargets);
      if (g0.target.Some? && g0.target.value != e.target) || e.target > maxTargets then r == ([], false)
      else
        var g1 := Collect(g0.(target := Some(e.target)), e);
        var rest := Walk(entries, i + 1, g1, e.sequence, maxTargets);
        && r.1 == rest.1
        && r.0 == if e.sequence == 0 && g1.timeWindowUs.Some? && g1.absPos.Some?
          then [Call(e.target, g1.absPos.value, g1.timeWindowUs.value)] + rest.0 else rest.0
  {
    var e := entries[i];
    var g0 := if lastSequence == 0 then EMPTY else g;
    var g1 := Collect(g0.(target := Some(e.target)), e);
    assert [] + Walk(entries, i + 1, g1, e.sequence, maxTargets).0 == Walk(entries, i + 1, g1, e.sequence, maxTargets).0;
  }

  lemma CallsAppend(calls: seq<Call>, call: Call, rest: seq<Call>)
    ensures calls + ([call] + rest) == (calls + [call]) + rest
  {
  }

  /** The loop of process_buffer_machine over the decoded entries. */
  method ProcessBufferMachine(entries: seq<Entry>, maxTargets: nat) returns (calls: seq<Call>, completed: bool)
    ensures (calls, completed) == Machine(entries, maxTargets)
  {
    var collected := EMPTY;
    var lastSequence: u32 := 0;
    calls := [];
    var i := 0;
    while i < |entries|
      invariant i <= |entries|
      invariant Machine(entries, maxTargets).0 == calls + Walk(entries, i, collected, lastSequence, maxTargets).0
      invariant Machine(entries, maxTargets).1 == Walk(entries, i, collected, lastSequence, maxTargets).1
    {
      var e := entries[i];
      ghost var before := Walk(entries, i, collected, lastSequence, maxTargets);
      WalkEntry(entries, i, collected, lastSequence, maxTargets);
      if lastSequence == 0 {
        collected := EMPTY;
      }
      if collected.target.Some? && collected.target.value != e.target {
        assert before == ([], false);
        assert calls + [] == calls;
        return calls, false;
      }
      if e.target > maxTargets {
        assert before == ([], false);
        assert calls + [] == calls;
        return calls, false;
      }
      ghost var g1 := Collect(collected.(target := Some(e.target)), e);
      collected := collected.(target := Some(e.target));
      if e.key == TimeWindow {
        collected := collected.(timeWindowUs := Some(e.value));
      } else if e.key == SetAxisAbsPos {
        collected := collected.(absPos := Some(e.value));
      }
      assert collected == g1;
      ghost var after := Walk(entries, i + 1, collected, e.sequence, maxTargets);
      assert before.1 == after.1;
      if e.sequence == 0 && collected.timeWindowUs.Some? && collected.absPos.Some? {
        var call := Call(e.target, collected.absPos.value, collected.timeWindowUs.value);
        assert before.0 == [call] + after.0;
        CallsAppend(calls, call, after.0);
        calls := calls + [call];
      } else {
        assert before.0 == after.0;
      }
      lastSequence := e.sequence;
      i := i + 1;
    }
    assert calls + [] == calls;
    return calls, true;
  }
}
