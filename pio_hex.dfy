/**
 * The converter of src/rp2040/convert_to_emulator_hex.py: it reads a
 * `.pio.h` header produced by pioasm line by line, tries four regular
 * expressions on every line, and collects the program name comment and the
 * instruction words as the lines of a `.hex` file for the RP2040 PIO
 * emulator; the wrap and wrap-target definitions go into a closing `wrap`
 * command. The script's globals are the fields of a class, each regular
 * expression is a function that returns its first group, and the file
 * contents are a sequence of lines (each still ending in its newline, as
 * Python's file iteration yields them).
 */
module PioHex {
  import opened Wrappers
  import opened Text

  // ---------------------------------------------------------------------
  // The four patterns (src/rp2040/convert_to_emulator_hex.py:30-35)

  /** `\s` of Python's re on ASCII text. */
  predicate ReSpace(c: char)
  {
    IsSpace(c) || 0x1c <= c as int <= 0x1f
  }

  predicate IsHexDigit(c: char)
  {
    '0' <= c <= '9' || 'a' <= c <= 'f' || 'A' <= c <= 'F'
  }

  predicate AllDigits(s: string)
  {
    forall k :: 0 <= k < |s| ==> IsDigit(s[k])
  }

  /** The end of the run of non-space characters from i: where a greedy
   *  `\S+` stops. */
  function TokenEnd(s: string, i: nat): (j: nat)
    requires i <= |s|
    ensures i <= j <= |s| && (j < |s| ==> ReSpace(s[j]))
    decreases |s| - i
  {
    if i < |s| && !ReSpace(s[i]) then TokenEnd(s, i + 1) else i
  }

  /** The end of the run of ' ' from i: where ` +` stops. */
  function BlankEnd(s: string, i: nat): (j: nat)
    requires i <= |s|
    ensures i <= j <= |s| && (j < |s| ==> s[j] != ' ')
    decreases |s| - i
  {
    if i < |s| && s[i] == ' ' then BlankEnd(s, i + 1) else i
  }

  predicate StartsWith(s: string, p: string)
  {
    |p| <= |s| && s[..|p|] == p
  }

  predicate EndsWith(s: string, p: string)
  {
    |p| <= |s| && s[|s| - |p|..] == p
  }

  /** Four hex digits, `[0-9a-fA-F]` four times. */
  predicate HexWord(s: string)
  {
    |s| == 4 && forall k :: 0 <= k < 4 ==> IsHexDigit(s[k])
  }

  const PROGRAM_HEAD: string := "static const uint16_t "
  const PROGRAM_TAIL: string := "_program_instructions[]"
  const DEFINE: string := "#define "

  datatype Pattern = Program | Instruction | WrapTarget | Wrap

  /** The table `matches`, in its order. */
  const MATCHES: seq<Pattern> := [Program, Instruction, WrapTarget, Wrap]

  /**
   * `^static const uint16_t (\S+)_program_instructions\[\] = {`: the token
   * after the type must end in `_program_instructions[]` and be followed by
   * " = {"; the group is the token without that ending.
   */
  function SearchProgram(line: string): (r: Option<string>)
    ensures r.Some? ==> r.value != []
  {
    var n := |PROGRAM_HEAD|;
    if !StartsWith(line, PROGRAM_HEAD) then None
    else
      var j := TokenEnd(line, n);
      var token := line[n..j];
      if |token| > |PROGRAM_TAIL| && EndsWith(token, PROGRAM_TAIL) && StartsWith(line[j..], " = {")
      then Some(token[..|token| - |PROGRAM_TAIL|])
      else None
  }

  /** `^ +0x([0-9a-fA-F]{4}), `: the four hex digits of an instruction word. */
  function SearchInstruction(line: string): (r: Option<string>)
    ensures r.Some? ==> HexWord(r.value)
  {
    var i := BlankEnd(line, 0);
    if i == 0 || |line| < i + 8 then None
    else if line[i..i + 2] == "0x" && HexWord(line[i + 2..i + 6]) && line[i + 6..i + 8] == ", "
    then Some(line[i + 2..i + 6])
    else None
  }

  /**
   * `^#define [\S]+<suffix> (\d+)$`: a token ending in the suffix, one
   * space, and digits up to the end of the line or up to a newline that
   * ends it.
   */
  function SearchDefine(line: string, suffix: string): (r: Option<string>)
    requires suffix != []
    ensures r.Some? ==> r.value != [] && AllDigits(r.value)
  {
    var n := |DEFINE|;
    if !StartsWith(line, DEFINE) then None
    else
      var j := TokenEnd(line, n);
      var token := line[n..j];
      if |token| > |suffix| && EndsWith(token, suffix) && j < |line| && line[j] == ' '
      then EndDigits(line[j + 1..])
      else None
  }

  /** `(\d+)$`: digits up to the end, or up to a newline that ends the
   *  string. */
  function EndDigits(rest: string): (r: Option<string>)
    ensures r.Some? ==> r.value != [] && AllDigits(r.value)
  {
    var ds := if rest != [] && rest[|rest| - 1] == '\n' then rest[..|rest| - 1] else rest;
    if ds != [] && AllDigits(ds) then Some(ds) else None
  }

  /** `to_match.search(line)`, as its first group. */
  function Search(p: Pattern, line: string): (r: Option<string>)
    ensures r.Some? && (p.WrapTarget? || p.Wrap?) ==> r.value != [] && AllDigits(r.value)
  {
    match p
    case Program => SearchProgram(line)
    case Instruction => SearchInstruction(line)
    case WrapTarget => SearchDefine(line, "_wrap_target")
    case Wrap => SearchDefine(line, "_wrap")
  }

  // ---------------------------------------------------------------------
  // The callbacks and the main loop

  /** The globals prog_name, wrap_target and wrap. The wrap values are kept
   *  as the numbers int() makes of the matched digits. */
  datatype Globals = Globals(progName: string, wrapTarget: int, wrap: int)

  /** Their values when the script starts (lines 10-12). */
  const START: Globals := Globals("", -1, -1)

  /** A callback on a match (lines 14-28): the new globals and what it
   *  returns, None for a callback without a return value. */
  function Call(g: Globals, p: Pattern, group: string): (r: (Globals, Option<string>))
    requires (p.WrapTarget? || p.Wrap?) ==> AllDigits(group)
  {
    match p
    case Program => (g.(progName := group), Some("# .program " + group))
    case Instruction => (g, Some(group))
    case WrapTarget => (g.(wrapTarget := Decimal(group)), None)
    case Wrap => (g.(wrap := Decimal(group)), None)
  }

  /** What the four patterns find in one line: the first group of each,
   *  in the order of `matches`. What they find does not depend on the
   *  globals, so it is computed before the callbacks run. */
  datatype Found = Found(program: Option<string>, instruction: Option<string>,
                         wrapTarget: Option<string>, wrap: Option<string>)
  {
    function Group(p: Pattern): Option<string>
    {
      match p
      case Program => program
      case Instruction => instruction
      case WrapTarget => wrapTarget
      case Wrap => wrap
    }

    /** What the patterns can capture: four hex digits for an
     *  instruction, digits for the wrap values. */
    predicate Captured()
    {
      && (instruction.Some? ==> HexWord(instruction.value))
      && (wrapTarget.Some? ==> AllDigits(wrapTarget.value))
      && (wrap.Some? ==> AllDigits(wrap.value))
    }
  }

  function Find(line: string): (f: Found)
    ensures f.Captured()
  {
    Found(Search(Program, line), Search(Instruction, line), Search(WrapTarget, line), Search(Wrap, line))
  }

  /** The inner loop of main over the patterns from k on, for one line:
   *  each match calls its callback, and a truthy return is appended to
   *  `lines`. */
  function FeedFrom(g: Globals, f: Found, k: nat, lines: seq<string>): (r: (Globals, seq<string>))
    requires k <= |MATCHES| && f.Captured()
    decreases |MATCHES| - k
  {
    if k == |MATCHES| then (g, lines)
    else
      match f.Group(MATCHES[k])
      case None => FeedFrom(g, f, k + 1, lines)
      case Some(group) =>
        var c := Call(g, MATCHES[k], group);
        FeedFrom(c.0, f, k + 1, if c.1.Some? && c.1.value != [] then lines + [c.1.value] else lines)
  }

  /** What the patterns find in each line of the input. */
  function FindAll(input: seq<string>): (found: seq<Found>)
    ensures |found| == |input| && forall i :: 0 <= i < |found| ==> found[i] == Find(input[i])
  {
    seq(|input|, i requires 0 <= i < |input| => Find(input[i]))
  }

  predicate AllCaptured(found: seq<Found>)
  {
    forall i :: 0 <= i < |found| ==> found[i].Captured()
  }

  /** The outer loop of main over the lines of the file from i on. */
  function ConvertFrom(g: Globals, found: seq<Found>, i: nat, lines: seq<string>): (r: (Globals, seq<string>))
    requires i <= |found| && AllCaptured(found)
    decreases |found| - i
  {
    if i == |found| then (g, lines)
    else
      var f := FeedFrom(g, found[i], 0, lines);
      ConvertFrom(f.0, found, i + 1, f.1)
  }

  /** Python's hex() on an int: lower-case digits after "0x", and a minus
   *  sign in front for a negative number. */
  function Hex(n: int): (s: string)
  {
    if n < 0 then "-0x" + HexDigits(-n) else "0x" + HexDigits(n)
  }

  function HexDigits(n: nat): (s: string)
    ensures |s| > 0 && forall k :: 0 <= k < |s| ==> IsHexDigit(s[k]) && !('A' <= s[k] <= 'F')
  {
    if n < 16 then [HexChar(n)] else HexDigits(n / 16) + [HexChar(n % 16)]
  }

  function HexChar(d: nat): (c: char)
    requires d < 16
    ensures IsHexDigit(c)
  {
    if d < 10 then '0' + d as char else 'a' + (d - 10) as char
  }

  /** The closing line (line 64). */
  function WrapLine(g: Globals): string
  {
    "wrap --pio=0 --sm=0 --wrap=" + Hex(g.wrap) + " --target=" + Hex(g.wrapTarget)
  }

  // ---------------------------------------------------------------------
  // What a line does

  /** A line matches at most one pattern: the three prefixes differ in
   *  their first character, and a token cannot end both in `_wrap_target`
   *  and in `_wrap`. */
  lemma SearchExclusive(line: string)
    ensures SearchProgram(line).Some? ==> SearchInstruction(line).None? && Search(WrapTarget, line).None? && Search(Wrap, line).None?
    ensures SearchInstruction(line).Some? ==> Search(WrapTarget, line).None? && Search(Wrap, line).None?
    ensures Search(WrapTarget, line).Some? ==> Search(Wrap, line).None?
  {
    if SearchProgram(line).Some? {
      assert line[0] == line[..|PROGRAM_HEAD|][0] == 's';
    }
    if SearchInstruction(line).Some? {
      assert line[0] == ' ';
    }
    DefineEnds(line, "_wrap_target");
    DefineEnds(line, "_wrap");
  }

  /** A define line starts with '#', and its name ends in the last
   *  character of the suffix. */
  lemma DefineEnds(line: string, suffix: string)
    requires suffix != []
    ensures SearchDefine(line, suffix).Some? ==>
      && line[0] == '#' && |DEFINE| < TokenEnd(line, |DEFINE|) <= |line|
      && line[TokenEnd(line, |DEFINE|) - 1] == suffix[|suffix| - 1]
  {
    if SearchDefine(line, suffix).Some? {
      assert line[0] == line[..|DEFINE|][0];
      var j := TokenEnd(line, |DEFINE|);
      var token := line[|DEFINE|..j];
      assert token[|token| - 1] == token[|token| - |suffix|..][|suffix| - 1];
    }  }

  /** A line matches at most one pattern (SearchExclusive). */
  predicate Exclusive(f: Found)
  {
    && (f.program.Some? ==> f.instruction.None? && f.wrapTarget.None? && f.wrap.None?)
    && (f.instruction.Some? ==> f.wrapTarget.None? && f.wrap.None?)
    && (f.wrapTarget.Some? ==> f.wrap.None?)
  }

  lemma FindExclusive(line: string)
    ensures Exclusive(Find(line))
  {
    SearchExclusive(line);
  }

  /** The lines of the .hex file one input line produces: the program
   *  comment or the instruction word, or nothing. */
  function Emitted(f: Found): seq<string>
  {
    match f.program
    case Some(name) => ["# .program " + name]
    case None =>
      match f.instruction
      case Some(word) => [word]
      case None => []
  }

  /** The globals after a line: each one that a pattern matched takes its
   *  group. */
  function After(g: Globals, f: Found): Globals
    requires f.Captured()
  {
    Globals(
      match f.program case Some(name) => name case None => g.progName,
      match f.wrapTarget case Some(ds) => Decimal(ds) case None => g.wrapTarget,
      match f.wrap case Some(ds) => Decimal(ds) case None => g.wrap)
  }

  /** Trying the four patterns on a line appends what it emits and sets
   *  what it defines. */
  lemma FeedEffect(g: Globals, f: Found, lines: seq<string>)
    requires f.Captured() && Exclusive(f)
    ensures FeedFrom(g, f, 0, lines) == (After(g, f), lines + Emitted(f))
  {
    var g1 := if f.program.Some? then g.(progName := f.program.value) else g;
    var l1 := if f.program.Some? then lines + ["# .program " + f.program.value] else lines;
    assert FeedFrom(g, f, 0, lines) == FeedFrom(g1, f, 1, l1);
    var l2 := if f.instruction.Some? then l1 + [f.instruction.value] else l1;
    assert FeedFrom(g1, f, 1, l1) == FeedFrom(g1, f, 2, l2);
    var g3 := if f.wrapTarget.Some? then g1.(wrapTarget := Decimal(f.wrapTarget.value)) else g1;
    assert FeedFrom(g1, f, 2, l2) == FeedFrom(g3, f, 3, l2);
    var g4 := if f.wrap.Some? then g3.(wrap := Decimal(f.wrap.value)) else g3;
    assert FeedFrom(g3, f, 3, l2) == (g4, l2);
    if f.program.None? && f.instruction.None? {
      assert lines + [] == lines;
    }
  }

  /** A line that matches none of the patterns is dropped and changes
   *  nothing; a definition changes the globals but is not written out. */
  lemma LineDropped(g: Globals, line: string, lines: seq<string>)
    requires SearchProgram(line).None? && SearchInstruction(line).None?
    ensures FeedFrom(g, Find(line), 0, lines).1 == lines
    ensures Search(WrapTarget, line).None? && Search(Wrap, line).None? ==> FeedFrom(g, Find(line), 0, lines).0 == g
  {
    FindExclusive(line);
    FeedEffect(g, Find(line), lines);
  }

  predicate AllExclusive(found: seq<Found>)
  {
    forall i :: 0 <= i < |found| ==> Exclusive(found[i])
  }

  /** Every line of an input matches at most one pattern. */
  lemma FindAllExclusive(input: seq<string>)
    ensures AllExclusive(FindAll(input))
  {
    forall i | 0 <= i < |input|
      ensures Exclusive(FindAll(input)[i])
    {
      FindExclusive(input[i]);
    }
  }

  /** One step of main's outer loop. */
  lemma ConvertStep(g: Globals, found: seq<Found>, i: nat, lines: seq<string>)
    requires i < |found| && AllCaptured(found) && AllExclusive(found)
    ensures ConvertFrom(g, found, i, lines) == ConvertFrom(After(g, found[i]), found, i + 1, lines + Emitted(found[i]))
  {
    FeedEffect(g, found[i], lines);
  }

  /** All the lines the input produces from line i on, line after line. */
  function AllEmitted(found: seq<Found>, i: nat): seq<string>
    requires i <= |found|
    decreases |found| - i
  {
    if i == |found| then [] else Emitted(found[i]) + AllEmitted(found, i + 1)
  }

  /** The output keeps the order of the input: the .hex lines are the
   *  lines of each input line in turn, whatever the globals were. */
  lemma {:induction false} ConvertEmits(g: Globals, found: seq<Found>, i: nat, lines: seq<string>)
    requires i <= |found| && AllCaptured(found) && AllExclusive(found)
    ensures ConvertFrom(g, found, i, lines).1 == lines + AllEmitted(found, i)
    decreases |found| - i
  {
    if i == |found| {
      assert lines + [] == lines;
    } else {
      ConvertStep(g, found, i, lines);
      var e := Emitted(found[i]);
      ConvertEmits(After(g, found[i]), found, i + 1, lines + e);
      assert lines + e + AllEmitted(found, i + 1) == lines + (e + AllEmitted(found, i + 1));
    }
  }

  /** The group of p in the last line from i on that matches it. */
  function Last(found: seq<Found>, i: nat, p: Pattern): (r: Option<string>)
    requires i <= |found| && AllCaptured(found)
    ensures r.Some? && (p.WrapTarget? || p.Wrap?) ==> AllDigits(r.value)
    ensures r.Some? ==> exists k :: i <= k < |found| && found[k].Group(p) == r
    decreases |found| - i
  {
    if i == |found| then None
    else if Last(found, i + 1, p).Some? then Last(found, i + 1, p)
    else found[i].Group(p)
  }

  /** Later definitions overwrite earlier ones: after the whole input each
   *  global holds the group of the last line that set it, or what it held
   *  before. */
  lemma {:induction false} ConvertKeepsLast(g: Globals, found: seq<Found>, i: nat, lines: seq<string>)
    requires i <= |found| && AllCaptured(found) && AllExclusive(found)
    ensures var r := ConvertFrom(g, found, i, lines).0;
      && r.progName == (match Last(found, i, Program) case Some(name) => name case None => g.progName)
      && r.wrapTarget == (match Last(found, i, WrapTarget) case Some(ds) => Decimal(ds) case None => g.wrapTarget)
      && r.wrap == (match Last(found, i, Wrap) case Some(ds) => Decimal(ds) case None => g.wrap)
    decreases |found| - i
  {
    if i < |found| {
      ConvertStep(g, found, i, lines);
      ConvertKeepsLast(After(g, found[i]), found, i + 1, lines + Emitted(found[i]));
    }
  }

  /** With no wrap definitions in the file, the closing command carries
   *  hex(-1) for both values. */
  lemma UnsetWrap()
    ensures WrapLine(START) == "wrap --pio=0 --sm=0 --wrap=-0x1 --target=-0x1"
  {
    assert HexDigits(1) == "1";
  }

  // ---------------------------------------------------------------------
  // The lines pioasm writes are recognised

  /** A run of spaces that stops at a space character ends there. */
  lemma {:induction false} TokenEndAt(s: string, i: nat, j: nat)
    requires i <= j < |s| && ReSpace(s[j]) && forall k :: i <= k < j ==> !ReSpace(s[k])
    ensures TokenEnd(s, i) == j
    decreases j - i
  {
    if i < j {
      TokenEndAt(s, i + 1, j);
    }
  }

  predicate NoSpace(s: string)
  {
    forall k :: 0 <= k < |s| ==> !ReSpace(s[k])
  }

  /** The array declaration of a program names the program. */
  lemma ProgramLine(name: string, rest: string)
    requires name != [] && NoSpace(name)
    ensures SearchProgram(PROGRAM_HEAD + name + PROGRAM_TAIL + " = {" + rest) == Some(name)
  {
    var line := PROGRAM_HEAD + name + PROGRAM_TAIL + " = {" + rest;
    var n := |PROGRAM_HEAD|;
    var j := n + |name| + |PROGRAM_TAIL|;
    assert line[..n] == PROGRAM_HEAD;
    var token := name + PROGRAM_TAIL;
    assert line[n..j] == token;
    assert NoSpace(PROGRAM_TAIL);
    NoSpaceConcat(name, PROGRAM_TAIL);
    assert line[j..] == " = {" + rest;
    TokenEndAt(line, n, j);
    assert token[|token| - |PROGRAM_TAIL|..] == PROGRAM_TAIL;
    assert token[..|name|] == name;
  }

  /** Spaces followed by `0x`, four hex digits and a comma give the four
   *  digits. */
  lemma InstructionLine(blanks: string, word: string, rest: string)
    requires blanks != [] && forall k :: 0 <= k < |blanks| ==> blanks[k] == ' '
    requires HexWord(word)
    ensures SearchInstruction(blanks + "0x" + word + ", " + rest) == Some(word)
  {
    var line := blanks + "0x" + word + ", " + rest;
    var i := |blanks|;
    assert line[i] == '0';
    BlankEndAt(line, 0, i);
    assert line[i..i + 2] == "0x";
    assert line[i + 2..i + 6] == word;
    assert line[i + 6..i + 8] == ", ";
  }

  lemma {:induction false} BlankEndAt(s: string, i: nat, j: nat)
    requires i <= j < |s| && s[j] != ' ' && forall k :: i <= k < j ==> s[k] == ' '
    ensures BlankEnd(s, i) == j
    decreases j - i
  {
    if i < j {
      BlankEndAt(s, i + 1, j);
    }
  }

  /** A wrap definition as pioasm writes it, newline included, gives its
   *  number, and the callback stores that number. */
  lemma DefineLine(name: string, suffix: string, n: nat)
    requires suffix == "_wrap" || suffix == "_wrap_target"
    requires name != [] && NoSpace(name)
    ensures SearchDefine(DEFINE + name + suffix + " " + Digits(n) + "\n", suffix) == Some(Digits(n))
    ensures Decimal(Digits(n)) == n
  {
    var ds := Digits(n);
    DefineTail(name, suffix, ds + "\n");
    assert DEFINE + name + suffix + " " + ds + "\n" == DEFINE + name + suffix + " " + (ds + "\n");
    assert (ds + "\n")[..|ds|] == ds;
    DecimalDigits(n);
  }

  /** After a define of a name ending in the suffix and one space, the rest
   *  of the line decides. */
  lemma DefineTail(name: string, suffix: string, tail: string)
    requires suffix == "_wrap" || suffix == "_wrap_target"
    requires name != [] && NoSpace(name)
    ensures SearchDefine(DEFINE + name + suffix + " " + tail, suffix) == EndDigits(tail)
  {
    var line := DEFINE + name + suffix + " " + tail;
    var m := |DEFINE|;
    var j := m + |name| + |suffix|;
    var token := name + suffix;
    assert line[..m] == DEFINE;
    assert line[m..j] == token;
    assert NoSpace(suffix);
    NoSpaceConcat(name, suffix);
    assert line[j] == ' ';
    TokenEndAt(line, m, j);
    assert token[|token| - |suffix|..] == suffix;
    assert line[j + 1..] == tail;
  }

  lemma NoSpaceConcat(a: string, b: string)
    requires NoSpace(a) && NoSpace(b)
    ensures NoSpace(a + b)
  {
    forall k | 0 <= k < |a + b|
      ensures !ReSpace((a + b)[k])
    {
      if k >= |a| {
        assert (a + b)[k] == b[k - |a|];
      }
    }
  }

  /** The value of lower- or upper-case hex digits. */
  function HexValue(s: string): nat
    requires forall k :: 0 <= k < |s| ==> IsHexDigit(s[k])
  {
    if s == [] then 0 else HexValue(s[..|s| - 1]) * 16 + HexDigitValue(s[|s| - 1])
  }

  function HexDigitValue(c: char): (d: nat)
    requires IsHexDigit(c)
    ensures d < 16
  {
    if '0' <= c <= '9' then c as int - '0' as int
    else if 'a' <= c <= 'f' then c as int - 'a' as int + 10
    else c as int - 'A' as int + 10
  }

  /** hex() writes a number that reads back as itself. */
  lemma {:induction false} HexDigitsValue(n: nat)
    ensures HexValue(HexDigits(n)) == n
  {
    var s := HexDigits(n);
    if n >= 16 {
      assert s[..|s| - 1] == HexDigits(n / 16);
      HexDigitsValue(n / 16);
    } else {
      assert s[..0] == [];
    }
  }

  /** The script's globals, its callbacks and the loops of main. */
  class Script {
    var progName: string
    var wrapTarget: int
    var wrap: int

    function State(): Globals
      reads this
    {
      Globals(progName, wrapTarget, wrap)
    }

    constructor ()
      ensures State() == START
    {
      progName, wrapTarget, wrap := "", -1, -1;
    }

    /** cb_progname, cb_append, cb_wrap_target and cb_wrap (lines 14-28). */
    method Callback(p: Pattern, group: string) returns (toWrite: Option<string>)
      requires (p.WrapTarget? || p.Wrap?) ==> AllDigits(group)
      modifies this
      ensures (State(), toWrite) == Call(old(State()), p, group)
    {
      match p {
        case Program =>
          progName := group;
          toWrite := Some("# .program " + progName);
        case Instruction =>
          toWrite := Some(group);
        case WrapTarget =>
          wrapTarget := Decimal(group);
          toWrite := None;
        case Wrap =>
          wrap := Decimal(group);
          toWrite := None;
      }
    }

    /** One line of the file against every pattern in turn (lines 47-52). */
    method FeedLine(line: string, lines: seq<string>) returns (out: seq<string>)
      modifies this
      ensures (State(), out) == FeedFrom(old(State()), Find(line), 0, lines)
    {
      ghost var found := Find(line);
      out := lines;
      var k := 0;
      while k < |MATCHES|
        invariant k <= |MATCHES|
        invariant FeedFrom(State(), found, k, out) == FeedFrom(old(State()), found, 0, lines)
      {
        var search := Search(MATCHES[k], line);
        assert search == found.Group(MATCHES[k]);
        if search.Some? {
          var toWrite := Callback(MATCHES[k], search.value);
          if toWrite.Some? && toWrite.value != [] {
            out := out + [toWrite.value];
          }
        }
        k := k + 1;
      }
    }

    /**
     * main (lines 43-52, 64): the lines of the .hex file, in the order they
     * were produced, and the closing wrap command.
     */
    method Convert(input: seq<string>) returns (lines: seq<string>, wrapCommand: string)
      modifies this
      ensures (State(), lines) == ConvertFrom(old(State()), FindAll(input), 0, [])
      ensures wrapCommand == WrapLine(State())
    {
      ghost var found := FindAll(input);
      lines := [];
      var i := 0;
      while i < |input|
        invariant i <= |input|
        invariant ConvertFrom(State(), found, i, lines) == ConvertFrom(old(State()), found, 0, [])
      {
        lines := FeedLine(input[i], lines);
        i := i + 1;
      }
      wrapCommand := WrapLine(State());
    }
  }
}
