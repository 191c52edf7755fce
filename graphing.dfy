/**
 * The log reader of test_client/graphing.py. The C test client writes
 * entries "count,axis,key,value" separated by '|' into a FIFO; parse_data
 * splits what it reads into entries, checks that the counts follow each
 * other and prints each entry. The two globals it keeps between calls,
 * last_count and progres, are the fields of a class; what it prints is
 * returned as a list of events.
 */
module Graphing {
  import opened Wrappers
  import opened Text

  // ---------------------------------------------------------------------
  // Python string operations

  /** str.split(sep): the pieces between the separators, at least one. */
  function Split(s: string, sep: char): (parts: seq<string>)
    ensures |parts| >= 1
  {
    if s == [] then [""]
    else
      var rest := Split(s[1..], sep);
      if s[0] == sep then [""] + rest else [[s[0]] + rest[0]] + rest[1..]
  }

  /** sep.join(parts). */
  function Join(parts: seq<string>, sep: char): string
    requires |parts| >= 1
  {
    if |parts| == 1 then parts[0] else parts[0] + [sep] + Join(parts[1..], sep)
  }

  /** Splitting loses nothing: the pieces joined again give the string
   *  back, and no piece holds the separator. */
  lemma {:induction false} SplitJoin(s: string, sep: char)
    ensures Join(Split(s, sep), sep) == s
    ensures forall i :: 0 <= i < |Split(s, sep)| ==> sep !in Split(s, sep)[i]
  {
    if s != [] {
      SplitJoin(s[1..], sep);
      var rest := Split(s[1..], sep);
      if s[0] == sep {
        assert Split(s, sep)[1..] == rest;
        assert s == [sep] + s[1..];
      } else {
        var parts := Split(s, sep);
        assert parts[1..] == rest[1..];
        if |rest| == 1 {
          assert s == [s[0]] + rest[0];
        } else {
          assert rest[1..][1..] == rest[2..];
          assert Join(rest, sep) == rest[0] + [sep] + Join(rest[1..], sep);
          assert s == [s[0]] + Join(rest, sep);
        }
        forall i | 0 <= i < |parts|
          ensures sep !in parts[i]
        {
          if i > 0 {
            assert parts[i] == rest[i];
          }
        }
      }
    }
  }

  /** The start of s after leading NULs. */
  function NulStart(s: string): (i: nat)
    ensures i <= |s| && (i < |s| ==> s[i] != '\0')
    ensures forall k :: 0 <= k < i ==> s[k] == '\0'
  {
    if s == [] || s[0] != '\0' then 0 else 1 + NulStart(s[1..])
  }

  /** The end of s before trailing NULs. */
  function NulEnd(s: string): (j: nat)
    ensures j <= |s| && (j > 0 ==> s[j - 1] != '\0')
    ensures forall k :: j <= k < |s| ==> s[k] == '\0'
  {
    if s == [] || s[|s| - 1] != '\0' then |s| else NulEnd(s[..|s| - 1])
  }

  /** entry.strip('\x00'): the entry without the NULs at either end. */
  function StripNul(s: string): string
  {
    var i := NulStart(s);
    var j := NulEnd(s);
    if i >= j then [] else s[i..j]
  }

  /** What strip removes is NULs at the ends, and what it keeps neither
   *  starts nor ends with one. */
  lemma StripNulSlice(s: string)
    ensures var r := StripNul(s);
      && (r == [] <==> forall k :: 0 <= k < |s| ==> s[k] == '\0')
      && (r != [] ==> r[0] != '\0' && r[|r| - 1] != '\0')
      && exists i, j ::
        && 0 <= i <= j <= |s| && r == s[i..j]
        && (forall k :: 0 <= k < i ==> s[k] == '\0') && (forall k :: j <= k < |s| ==> s[k] == '\0')
  {
    var i := NulStart(s);
    var j := NulEnd(s);
    if i >= j {
      forall k | 0 <= k < |s|
        ensures s[k] == '\0'
      {
        if k >= i {
          assert k >= j;
        }
      }
      assert [] == s[i..i];
    }
  }

  /** White space int() ignores at either end. */
  function TrimSpace(s: string): (r: string)
    ensures |r| <= |s|
    ensures r != [] ==> !IsSpace(r[0]) && !IsSpace(r[|r| - 1])
    decreases |s|
  {
    if s != [] && IsSpace(s[0]) then TrimSpace(s[1..])
    else if s != [] && IsSpace(s[|s| - 1]) then TrimSpace(s[..|s| - 1])
    else s
  }

  predicate AllDigits(s: string)
  {
    forall k :: 0 <= k < |s| ==> IsDigit(s[k])
  }

  /** int(s) on a str: an optional sign and decimal digits, with white
   *  space around them; anything else raises ValueError (None). */
  function ParseInt(s: string): (r: Option<int>)
  {
    var t := TrimSpace(s);
    if t != [] && (t[0] == '-' || t[0] == '+') then
      var ds := t[1..];
      if ds != [] && AllDigits(ds) then Some(if t[0] == '-' then 0 - Decimal(ds) else Decimal(ds)) else None
    else if t != [] && AllDigits(t) then Some(Decimal(t))
    else None
  }

  /** str(n). */
  function Show(n: int): (s: string)
  {
    if n < 0 then ['-'] + Digits(-n) else Digits(n)
  }

  /** int() reads back what str() writes. */
  lemma ParseShow(n: int)
    ensures ParseInt(Show(n)) == Some(n)
  {
    var s := Show(n);
    var ds := if n < 0 then Digits(-n) else Digits(n);
    DecimalDigits(if n < 0 then -n else n);
    assert TrimSpace(s) == s;
    if n < 0 {
      assert s[1..] == ds;
    }
  }

  // ---------------------------------------------------------------------
  // parse_data

  /** What parse_data prints. */
  datatype Event =
    | OutOfOrder(last: int, count: int)
    | Gap(last: int, count: int)
    | Dot
    | Row(count: int, axis: string, key: string, value: string)

  /** The two globals: last_count and progres. */
  datatype State = State(lastCount: int, progres: int)

  /** Their values when the script starts (test_client/graphing.py:18-19). */
  const INITIAL: State := State(0, 0)

  /**
   * The sequence check of one entry with count `count`
   * (test_client/graphing.py:30-39, 43): the messages it prints and the
   * new globals.
   */
  function Check(st: State, count: int): (r: (State, seq<Event>))
    ensures r.0.lastCount == count
  {
    var (report, progres) :=
      if st.lastCount >= count then ([OutOfOrder(st.lastCount, count)], st.progres)
      else if count - st.lastCount != 1 then ([Gap(st.lastCount, count)], st.progres)
      else ([], st.progres + 1);
    if progres > 100 then (State(count, 0), report + [Dot]) else (State(count, progres), report)
  }

  /** A count not above the last is out of order, one more than a
   *  successor is a gap, and only a successor passes without complaint. */
  lemma CheckReports(st: State, count: int)
    ensures var r := Check(st, count);
      && (st.lastCount >= count <==> OutOfOrder(st.lastCount, count) in r.1)
      && (count > st.lastCount + 1 <==> Gap(st.lastCount, count) in r.1)
      && (count == st.lastCount + 1 <==> forall e :: e in r.1 ==> e == Dot)
  {
  }

  /** The progress counter stays within 0..100 between entries: it only
   *  grows by one, and is reset once it passes 100. */
  lemma CheckKeepsProgres(st: State, count: int)
    requires 0 <= st.progres <= 100
    ensures 0 <= Check(st, count).0.progres <= 100
    ensures Check(st, count).0.progres == if count == st.lastCount + 1 then (st.progres + 1) % 101 else st.progres
  {
  }

  /** From the starting globals, a first count of 1 is in sequence and a
   *  first count of 0 is out of order. */
  lemma FirstEntry()
    ensures Check(INITIAL, 1).1 == []
    ensures Check(INITIAL, 0).1 == [OutOfOrder(0, 0)]
  {
  }

  /** An entry as parse_data reads it (test_client/graphing.py:25-29):
   *  empty once its NULs are stripped, raising ValueError (fewer than four
   *  comma fields, or a count that is not an int), or its four fields. */
  datatype Item = Blank | Malformed | Record(count: int, axis: string, key: string, value: string)

  function ItemOf(raw: string): (r: Item)
    ensures r.Blank? <==> forall k :: 0 <= k < |raw| ==> raw[k] == '\0'
  {
    StripNulSlice(raw);
    var entry := StripNul(raw);
    if entry == [] then Blank
    else
      var fields := Split(entry, ',');
      if |fields| < 4 then Malformed
      else
        match ParseInt(fields[0])
        case None => Malformed
        case Some(count) => Record(count, fields[1], fields[2], fields[3])
  }

  /** The entries of a read. */
  function Items(data: string): (items: seq<Item>)
    ensures |items| == |Split(data, '|')|
  {
    var entries := Split(data, '|');
    seq(|entries|, k requires 0 <= k < |entries| => ItemOf(entries[k]))
  }

  /**
   * parse_data from entry i on, after printing `printed`: the final
   * globals, everything printed and whether a ValueError ended it. The
   * globals keep what the entries before the error set.
   */
  function Parse(items: seq<Item>, i: nat, st: State, printed: seq<Event>): (r: (State, seq<Event>, bool))
    requires i <= |items|
    ensures printed <= r.1
    decreases |items| - i
  {
    if i == |items| then (st, printed, false)
    else
      var s := Take(st, items[i]);
      if s.2 then (st, printed, true)
      else Parse(items, i + 1, s.0, printed + s.1)
  }

  /** One entry of parse_data: a blank one changes nothing, a malformed one
   *  raises, and a record is checked and printed. */
  function Take(st: State, item: Item): (r: (State, seq<Event>, bool))
    ensures r.2 <==> item.Malformed?
    ensures r.2 || item.Blank? ==> r.0 == st && r.1 == []
    ensures item.Record? ==> r.0.lastCount == item.count && |r.1| > 0 && r.1[|r.1| - 1] == Row(item.count, item.axis, item.key, item.value)
  {
    match item
    case Blank => (st, [], false)
    case Malformed => (st, [], true)
    case Record(count, axis, key, value) =>
      var c := Check(st, count);
      (c.0, c.1 + [Row(count, axis, key, value)], false)
  }

  /** Blank entries are skipped, and a malformed one ends the read with
   *  the globals as the entries before it left them. */
  lemma {:induction false} ParseStops(items: seq<Item>, i: nat, st: State, printed: seq<Event>)
    requires i <= |items|
    ensures var r := Parse(items, i, st, printed);
      r.2 <==> exists k :: i <= k < |items| && items[k].Malformed?
    decreases |items| - i
  {
    if i < |items| {
      ParseStops(items, i + 1, Take(st, items[i]).0, printed + Take(st, items[i]).1);
    }
  }

  /** Every record before the first malformed entry is printed, in order:
   *  one row per record. */
  lemma {:induction false} ParseRows(items: seq<Item>, i: nat, st: State, printed: seq<Event>)
    requires i <= |items| && forall k :: i <= k < |items| ==> !items[k].Malformed?
    ensures |Rows(Parse(items, i, st, printed).1)| == |Rows(printed)| + |Records(items[i..])|
    ensures Parse(items, i, st, printed).0.lastCount == if Records(items[i..]) == [] then st.lastCount
      else Records(items[i..])[|Records(items[i..])| - 1].count
    decreases |items| - i
  {
    if i < |items| {
      assert items[i..] == [items[i]] + items[i + 1..];
      RecordsCons(items[i], items[i + 1..]);
      var next := Take(st, items[i]).0;
      ParseRows(items, i + 1, next, printed + Take(st, items[i]).1);
      RowsAppend(printed, Take(st, items[i]).1);
      if items[i].Record? {
        var c := Check(st, items[i].count);
        var it := items[i];
        RowsAppend(c.1, [Row(it.count, it.axis, it.key, it.value)]);
        CheckPrintsNoRow(st, it.count);
      }
    }
  }

  /** The records among some entries. */
  function Records(items: seq<Item>): (rs: seq<Item>)
    ensures forall k :: 0 <= k < |rs| ==> rs[k].Record?
  {
    if items == [] then []
    else (if items[0].Record? then [items[0]] else []) + Records(items[1..])
  }

  lemma RecordsCons(item: Item, items: seq<Item>)
    ensures Records([item] + items) == (if item.Record? then [item] else []) + Records(items)
  {
    assert ([item] + items)[1..] == items;
  }

  /** The rows among some events. */
  function Rows(evs: seq<Event>): seq<Event>
  {
    if evs == [] then [] else (if evs[0].Row? then [evs[0]] else []) + Rows(evs[1..])
  }

  lemma {:induction false} RowsAppend(a: seq<Event>, b: seq<Event>)
    ensures Rows(a + b) == Rows(a) + Rows(b)
  {
    if a != [] {
      assert (a + b)[1..] == a[1..] + b;
      RowsAppend(a[1..], b);
    } else {
      assert a + b == b;
    }
  }

  lemma CheckPrintsNoRow(st: State, count: int)
    ensures Rows(Check(st, count).1) == []
  {
    var evs := Check(st, count).1;
    forall e: Event, t: seq<Event> | !e.Row?
      ensures Rows([e] + t) == Rows(t)
    {
      assert ([e] + t)[1..] == t;
    }
    if evs != [] {
      assert evs == [evs[0]] + evs[1..];
      if evs[1..] != [] {
        assert evs[1..] == [Dot] + [];
      }
    }
  }

  /** An entry "count,axis,key,value" whose fields hold no comma and which
   *  does not end in a NUL is read as a record of those fields. */
  lemma ItemOfFields(count: int, axis: string, key: string, value: string)
    requires ',' !in axis && ',' !in key && ',' !in value
    requires value == [] || value[|value| - 1] != '\0'
    ensures ItemOf(Show(count) + "," + axis + "," + key + "," + value) == Record(count, axis, key, value)
  {
    var c := Show(count);
    var s := c + "," + axis + "," + key + "," + value;
    NoComma(c, count);
    SplitFields(c, axis, key, value);
    ParseShow(count);
    assert c[0] != '\0';
    JoinedEnds(c, axis, key, value);
    StripNulKeeps(s);
    ItemOfRecord(s, [c, axis, key, value], count);
  }

  /** The joined entry starts as its first field and ends as its last. */
  lemma JoinedEnds(c: string, axis: string, key: string, value: string)
    requires c != [] && (value == [] || value[|value| - 1] != '\0')
    ensures var s := c + "," + axis + "," + key + "," + value;
      s != [] && s[0] == c[0] && s[|s| - 1] != '\0'
  {
    var s := c + "," + axis + "," + key + "," + value;
    assert s == c + ("," + axis + "," + key + "," + value);
    assert s == (c + "," + axis + "," + key + ",") + value;
  }

  lemma ItemOfRecord(raw: string, fields: seq<string>, count: int)
    requires raw != [] && StripNul(raw) == raw && Split(raw, ',') == fields
    requires |fields| >= 4 && ParseInt(fields[0]) == Some(count)
    ensures ItemOf(raw) == Record(count, fields[1], fields[2], fields[3])
  {
  }

  /** Four comma-free fields joined by commas split back into them. */
  lemma SplitFields(c: string, axis: string, key: string, value: string)
    requires ',' !in c && ',' !in axis && ',' !in key && ',' !in value
    ensures Split(c + "," + axis + "," + key + "," + value, ',') == [c, axis, key, value]
  {
    var t3 := key + [','] + value;
    var t2 := axis + [','] + t3;
    var t1 := c + [','] + t2;
    SplitNone(value);
    SplitCons(key, value);
    SplitCons(axis, t3);
    SplitCons(c, t2);
    assert c + "," + axis + "," + key + "," + value == t1;
  }

  /** strip('\x00') keeps a string that neither starts nor ends with NUL. */
  lemma StripNulKeeps(s: string)
    requires s != [] && s[0] != '\0' && s[|s| - 1] != '\0'
    ensures StripNul(s) == s
  {
    assert NulStart(s) == 0;
    assert NulEnd(s) == |s|;
  }

  lemma NoComma(s: string, n: int)
    requires s == Show(n)
    ensures ',' !in s
  {
    var ds := if n < 0 then Digits(-n) else Digits(n);
    assert forall k :: 0 <= k < |ds| ==> ds[k] != ',';
  }

  /** A string without the separator is one piece. */
  lemma {:induction false} SplitNone(s: string)
    requires ',' !in s
    ensures Split(s, ',') == [s]
  {
    if s != [] {
      SplitNone(s[1..]);
      assert [s[0]] + s[1..] == s;
    }
  }

  /** A piece without the separator, then the separator, comes off first. */
  lemma {:induction false} SplitCons(p: string, t: string)
    requires ',' !in p
    ensures Split(p + [','] + t, ',') == [p] + Split(t, ',')
  {
    if p == [] {
      assert p + [','] + t == [','] + t;
      assert ([','] + t)[1..] == t;
    } else {
      assert (p + [','] + t)[1..] == p[1..] + [','] + t;
      SplitCons(p[1..], t);
      assert [p[0]] + p[1..] == p;
    }
  }

  /** test_client/graphing.py's globals and parse_data. */
  class Reader {
    var lastCount: int
    var progres: int

    constructor ()
      ensures lastCount == 0 && progres == 0
    {
      lastCount := 0;
      progres := 0;
    }

    /**
     * parse_data (test_client/graphing.py:20-43): the events printed, and
     * whether a ValueError was raised; the globals are updated entry by
     * entry.
     */
    method ParseData(data: string) returns (events: seq<Event>, raised: bool)
      modifies this
      ensures (State(lastCount, progres), events, raised) == Parse(Items(data), 0, old(State(lastCount, progres)), [])
    {
      var entries := Split(data, '|');
      ghost var items := Items(data);
      ghost var final := Parse(items, 0, State(lastCount, progres), []);
      events, raised := [], false;
      var i := 0;
      while i < |entries|
        invariant i <= |entries| == |items|
        invariant Parse(items, i, State(lastCount, progres), events) == final
      {
        var item := ItemOf(entries[i]);
        assert item == items[i];
        var printed, stop := TakeItem(item);
        if stop {
          return events, true;
        }
        events := events + printed;
        i := i + 1;
      }
    }

    /** The body of parse_data's loop for one entry
     *  (test_client/graphing.py:26-43). */
    method TakeItem(item: Item) returns (printed: seq<Event>, stop: bool)
      modifies this
      ensures (State(lastCount, progres), printed, stop) == Take(old(State(lastCount, progres)), item)
    {
      printed, stop := [], false;
      match item {
        case Blank =>
        case Malformed =>
          stop := true;
        case Record(count, axis, key, value) =>
          printed := CheckCount(count);
          printed := printed + [Row(count, axis, key, value)];
      }
    }

    /** The sequence check of one count (test_client/graphing.py:30-39, 43):
     *  what it prints and the globals after it. */
    method CheckCount(count: int) returns (printed: seq<Event>)
      modifies this
      ensures (State(lastCount, progres), printed) == Check(old(State(lastCount, progres)), count)
    {
      printed := [];
      if lastCount >= count {
        printed := [OutOfOrder(lastCount, count)];
      } else if count - lastCount != 1 {
        printed := [Gap(lastCount, count)];
      } else {
        progres := progres + 1;
      }
      if progres > 100 {
        printed := printed + [Dot];
        progres := 0;
      }
      lastCount := count;
    }
  }
}
