/**
 * Decimal text as the C test clients, the sender and the Python log reader
 * read and write it: digits, white space, and numbers rendered in base 10.
 */
module Text {
  predicate IsDigit(c: char)
  {
    '0' <= c <= '9'
  }

  /** isspace in the C locale. */
  predicate IsSpace(c: char)
  {
    c == ' ' || 9 <= c as int <= 13
  }

  /** Where a line read by fgets ends for the C test clients: the first NUL or newline, or the end. */
  function LineEnd(buf: string, i: nat): (j: nat)
    requires i <= |buf|
    ensures i <= j <= |buf| && (j < |buf| ==> buf[j] == '\0' || buf[j] == '\n')
    ensures forall k :: i <= k < j ==> buf[k] != '\0' && buf[k] != '\n'
    decreases |buf| - i
  {
    if i == |buf| || buf[i] == '\0' || buf[i] == '\n' then i else LineEnd(buf, i + 1)
  }

  /** The end of the run of digits starting at i. */
  function DigitRun(s: seq<char>, i: nat): (j: nat)
    requires i <= |s|
    ensures i <= j <= |s| && (j == |s| || !IsDigit(s[j]))
    ensures forall k :: i <= k < j ==> IsDigit(s[k])
    decreases |s| - i
  {
    if i < |s| && IsDigit(s[i]) then DigitRun(s, i + 1) else i
  }

  /** A run of digits ending at a non-digit or the end is the whole run. */
  lemma {:induction false} RunAcross(s: seq<char>, i: nat, j: nat)
    requires i <= j <= |s| && (j == |s| || !IsDigit(s[j]))
    requires forall k :: i <= k < j ==> IsDigit(s[k])
    ensures DigitRun(s, i) == j
    decreases j - i
  {
    if i < j {
      RunAcross(s, i + 1, j);
    }
  }

  /** The value of a string of decimal digits. */
  function Decimal(ds: seq<char>): nat
    requires forall k :: 0 <= k < |ds| ==> IsDigit(ds[k])
  {
    if ds == [] then 0 else Decimal(ds[..|ds| - 1]) * 10 + DigitValue(ds[|ds| - 1])
  }

  function DigitValue(c: char): (d: nat)
    requires IsDigit(c)
    ensures d < 10
  {
    c as int - '0' as int
  }

  /** The decimal rendering of a number. */
  function Digits(n: nat): (ds: seq<char>)
    ensures |ds| > 0 && forall k :: 0 <= k < |ds| ==> IsDigit(ds[k])
  {
    if n < 10 then ['0' + n as char] else Digits(n / 10) + ['0' + (n % 10) as char]
  }

  /** Reading a rendered number gives it back. */
  lemma {:induction false} DecimalDigits(n: nat)
    ensures Decimal(Digits(n)) == n
  {
    var ds := Digits(n);
    if n >= 10 {
      assert ds[..|ds| - 1] == Digits(n / 10);
      DecimalDigits(n / 10);
    } else {
      assert ds[..0] == [];
    }
  }
}
