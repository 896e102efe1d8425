/** String helpers shared by the generator and the emitted code: ASCII case
    mapping, Go's `strings.Trim(s, " ")`, `%q` rendering of plain identifiers,
    decimal rendering of placeholder numbers, and the comma-separated lists
    that the emitted code builds by writing `item,` repeatedly and then
    truncating the buffer by one character. */
module Text {

  /** `unicode.ToUpper` restricted to ASCII. */
  function UpperChar(c: char): char {
    if 'a' <= c <= 'z' then (c as int - 32) as char else c
  }

  /** `unicode.ToLower` restricted to ASCII. */
  function LowerChar(c: char): char {
    if 'A' <= c <= 'Z' then (c as int + 32) as char else c
  }

  /** `strings.ToUpper` restricted to ASCII. */
  function Upper(s: string): (r: string)
    ensures |r| == |s|
    ensures forall i :: 0 <= i < |s| ==> r[i] == UpperChar(s[i])
  {
    seq(|s|, i requires 0 <= i < |s| => UpperChar(s[i]))
  }

  function TrimLeftSpaces(s: string): (r: string)
    ensures |r| <= |s|
    ensures r == s[|s| - |r|..]
    ensures |r| > 0 ==> r[0] != ' '
  {
    if |s| > 0 && s[0] == ' ' then TrimLeftSpaces(s[1..]) else s
  }

  function TrimRightSpaces(s: string): (r: string)
    ensures |r| <= |s|
    ensures r == s[..|r|]
    ensures |r| > 0 ==> r[|r| - 1] != ' '
  {
    if |s| > 0 && s[|s| - 1] == ' ' then TrimRightSpaces(s[..|s| - 1]) else s
  }

  /** `strings.Trim(s, " ")`: removes every leading and trailing space. */
  function TrimSpaces(s: string): string {
    TrimRightSpaces(TrimLeftSpaces(s))
  }

  /** Go's `%q` applied to an identifier without quotes, backslashes or
      control characters: the identifier between double quotes. */
  function Quote(s: string): string {
    "\"" + s + "\""
  }

  function Repeat(s: string, n: nat): (r: string)
    ensures |r| == n * |s|
  {
    if n == 0 then "" else s + Repeat(s, n - 1)
  }

  /** The buffer contents after writing `item,` for every item. */
  function Terminated(items: seq<string>): string {
    if |items| == 0 then "" else items[0] + "," + Terminated(items[1..])
  }

  /** The items separated by commas, with no trailing comma. */
  function JoinCommas(items: seq<string>): string {
    if |items| == 0 then ""
    else if |items| == 1 then items[0]
    else items[0] + "," + JoinCommas(items[1..])
  }

  /** `buf.Truncate(buf.Len() - 1)`: drops the last character written. */
  function DropLast(s: string): string
    requires |s| > 0
  {
    s[..|s| - 1]
  }

  lemma {:induction false} TerminatedIsJoinPlusComma(items: seq<string>)
    requires |items| > 0
    ensures Terminated(items) == JoinCommas(items) + ","
  {
    if |items| > 1 {
      TerminatedIsJoinPlusComma(items[1..]);
    }
  }

  /** Writing `item,` for each of a non-empty list and truncating once leaves
      exactly the comma-joined list after the prefix. */
  lemma TruncatedListIsJoin(prefix: string, items: seq<string>)
    requires |items| > 0
    ensures |prefix + Terminated(items)| > 0
    ensures DropLast(prefix + Terminated(items)) == prefix + JoinCommas(items)
  {
    TerminatedIsJoinPlusComma(items);
    assert prefix + Terminated(items) == (prefix + JoinCommas(items)) + ",";
  }

  /** With an empty list the truncation eats the last character of the prefix. */
  lemma TruncatedEmptyListEatsPrefix(prefix: string)
    requires |prefix| > 0
    ensures DropLast(prefix + Terminated([])) == prefix[..|prefix| - 1]
  {
  }

  predicate IsDigit(c: char) {
    '0' <= c <= '9'
  }

  function DigitChar(d: nat): (c: char)
    requires d < 10
    ensures IsDigit(c)
  {
    ('0' as int + d) as char
  }

  /** `fmt.Sprintf("%d", n)` for a natural number. */
  function Decimal(n: nat): (r: string)
    ensures |r| > 0
    ensures forall i :: 0 <= i < |r| ==> IsDigit(r[i])
  {
    if n < 10 then [DigitChar(n)] else Decimal(n / 10) + [DigitChar(n % 10)]
  }

  /** The value of a string of decimal digits, most significant first. */
  function DigitsValue(s: string): nat
    requires forall i :: 0 <= i < |s| ==> IsDigit(s[i])
  {
    if |s| == 0 then 0
    else
      assert IsDigit(s[|s| - 1]);
      DigitsValue(s[..|s| - 1]) * 10 + (s[|s| - 1] as int - '0' as int)
  }

  lemma {:induction false} DecimalRoundTrip(n: nat)
    ensures DigitsValue(Decimal(n)) == n
  {
    if n >= 10 {
      var d := Decimal(n / 10);
      DecimalRoundTrip(n / 10);
      assert (d + [DigitChar(n % 10)])[..|d|] == d;
    }
  }

  /** Distinct numbers render as distinct decimal strings, so placeholders
      `$1 .. $n` never collide. */
  lemma DecimalInjective(a: nat, b: nat)
    requires Decimal(a) == Decimal(b)
    ensures a == b
  {
    DecimalRoundTrip(a);
    DecimalRoundTrip(b);
  }

  /** The positional placeholder `$n`. */
  function Placeholder(n: nat): string {
    "$" + Decimal(n)
  }
}
