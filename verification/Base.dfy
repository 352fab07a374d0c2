/** Values shared by every layer: optional values, instants, and decimal text. */
module Base {

  datatype Option<+T> = None | Some(value: T)

  datatype Result<+T, +E> = Ok(value: T) | Err(error: E)

  /** An instant or a duration in nanoseconds; instants count from the Unix epoch. */
  type Time = int

  const SECOND: Time := 1_000_000_000

  /** Go's zero `time.Time`: midnight on 1 January of year 1. */
  const ZERO_TIME: Time := -62_135_596_800 * SECOND

  /** What a time becomes when it is stored as whole epoch seconds and read back. */
  function ToSecond(t: Time): (r: Time)
    ensures r <= t < r + SECOND
    ensures r % SECOND == 0
  {
    t / SECOND * SECOND
  }

  lemma ToSecondMonotone(a: Time, b: Time)
    requires a <= b
    ensures ToSecond(a) <= ToSecond(b)
  {
  }

  function OptToSecond(t: Option<Time>): Option<Time> {
    match t
    case None => None
    case Some(v) => Some(ToSecond(v))
  }

  // ----- decimal text (strconv.FormatInt and fmt's %d) -----

  function DigitChar(d: nat): (c: char)
    requires d < 10
    ensures '0' <= c <= '9'
  {
    ('0' as int + d) as char
  }

  function NatText(n: nat): (s: string)
    ensures |s| > 0
    ensures forall i :: 0 <= i < |s| ==> '0' <= s[i] <= '9'
  {
    if n < 10 then [DigitChar(n)] else NatText(n / 10) + [DigitChar(n % 10)]
  }

  function IntText(n: int): (s: string)
    ensures |s| > 0
    ensures forall i :: 0 <= i < |s| ==> s[i] == '-' || '0' <= s[i] <= '9'
  {
    if n < 0 then "-" + NatText(-n) else NatText(n)
  }

  ghost function DigitsValue(s: string): int {
    if s == "" then 0 else 10 * DigitsValue(s[..|s| - 1]) + (s[|s| - 1] as int - '0' as int)
  }

  lemma {:induction false} NatTextValue(n: nat)
    ensures DigitsValue(NatText(n)) == n
  {
    var s := NatText(n);
    if n < 10 {
      assert s[..|s| - 1] == "";
    } else {
      NatTextValue(n / 10);
      assert s[..|s| - 1] == NatText(n / 10);
    }
  }

  ghost function IntTextValue(s: string): int {
    if |s| > 0 && s[0] == '-' then -DigitsValue(s[1..]) else DigitsValue(s)
  }

  lemma IntTextReadBack(n: int)
    ensures IntTextValue(IntText(n)) == n
  {
    var s := IntText(n);
    if n < 0 {
      NatTextValue(-n);
      assert s[1..] == NatText(-n);
    } else {
      NatTextValue(n);
      assert s[0] != '-';
    }
  }

  /** Decimal text identifies the number. */
  lemma IntTextInjective(a: int, b: int)
    requires IntText(a) == IntText(b)
    ensures a == b
  {
    IntTextReadBack(a);
    IntTextReadBack(b);
  }

  function Before(s: string, sep: char): string {
    if s == "" || s[0] == sep then "" else [s[0]] + Before(s[1..], sep)
  }

  lemma {:induction false} BeforeSeparator(a: string, x: string, sep: char)
    requires sep !in a
    ensures Before(a + [sep] + x, sep) == a
  {
    var s := a + [sep] + x;
    if a != "" {
      assert s[1..] == a[1..] + [sep] + x;
      BeforeSeparator(a[1..], x, sep);
    }
  }

  /** Text cut at the first separator has one reading. */
  lemma SplitAtSeparator(a: string, x: string, b: string, y: string, sep: char)
    requires a + [sep] + x == b + [sep] + y
    requires sep !in a && sep !in b
    ensures a == b && x == y
  {
    BeforeSeparator(a, x, sep);
    BeforeSeparator(b, y, sep);
    assert x == (a + [sep] + x)[|a| + 1..];
    assert y == (b + [sep] + y)[|b| + 1..];
  }
}
