/** Votes and the decimal timestamps they carry. */
module Votes {
  import opened Wrappers

  /** A vote as received from a vote-listing site. Every field is text; the
      timestamp is a decimal number written as a string. */
  datatype Vote = Vote(serviceName: string, username: string, address: string, timeStamp: string)

  /** Range of a Java `long`. */
  const MinLong: int := -0x8000_0000_0000_0000
  const MaxLong: int := 0x7fff_ffff_ffff_ffff

  predicate IsDigit(c: char) {
    '0' <= c <= '9'
  }

  predicate AllDigits(s: string) {
    forall i :: 0 <= i < |s| ==> IsDigit(s[i])
  }

  function DigitValue(c: char): (d: nat)
    requires IsDigit(c)
    ensures d < 10
  {
    (c as int) - ('0' as int)
  }

  function DigitChar(d: nat): (c: char)
    requires d < 10
    ensures IsDigit(c) && DigitValue(c) == d
  {
    (('0' as int) + d) as char
  }

  /** The value of a string of decimal digits, most significant first. */
  function DigitsValue(s: string): nat
    requires AllDigits(s)
    decreases |s|
  {
    if |s| == 0 then 0 else 10 * DigitsValue(s[..|s| - 1]) + DigitValue(s[|s| - 1])
  }

  /** `Long.parseLong(s)`: an optional '+' or '-', then one or more decimal
      digits, and a value that fits in a `long`; anything else is a
      NumberFormatException, modelled as `None`. */
  function ParseLong(s: string): (r: Option<int>)
    ensures r.Some? ==> MinLong <= r.value <= MaxLong
    ensures r.Some? ==> |s| > 0 && (IsDigit(s[0]) || s[0] == '-' || s[0] == '+')
  {
    if |s| == 0 then None
    else
      var digits := if s[0] == '-' || s[0] == '+' then s[1..] else s;
      if |digits| == 0 || !AllDigits(digits) then None
      else
        var n: int := if s[0] == '-' then -(DigitsValue(digits) as int) else DigitsValue(digits);
        if MinLong <= n <= MaxLong then Some(n) else None
  }

  /** The shortest decimal representation of a natural number. */
  function Decimal(n: nat): (s: string)
    ensures |s| > 0 && AllDigits(s)
    decreases n
  {
    if n < 10 then [DigitChar(n)] else Decimal(n / 10) + [DigitChar(n % 10)]
  }

  /** A `long` written as `Long.toString` writes it. */
  function FormatLong(n: int): string {
    if n < 0 then "-" + Decimal(-n) else Decimal(n)
  }

  lemma {:induction false} DecimalValue(n: nat)
    ensures DigitsValue(Decimal(n)) == n
    decreases n
  {
    if n >= 10 {
      var s := Decimal(n);
      assert s[..|s| - 1] == Decimal(n / 10);
      DecimalValue(n / 10);
    }
  }

  /** Every `long` written in decimal is read back by `ParseLong`. */
  lemma ParseFormatLong(n: int)
    requires MinLong <= n <= MaxLong
    ensures ParseLong(FormatLong(n)) == Some(n)
  {
    var s := FormatLong(n);
    if n < 0 {
      var d := Decimal(-n);
      assert s == "-" + d;
      assert s[0] == '-' && s[1..] == d;
      DecimalValue(-n);
      assert -(DigitsValue(d) as int) == n;
    } else {
      var d := Decimal(n);
      assert s == d && IsDigit(s[0]);
      DecimalValue(n);
    }
  }

  /** A vote whose timestamp `Long.parseLong` accepts. */
  predicate NumericTimestamp(v: Vote) {
    ParseLong(v.timeStamp).Some?
  }

  predicate AllNumericTimestamps(votes: seq<Vote>) {
    forall i :: 0 <= i < |votes| ==> NumericTimestamp(votes[i])
  }

  /** The sort key of a vote: its parsed timestamp. Only used on votes whose
      timestamps parse; the fallback 0 is never observed. */
  function Timestamp(v: Vote): int {
    match ParseLong(v.timeStamp)
    case Some(n) => n
    case None => 0
  }
}
