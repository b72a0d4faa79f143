/** `strconv.FormatInt(n, 10)` and `strconv.ParseInt(s, 10, 64)`. */
module Decimal {
  import opened Common

  const MIN_INT64: int := -0x8000_0000_0000_0000
  const MAX_INT64: int := 0x7fff_ffff_ffff_ffff

  function DigitChar(d: nat): char
    requires d < 10
  {
    ('0' as int + d) as char
  }

  function DigitValue(c: char): Option<nat> {
    if '0' <= c <= '9' then Some(c as int - '0' as int) else None
  }

  function Digits(n: nat): (s: string)
    ensures s != ""
  {
    if n < 10 then [DigitChar(n)] else Digits(n / 10) + [DigitChar(n % 10)]
  }

  function Format(n: int): string {
    if n < 0 then "-" + Digits(-n) else Digits(n)
  }

  /** The value of a non-empty string of digits. */
  function Natural(s: string): Option<nat> {
    if s == "" then None
    else
      var d := DigitValue(s[|s| - 1]);
      if d.None? then None
      else if |s| == 1 then d
      else
        var front := Natural(s[..|s| - 1]);
        if front.None? then None else Some(10 * front.value + d.value)
  }

  function Parse(s: string): Option<int> {
    if s == "" then None
    else
      var signed := s[0] == '-' || s[0] == '+';
      var n := Natural(if signed then s[1..] else s);
      if n.None? then None
      else
        var v: int := if s[0] == '-' then -(n.value as int) else n.value;
        if MIN_INT64 <= v <= MAX_INT64 then Some(v) else None
  }

  lemma {:induction false} DigitsRoundTrip(n: nat)
    ensures Natural(Digits(n)) == Some(n)
    ensures forall i | 0 <= i < |Digits(n)| :: '0' <= Digits(n)[i] <= '9'
  {
    if n >= 10 {
      DigitsRoundTrip(n / 10);
      var s := Digits(n);
      assert s[..|s| - 1] == Digits(n / 10) && s[|s| - 1] == DigitChar(n % 10);
    }
  }

  /** Parsing reads back every 64-bit number that was printed. */
  lemma {:induction false} RoundTrip(n: int)
    requires MIN_INT64 <= n <= MAX_INT64
    ensures Parse(Format(n)) == Some(n)
    ensures ':' !in Format(n)
  {
    DigitsRoundTrip(if n < 0 then -n else n);
    if n < 0 {
      assert Format(n)[1..] == Digits(-n);
    }
  }
}
