/** Long.toString and Long.parseLong. */
module Decimal {
  import opened Wrappers

  const MIN_LONG: int := -0x8000_0000_0000_0000
  const MAX_LONG: int := 0x7FFF_FFFF_FFFF_FFFF

  newtype long = x: int | -0x8000_0000_0000_0000 <= x <= 0x7FFF_FFFF_FFFF_FFFF

  function DigitChar(d: int): char
    requires 0 <= d < 10
  {
    '0' + d as char
  }

  predicate IsDigit(c: char)
  {
    '0' <= c <= '9'
  }

  function Natural(n: nat): (s: string)
    ensures s != []
    ensures forall c :: c in s ==> IsDigit(c)
  {
    if n < 10 then [DigitChar(n)] else Natural(n / 10) + [DigitChar(n % 10)]
  }

  function ParseNatural(s: string): Option<int>
  {
    if s == [] then None
    else if !IsDigit(s[|s| - 1]) then None
    else
      var d := (s[|s| - 1] - '0') as int;
      if |s| == 1 then Some(d)
      else
        match ParseNatural(s[..|s| - 1])
        case None => None
        case Some(n) => Some(10 * n + d)
  }

  lemma {:induction false} NaturalRoundTrip(n: nat)
    ensures ParseNatural(Natural(n)) == Some(n)
  {
    if n >= 10 {
      NaturalRoundTrip(n / 10);
      var s := Natural(n);
      assert s[..|s| - 1] == Natural(n / 10);
    }
  }

  lemma NaturalInjective(m: nat, n: nat)
    requires Natural(m) == Natural(n)
    ensures m == n
  {
    NaturalRoundTrip(m);
    NaturalRoundTrip(n);
  }

  function Render(x: long): string
  {
    if x < 0 then "-" + Natural(-(x as int)) else Natural(x as int)
  }

  /** Numerals are decimal, the most significant digit first. */
  lemma DecimalTexts()
    ensures Natural(0) == "0" && Natural(10) == "10" && Natural(905) == "905"
    ensures Render(42) == "42" && Render(-42) == "-42"
  {
    assert Natural(9) == "9" && Natural(90) == "90" && Natural(4) == "4";
  }

  /** None stands for NumberFormatException. */
  function Parse(s: string): Option<long>
  {
    var magnitude :=
      if s != [] && (s[0] == '-' || s[0] == '+') then ParseNatural(s[1..]) else ParseNatural(s);
    match magnitude
    case None => None
    case Some(n) =>
      var x := if s[0] == '-' then -n else n;
      if MIN_LONG <= x <= MAX_LONG then Some(x as long) else None
  }

  /** parseLong undoes toString on every 64-bit value. */
  lemma ParseRender(x: long)
    ensures Parse(Render(x)) == Some(x)
  {
    var n := if x < 0 then -(x as int) else x as int;
    var s := Natural(n);
    NaturalRoundTrip(n);
    assert s[0] in s;
    assert ("-" + s)[1..] == s;
  }
}
