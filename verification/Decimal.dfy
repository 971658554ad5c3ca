/** Decimal numbers as Go's `strconv` prints and parses them. */
module Decimal {
  import opened Values

  function Digit(d: nat): char
    requires d < 10
  {
    ('0' as int + d) as char
  }

  predicate IsDigit(c: char) {
    '0' <= c <= '9'
  }

  /** `strconv.Itoa` of a natural number. */
  function Digits(n: nat): string {
    if n < 10 then [Digit(n)] else Digits(n / 10) + [Digit(n % 10)]
  }

  /** `strconv.Itoa`. */
  function Itoa(i: int): string {
    if i < 0 then "-" + Digits(-i) else Digits(i)
  }

  /** A non-empty run of digits. */
  function ParseDigits(s: string): Option<nat> {
    if |s| == 0 || !IsDigit(s[|s| - 1]) then None
    else
      var d := s[|s| - 1] as int - '0' as int;
      if |s| == 1 then Some(d)
      else
        var init := ParseDigits(s[..|s| - 1]);
        if init.None? then None else Some(10 * init.value + d)
  }

  const MAX_INT := 0x7fff_ffff_ffff_ffff
  const MIN_INT := -0x8000_0000_0000_0000

  /** `strconv.Atoi`: the number, and whether there is no error. Out of range gives the nearest int. */
  function Atoi(s: string): (int, bool) {
    var signed := |s| > 0 && (s[0] == '-' || s[0] == '+');
    match ParseDigits(if signed then s[1..] else s)
    case None => (0, false)
    case Some(n) =>
      var i: int := if signed && s[0] == '-' then 0 - n else n;
      if i > MAX_INT then (MAX_INT, false) else if i < MIN_INT then (MIN_INT, false) else (i, true)
  }

  lemma {:induction false} ParsePrinted(n: nat)
    ensures ParseDigits(Digits(n)) == Some(n)
    ensures forall c :: c in Digits(n) ==> IsDigit(c)
  {
    if n >= 10 {
      ParsePrinted(n / 10);
      assert Digits(n)[..|Digits(n)| - 1] == Digits(n / 10);
    }
  }

  /** Go's int survives printing and parsing. */
  lemma AtoiUndoesItoa(i: int)
    requires MIN_INT <= i <= MAX_INT
    ensures Atoi(Itoa(i)) == (i, true)
  {
    var n := if i < 0 then 0 - i else i;
    ParsePrinted(n);
    assert Digits(n)[0] in Digits(n);
    if i < 0 { assert Itoa(i)[1..] == Digits(n); }
  }

  lemma {:induction false} LeadingZero(s: string)
    requires ParseDigits(s).Some?
    ensures ParseDigits("0" + s) == ParseDigits(s)
  {
    var z := "0" + s;
    assert z[..|z| - 1] == "0" + s[..|s| - 1];
    if |s| > 1 { LeadingZero(s[..|s| - 1]); }
  }
}
