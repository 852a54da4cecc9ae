/** Decimal rendering of 64-bit ids, as Go's strconv.FormatInt(id, 10) does it. */
module Decimal {

  function Digit(d: int): (c: char)
    requires 0 <= d < 10
    ensures '0' <= c <= '9' && c as int - '0' as int == d
  {
    (d + '0' as int) as char
  }

  function Digits(n: nat): (s: string)
    ensures |s| > 0
    ensures forall c | c in s :: '0' <= c <= '9'
  {
    if n < 10 then [Digit(n)] else Digits(n / 10) + [Digit(n % 10)]
  }

  function FormatInt(n: int): (s: string)
    ensures |s| > 0
  {
    if n < 0 then "-" + Digits(-n) else Digits(n)
  }

  /** The number a string of digits stands for. */
  function Value(s: string): int {
    if s == [] then 0 else 10 * Value(s[..|s| - 1]) + (s[|s| - 1] as int - '0' as int)
  }

  function ParseInt(s: string): int {
    if s != [] && s[0] == '-' then -Value(s[1..]) else Value(s)
  }

  lemma {:induction false} DigitsValue(n: nat)
    ensures Value(Digits(n)) == n
  {
    if n < 10 {
      assert Digits(n)[..0] == [];
    } else {
      var s := Digits(n);
      assert s[..|s| - 1] == Digits(n / 10);
      DigitsValue(n / 10);
    }
  }

  /** The string of a positive number: digits, the first of them not zero. */
  predicate IsPositiveNumeral(s: string) {
    s != [] && s[0] != '0' && forall c | c in s :: '0' <= c <= '9'
  }

  /** The only ways to write a number: no leading zero, no sign but that of a negative number. */
  predicate IsNumeral(s: string) {
    s == "0" || IsPositiveNumeral(s) || (s != [] && s[0] == '-' && IsPositiveNumeral(s[1..]))
  }

  lemma {:induction false} DigitsPositive(n: nat)
    requires n > 0
    ensures IsPositiveNumeral(Digits(n))
  {
    if n >= 10 {
      DigitsPositive(n / 10);
      assert Digits(n)[0] == Digits(n / 10)[0];
    }
  }

  /** One more digit at the end. */
  lemma DigitAppended(s: string, c: char)
    requires '0' <= c <= '9'
    ensures Value(s + [c]) == 10 * Value(s) + (c as int - '0' as int)
    ensures Value(s) > 0 ==> Digits(Value(s + [c])) == Digits(Value(s)) + [c]
  {
    assert (s + [c])[..|s|] == s;
  }

  lemma {:induction false} PositiveDigits(s: string)
    requires IsPositiveNumeral(s)
    ensures Value(s) > 0 && Digits(Value(s)) == s
  {
    var init, last := s[..|s| - 1], s[|s| - 1];
    assert last in s && s == init + [last];
    DigitAppended(init, last);
    if init == [] {
      assert s[0] == last;
    } else {
      assert init[0] == s[0] && forall c | c in init :: c in s;
      PositiveDigits(init);
    }
  }

  /** An id renders to a numeral that reads back as the id. */
  lemma FormatParse(n: int)
    ensures IsNumeral(FormatInt(n)) && ParseInt(FormatInt(n)) == n
  {
    if n == 0 {
      DigitsValue(0);
      assert Digits(0) == "0";
    } else {
      var m := if n < 0 then -n else n;
      DigitsPositive(m);
      DigitsValue(m);
      assert n < 0 ==> FormatInt(n)[1..] == Digits(m);
      assert n > 0 ==> FormatInt(n)[0] in Digits(m);
    }
  }

  lemma NumeralRendered(s: string)
    requires IsNumeral(s)
    ensures FormatInt(ParseInt(s)) == s
  {
    if s == "0" {
      assert s[..0] == [];
    } else if s[0] == '-' {
      assert s[0] in s;
      PositiveDigits(s[1..]);
      assert s == "-" + s[1..];
    } else {
      PositiveDigits(s);
    }
  }

  /** An id is rendered as its one numeral, and as nothing else. */
  lemma FormatIff(s: string, n: int)
    ensures s == FormatInt(n) <==> IsNumeral(s) && ParseInt(s) == n
  {
    FormatParse(n);
    if IsNumeral(s) {
      NumeralRendered(s);
    }
  }

  /** Two ids never render to the same string. */
  lemma FormatInjective(m: int, n: int)
    requires FormatInt(m) == FormatInt(n)
    ensures m == n
  {
    FormatParse(m);
    FormatParse(n);
  }
}
