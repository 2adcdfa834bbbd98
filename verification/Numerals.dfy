/** The numerals of machine integers: what is printed, and exactly what is accepted. */
module Numerals {
  import opened Wrappers
  import opened Decimal

  ghost predicate AllDigits(s: string) {
    forall i :: 0 <= i < |s| ==> IsDigit(s[i])
  }

  function Unsigned(s: string): string {
    if s != "" && (s[0] == '-' || s[0] == '+') then s[1..] else s
  }

  lemma {:induction false} DigitsOfValue(s: string)
    requires s != "" && AllDigits(s) && (s[0] == '0' ==> |s| == 1)
    ensures Digits(Value(s)) == s && (s[0] != '0' ==> Value(s) > 0)
  {
    var front, last := s[..|s| - 1], DigitValue(s[|s| - 1]);
    assert s == front + [Digit(last)];
    if front == "" {
      assert Value(s) == last;
    } else {
      DigitsOfValue(front);
      assert Value(s) / 10 == Value(front) && Value(s) % 10 == last;
    }
  }

  /** A numeral as it is printed: no plus sign, no leading zeros, no negative zero. */
  ghost predicate Canonical(s: string) {
    s == "0" || (s != "" && s[0] != '+' && Unsigned(s) != "" && Unsigned(s)[0] != '0')
  }

  /** Only digits behind an optional sign are a number, and it is their value with that sign. */
  lemma AtoiReads(s: string)
    requires Atoi(s).Some?
    ensures s != "" && Unsigned(s) != "" && AllDigits(Unsigned(s))
    ensures Atoi(s).value == if s[0] == '-' then 0 - Value(Unsigned(s)) else Value(Unsigned(s))
  {
    assert Signed(s[0] == '-', Unsigned(s)).Some?;
  }

  lemma AtoiInRange(s: string)
    requires Atoi(s).Some?
    ensures -0x8000_0000_0000_0000 <= Atoi(s).value <= 0x7FFF_FFFF_FFFF_FFFF
  {
    AtoiReads(s);
  }

  /** Printing inverts parsing on such numerals. */
  lemma ItoaInvertsAtoi(s: string, n: int)
    requires Canonical(s) && Atoi(s) == Some(n)
    ensures Itoa(n) == s
  {
    AtoiReads(s);
    CanonicalIs(s, n, Unsigned(s));
  }

  lemma CanonicalIs(s: string, n: int, body: string)
    requires body != "" && AllDigits(body) && (body[0] == '0' ==> |body| == 1)
    requires (s == body && n == Value(body)) || (s == "-" + body && body[0] != '0' && n == 0 - Value(body))
    ensures Itoa(n) == s
  {
    DigitsOfValue(body);
  }

  /** Numerals are written in base ten, the highest digit first. */
  lemma NumeralsWritten()
    ensures Itoa(0) == "0" && Itoa(9) == "9" && Itoa(12) == "12" && Itoa(305) == "305" && Itoa(-47) == "-47"
  {
    assert Digits(1) == "1" && Digits(3) == "3" && Digits(4) == "4";
    assert Digits(30) == "30";
  }
}
