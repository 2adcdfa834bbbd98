/** Decimal printing and parsing of machine integers. */
module Decimal {
  import opened Wrappers

  const MAX_INT := 0x7FFF_FFFF_FFFF_FFFF

  predicate IsDigit(c: char) {
    '0' <= c <= '9'
  }

  function Digit(d: nat): char
    requires d < 10
  {
    (d + '0' as int) as char
  }

  function DigitValue(c: char): (d: nat)
    requires IsDigit(c)
    ensures d < 10 && Digit(d) == c
  {
    c as int - '0' as int
  }

  function Digits(n: nat): (s: string)
    ensures s != "" && forall i :: 0 <= i < |s| ==> IsDigit(s[i])
  {
    (if n < 10 then "" else Digits(n / 10)) + [Digit(n % 10)]
  }

  function Itoa(n: int): string {
    if n < 0 then "-" + Digits(-n) else Digits(n)
  }

  function Value(s: string): nat
    requires forall i :: 0 <= i < |s| ==> IsDigit(s[i])
  {
    if s == "" then 0 else Value(s[..|s| - 1]) * 10 + DigitValue(s[|s| - 1])
  }

  /** At least one digit, and with the sign a 64-bit integer. */
  function Signed(negative: bool, body: string): Option<int> {
    if body == "" || exists i :: 0 <= i < |body| && !IsDigit(body[i]) then None
    else if negative then (if Value(body) <= MAX_INT + 1 then Some(0 - Value(body)) else None)
    else if Value(body) <= MAX_INT then Some(Value(body)) else None
  }

  /** A number with an optional sign. */
  function Atoi(s: string): Option<int> {
    Signed(s != "" && s[0] == '-', if s != "" && (s[0] == '-' || s[0] == '+') then s[1..] else s)
  }

  lemma {:induction false} ValueOfDigits(n: nat)
    ensures Value(Digits(n)) == n
  {
    var s := Digits(n);
    if n >= 10 {
      ValueOfDigits(n / 10);
      assert s[..|s| - 1] == Digits(n / 10);
    } else {
      assert s[..|s| - 1] == "";
    }
  }

  /** Parsing inverts printing over the whole range of the machine integer. */
  lemma AtoiInvertsItoa(n: int)
    requires -MAX_INT - 1 <= n <= MAX_INT
    ensures Atoi(Itoa(n)) == Some(n)
  {
    var m := if n < 0 then -n else n;
    ValueOfDigits(m);
    if n < 0 {
      assert Itoa(n)[1..] == Digits(m);
    }
  }
}
