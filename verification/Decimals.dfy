/** Numbers in decimal, as `toString` and template strings print them. */
module Decimals {
  import opened Characters

  function Digit(n: nat): (c: char)
    requires n < 10
    ensures IsDigit(c) && c as int == n + 48
  {
    (n + 48) as char
  }

  predicate AllDigits(d: string) {
    forall i | 0 <= i < |d| :: IsDigit(d[i])
  }

  function Digits(n: nat): (d: string)
    ensures d != "" && AllDigits(d)
    ensures d[0] == '0' ==> n == 0
  {
    if n < 10 then [Digit(n)] else Digits(n / 10) + [Digit(n % 10)]
  }

  function DigitValue(c: char): nat {
    if IsDigit(c) then c as int - 48 else 0
  }

  function Value(d: string): nat {
    if d == "" then 0 else 10 * Value(d[..|d| - 1]) + DigitValue(d[|d| - 1])
  }

  lemma {:induction false} ValueOfDigits(n: nat)
    ensures Value(Digits(n)) == n
  {
    if n < 10 {
    } else {
      ValueOfDigits(n / 10);
      assert Digits(n)[..|Digits(n)| - 1] == Digits(n / 10);
    }
  }

  lemma DigitsDiffer(m: nat, n: nat)
    requires Digits(m) == Digits(n)
    ensures m == n
  {
    ValueOfDigits(m);
    ValueOfDigits(n);
  }

  function Printed(n: int): (s: string)
    ensures s != ""
  {
    if n < 0 then "-" + Digits(-n) else Digits(n)
  }

  /** The integer that digits, perhaps after a minus sign, stand for. */
  function Parsed(s: string): int {
    if s != "" && s[0] == '-' then 0 - Value(s[1..]) else Value(s)
  }

  lemma ParsedPrinted(n: int)
    ensures Parsed(Printed(n)) == n
  {
    if n < 0 {
      ValueOfDigits(-n);
      assert Printed(n)[1..] == Digits(-n);
    } else {
      ValueOfDigits(n);
      assert IsDigit(Digits(n)[0]);
    }
  }
}
