/** Whole numbers as text. */
module Decimal {

  /** strconv.Itoa */
  function Itoa(n: int): string
    decreases if n < 0 then 1 - n else n
  {
    if n < 0 then "-" + Itoa(-n)
    else if n < 10 then [Digit(n)]
    else Itoa(n / 10) + [Digit(n % 10)]
  }

  function Digit(n: int): char
    requires 0 <= n < 10
  {
    ('0' as int + n) as char
  }

  ghost predicate Digits(s: string) {
    forall i :: 0 <= i < |s| ==> '0' <= s[i] <= '9'
  }

  lemma {:induction false} ItoaDigits(n: nat)
    ensures Itoa(n) != "" && Digits(Itoa(n))
    ensures |Itoa(n)| == 1 <==> n < 10
  {
    if n >= 10 {
      ItoaDigits(n / 10);
    }
  }

  lemma {:induction false} ItoaInjective(x: nat, y: nat)
    requires Itoa(x) == Itoa(y)
    ensures x == y
  {
    ItoaDigits(x);
    ItoaDigits(y);
    var s := Itoa(x);
    if x >= 10 {
      assert Itoa(x / 10) == s[..|s| - 1] == Itoa(y / 10);
      ItoaInjective(x / 10, y / 10);
      assert s[|s| - 1] == Digit(x % 10) == Digit(y % 10);
    } else {
      assert s[0] == Digit(x) == Digit(y);
    }
  }
}
