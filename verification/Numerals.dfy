/** Decimal numerals: `str(n)`, `s.isdigit()` and `int(s)` on ASCII digits. */
module Numerals {

  predicate IsDigit(c: char) {
    '0' <= c <= '9'
  }

  /** `s.isdigit()`. */
  predicate IsDigits(s: string) {
    s != "" && forall c :: c in s ==> IsDigit(c)
  }

  /** `int(s)`. */
  function NumberOf(s: string): nat
    requires forall c :: c in s ==> IsDigit(c)
  {
    if s == "" then 0
    else
      assert IsDigit(s[|s| - 1]);
      10 * NumberOf(s[..|s| - 1]) + (s[|s| - 1] as int - '0' as int)
  }

  /** `str(n)`. */
  function Digits(n: nat): string {
    if n < 10 then [(n as char) + '0'] else Digits(n / 10) + [((n % 10) as char) + '0']
  }

  /** Reading a printed number gives it back. */
  lemma {:induction false} DigitsRead(n: nat)
    ensures IsDigits(Digits(n)) && NumberOf(Digits(n)) == n
  {
    var s := Digits(n);
    if n < 10 {
      assert s[..|s| - 1] == "";
    } else {
      DigitsRead(n / 10);
      assert s[..|s| - 1] == Digits(n / 10);
    }
  }
}
