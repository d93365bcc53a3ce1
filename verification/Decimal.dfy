/** Decimal text of integers: Python's `str(n)` and `int(text)`. */
module Decimal {
  import opened Text
  import opened Wrappers

  /** `str(n)` for a non-negative integer. */
  function Print(n: nat): string {
    if n < 10 then [DigitChar(n)] else Print(n / 10) + [DigitChar(n % 10)]
  }

  function DigitChar(d: nat): char
    requires d < 10
  {
    '0' + d as char
  }

  predicate IsDigit(c: char) {
    '0' <= c <= '9'
  }

  function DigitValue(c: char): nat
    requires IsDigit(c)
  {
    c as int - '0' as int
  }

  /** Digits, with single underscores allowed between them. */
  function ParseDigits(s: string): Option<nat> {
    if s == "" || !IsDigit(s[|s| - 1]) then None
    else
      var d := DigitValue(s[|s| - 1]);
      var front := s[..|s| - 1];
      if front == "" then Some(d)
      else
        var front' := if front[|front| - 1] == '_' then front[..|front| - 1] else front;
        match ParseDigits(front')
        case None => None
        case Some(v) => Some(10 * v + d)
  }

  /** `int(text)`: surrounding blanks, one sign, digits. `None` stands for the ValueError. */
  function ParseInt(text: string): Option<int> {
    var s := Strip(text);
    var signed := s != "" && (s[0] == '-' || s[0] == '+');
    var magnitude := ParseDigits(if signed then s[1..] else s);
    if magnitude.None? then None
    else
      var value: int := magnitude.value;
      Some(if signed && s[0] == '-' then -value else value)
  }

  lemma {:induction false} ParseDigitsOfPrint(n: nat)
    ensures |Print(n)| > 0
    ensures forall c :: c in Print(n) ==> IsDigit(c)
    ensures ParseDigits(Print(n)) == Some(n)
  {
    if n < 10 {
    } else {
      ParseDigitsOfPrint(n / 10);
      var front := Print(n / 10);
      assert Print(n)[..|Print(n)| - 1] == front;
      assert front[|front| - 1] in front;
    }
  }

  /** `int(str(n)) == n` */
  lemma ParseOfPrint(n: nat)
    ensures ParseInt(Print(n)) == Some(n)
  {
    ParseDigitsOfPrint(n);
    var s := Print(n);
    assert IsDigit(s[0]) && IsDigit(s[|s| - 1]) by {
      assert s[0] in s && s[|s| - 1] in s;
    }
    StripNothing(s);
  }

  /** Different numbers print differently. */
  lemma PrintIsInjective(m: nat, n: nat)
    requires Print(m) == Print(n)
    ensures m == n
  {
    ParseOfPrint(m);
    ParseOfPrint(n);
  }
}
