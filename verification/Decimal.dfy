/** Decimal text of natural numbers, as `strconv` writes and reads it. */
module Decimal {
  import opened Words

  function Digit(d: int): char
    requires 0 <= d < 10
  {
    ('0' as int + d) as char
  }

  predicate IsDigit(c: char) {
    '0' <= c <= '9'
  }

  predicate AllDigits(s: string) {
    forall i :: 0 <= i < |s| ==> IsDigit(s[i])
  }

  /** The decimal text of a number, without leading zeros. */
  function Format(n: nat): string {
    if n < 10 then [Digit(n)] else Format(n / 10) + [Digit(n % 10)]
  }

  /** The value of a run of digits. */
  function Value(s: string): nat
    requires AllDigits(s)
  {
    if s == [] then 0
    else Value(s[..|s| - 1]) * 10 + (s[|s| - 1] as int - '0' as int)
  }

  /** Reading a signed 64-bit number: an optional sign, then digits, then a range check. */
  function ParseInt64(s: string): Option<int> {
    var signed := |s| > 0 && (s[0] == '-' || s[0] == '+');
    var digits := if signed then s[1..] else s;
    if digits == [] || !AllDigits(digits) then None
    else
      var magnitude: int := Value(digits);
      var v := if signed && s[0] == '-' then -magnitude else magnitude;
      if -TWO_63 <= v < TWO_63 then Some(v) else None
  }

  lemma {:induction false} FormatIsRead(n: nat)
    ensures Format(n) != [] && AllDigits(Format(n)) && Value(Format(n)) == n
  {
    if n < 10 {
      assert Format(n)[..0] == [];
      assert Value(Format(n)[..0]) == 0;
    } else {
      FormatIsRead(n / 10);
      assert Format(n)[..|Format(n)| - 1] == Format(n / 10);
    }
  }

  lemma FormatInjective(a: nat, b: nat)
    requires Format(a) == Format(b)
    ensures a == b
  {
    FormatIsRead(a);
    FormatIsRead(b);
  }

  /** The text of a number: its digit if it has one, otherwise the text of its tens followed by its last digit. */
  lemma FormatMeans(n: nat)
    ensures n < 10 ==> Format(n) == ["0123456789"[n]]
    ensures n >= 10 ==> Format(n) == Format(n / 10) + ["0123456789"[n % 10]]
  {
  }

  /** What a signed or unsigned text stands for, if the value is in range. */
  lemma ParseMeans(n: nat)
    ensures ParseInt64(Format(n)) == (if n < TWO_63 then Some(n) else None)
  {
    FormatIsRead(n);
    assert IsDigit(Format(n)[0]);
  }

  lemma ParseSigned(n: int, s: string)
    requires n >= 0 && |s| > 0 && s[1..] == Format(n)
    ensures s[0] == '+' && n < TWO_63 ==> ParseInt64(s) == Some(n)
    ensures s[0] == '-' && n <= TWO_63 ==> ParseInt64(s) == Some(-n)
    ensures (s[0] == '+' && n >= TWO_63) || (s[0] == '-' && n > TWO_63) ==> ParseInt64(s) == None
  {
    FormatIsRead(n);
  }

  /** A text with anything but digits behind its sign is refused. */
  lemma ParseRefuses(s: string, k: nat)
    requires k < |s| && s[k] !in "0123456789" && (k == 0 ==> s[0] != '+' && s[0] != '-')
    ensures ParseInt64(s) == None
  {
    assert !IsDigit(s[k]);
    assert k > 0 ==> s[1..][k - 1] == s[k];
  }

  /** A formatted id in the `int64` range is read back unchanged. */
  lemma ParseUndoesFormat(n: nat)
    requires n < TWO_63
    ensures ParseInt64(Format(n)) == Some(n)
  {
    FormatIsRead(n);
    assert IsDigit(Format(n)[0]);
  }
}
