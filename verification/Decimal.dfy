/** Canonical decimal numerals and the integer parser of the host language. */
module Decimal {
  import opened Common

  predicate IsDigit(c: char) { '0' <= c <= '9' }

  predicate Digits(s: string) {
    forall i :: 0 <= i < |s| ==> IsDigit(s[i])
  }

  function DigitChar(d: nat): (c: char)
    requires d < 10
    ensures IsDigit(c) && DigitValue(c) == d
  {
    ['0', '1', '2', '3', '4', '5', '6', '7', '8', '9'][d]
  }

  function DigitValue(c: char): (d: nat)
    requires IsDigit(c)
    ensures d < 10
  {
    c as int - '0' as int
  }

  /** The decimal numeral, no leading zeros. */
  function Dec(n: nat): (s: string)
    ensures s != [] && Digits(s)
    ensures |s| > 1 ==> s[0] != '0'
  {
    if n < 10 then [DigitChar(n)] else Dec(n / 10) + [DigitChar(n % 10)]
  }

  /** The number a digit string denotes. */
  function Value(s: string): nat
    requires Digits(s)
  {
    if s == [] then 0 else Value(s[..|s| - 1]) * 10 + DigitValue(s[|s| - 1])
  }

  lemma {:induction false} ValueOfDec(n: nat)
    ensures Value(Dec(n)) == n
  {
    if n < 10 {
      assert Dec(n)[..0] == [];
    } else {
      ValueOfDec(n / 10);
      assert Dec(n)[..|Dec(n)| - 1] == Dec(n / 10);
    }
  }

  lemma DecInjective(m: nat, n: nat)
    requires Dec(m) == Dec(n)
    ensures m == n
  {
    ValueOfDec(m);
    ValueOfDec(n);
  }

  /** The host language's unsigned parser: an optional plus sign, at least one digit, a value within range. */
  function ParseUnsigned(s: string, max: nat): Option<nat> {
    var body := if |s| > 1 && s[0] == '+' then s[1..] else s;
    if body == [] || !Digits(body) || Value(body) > max then None else Some(Value(body))
  }

  lemma ParseOfDec(n: nat, max: nat)
    requires n <= max
    ensures ParseUnsigned(Dec(n), max) == Some(n)
  {
    ValueOfDec(n);
    assert IsDigit(Dec(n)[0]);
  }

  // ---- what the unsigned parser accepts ------------------------------------------------------------------------

  function ZeroDigits(k: nat): (s: string)
    ensures |s| == k && Digits(s)
  {
    if k == 0 then "" else ZeroDigits(k - 1) + "0"
  }

  /** The numeral with zeros before it and a plus sign before those. */
  function Padded(n: nat, zeros: nat, plus: bool): string {
    (if plus then "+" else "") + (ZeroDigits(zeros) + Dec(n))
  }

  ghost predicate Numeral(s: string, n: nat) {
    exists zeros: nat, plus: bool :: s == Padded(n, zeros, plus)
  }

  lemma ValueSnoc(s: string, c: char)
    requires Digits(s) && IsDigit(c)
    ensures Digits(s + [c]) && Value(s + [c]) == 10 * Value(s) + DigitValue(c)
  {
    assert (s + [c])[..|s|] == s;
  }

  lemma DigitBack(c: char)
    requires IsDigit(c)
    ensures Dec(DigitValue(c)) == [c]
  {
  }

  lemma DecSnoc(n: nat, d: nat)
    requires n > 0 && d < 10
    ensures Dec(10 * n + d) == Dec(n) + Dec(d)
  {
    assert (10 * n + d) / 10 == n && (10 * n + d) % 10 == d;
  }

  /** One more digit behind a padded numeral. */
  lemma PaddedSnoc(n: nat, zeros: nat, c: char)
    requires IsDigit(c)
    ensures ZeroDigits(zeros) + Dec(n) + [c]
         == ZeroDigits(if n == 0 then zeros + 1 else zeros) + Dec(10 * n + DigitValue(c))
  {
    DigitBack(c);
    if n > 0 {
      DecSnoc(n, DigitValue(c));
    } else {
      assert Dec(0) == "0" && ZeroDigits(zeros + 1) == ZeroDigits(zeros) + "0";
    }
  }

  /** Every digit string is the numeral of its value behind zeros. */
  lemma {:induction false} DigitsArePadded(s: string) returns (zeros: nat)
    requires s != "" && Digits(s)
    ensures s == ZeroDigits(zeros) + Dec(Value(s))
    decreases |s|
  {
    hide ZeroDigits, Dec, Value, DigitValue;
    var front, c := s[..|s| - 1], s[|s| - 1];
    assert s == front + [c];
    ValueSnoc(front, c);
    if front == "" {
      zeros := OneDigit(c);
    } else {
      zeros := DigitsArePadded(front);
      PaddedSnoc(Value(front), zeros, c);
      zeros := if Value(front) == 0 then zeros + 1 else zeros;
    }
  }

  lemma OneDigit(c: char) returns (zeros: nat)
    requires IsDigit(c)
    ensures [c] == ZeroDigits(zeros) + Dec(Value([c]))
  {
    zeros := 0;
    DigitBack(c);
    ValueSnoc("", c);
  }

  lemma {:induction false} PaddedValue(n: nat, zeros: nat)
    ensures Digits(ZeroDigits(zeros) + Dec(n)) && Value(ZeroDigits(zeros) + Dec(n)) == n
    decreases n
  {
    if n < 10 {
      assert Dec(n) == [DigitChar(n)];
      ZerosAreNothing(zeros);
      ValueSnoc(ZeroDigits(zeros), DigitChar(n));
    } else {
      PaddedValue(n / 10, zeros);
      ValueSnoc(ZeroDigits(zeros) + Dec(n / 10), DigitChar(n % 10));
      assert ZeroDigits(zeros) + Dec(n) == ZeroDigits(zeros) + Dec(n / 10) + [DigitChar(n % 10)];
    }
  }

  lemma {:induction false} ZerosAreNothing(zeros: nat)
    ensures Value(ZeroDigits(zeros)) == 0
  {
    if zeros > 0 {
      ZerosAreNothing(zeros - 1);
      ValueSnoc(ZeroDigits(zeros - 1), '0');
    }
  }

  /** The parser accepts exactly the numerals within range, whatever zeros and plus sign come first. */
  lemma ParsesIff(s: string, max: nat, n: nat)
    ensures ParseUnsigned(s, max) == Some(n) <==> n <= max && Numeral(s, n)
  {
    if ParseUnsigned(s, max) == Some(n) {
      ReadIsNumeral(s, max, n);
    }
    if n <= max && Numeral(s, n) {
      var zeros: nat, plus: bool :| s == Padded(n, zeros, plus);
      NumeralReads(n, zeros, plus, max);
    }
  }

  lemma ReadIsNumeral(s: string, max: nat, n: nat)
    requires ParseUnsigned(s, max) == Some(n)
    ensures Numeral(s, n)
  {
    hide ZeroDigits, Dec, Value;
    var plus := |s| > 1 && s[0] == '+';
    var zeros := DigitsArePadded(if plus then s[1..] else s);
    assert s == Padded(n, zeros, plus);
  }

  lemma NumeralReads(n: nat, zeros: nat, plus: bool, max: nat)
    requires n <= max
    ensures ParseUnsigned(Padded(n, zeros, plus), max) == Some(n)
  {
    hide ZeroDigits, Dec, Value;
    var digits := ZeroDigits(zeros) + Dec(n);
    PaddedValue(n, zeros);
    assert IsDigit(digits[0]);
    assert plus ==> Padded(n, zeros, plus)[1..] == digits;
    assert !plus ==> Padded(n, zeros, plus) == digits;
  }
}
