/** Positional numerals. */
module Numerals {
  function Digit(c: char): nat {
    if '0' <= c <= '9' then c as int - '0' as int
    else if 'a' <= c <= 'z' then c as int - 'a' as int + 10
    else if 'A' <= c <= 'Z' then c as int - 'A' as int + 10
    else 36
  }

  predicate IsNumeral(radix: nat, s: string) {
    s != "" && forall i :: 0 <= i < |s| ==> Digit(s[i]) < radix
  }

  function Value(radix: nat, s: string): nat {
    if s == "" then 0 else Value(radix, s[..|s| - 1]) * radix + Digit(s[|s| - 1])
  }

  /** A decimal numeral without superfluous zeros in front. */
  predicate IsCanonical(s: string) {
    IsNumeral(10, s) && (|s| > 1 ==> s[0] != '0')
  }

  function DigitChar(d: nat): char
    requires d < 10
  {
    ('0' as int + d) as char
  }

  function Decimal(n: nat): (s: string)
    ensures IsCanonical(s) && (n > 0 ==> s[0] != '0')
  {
    if n < 10 then [DigitChar(n)] else Decimal(n / 10) + [DigitChar(n % 10)]
  }

  function Decimals(values: seq<nat>): (parts: seq<string>)
    ensures |parts| == |values| && forall i :: 0 <= i < |values| ==> parts[i] == Decimal(values[i])
  {
    seq(|values|, i requires 0 <= i < |values| => Decimal(values[i]))
  }

  lemma DecimalIsDotless(n: nat)
    ensures '.' !in Decimal(n) && '\0' !in Decimal(n)
  {
    var s := Decimal(n);
    forall i | 0 <= i < |s| ensures s[i] != '.' && s[i] != '\0' {
      assert Digit(s[i]) < 10;
    }
  }

  lemma {:induction false} ValueOfDecimal(n: nat)
    ensures Value(10, Decimal(n)) == n
  {
    var s := Decimal(n);
    if n < 10 {
      assert s[..|s| - 1] == "";
    } else {
      ValueOfDecimal(n / 10);
      assert s[..|s| - 1] == Decimal(n / 10);
    }
  }

  lemma {:induction false} ValuePositive(s: string)
    requires IsCanonical(s) && s[0] != '0'
    ensures Value(10, s) > 0
  {
    if |s| > 1 {
      ValuePositive(s[..|s| - 1]);
    }
  }

  /** Reading and printing a canonical numeral gives it back. */
  lemma {:induction false} DecimalOfValue(s: string)
    requires IsCanonical(s)
    ensures Decimal(Value(10, s)) == s
  {
    var front, last := s[..|s| - 1], s[|s| - 1];
    assert s == front + [last];
    if front == "" {
      assert s == [last] && Value(10, s) == Digit(last);
    } else {
      DecimalOfValue(front);
      ValuePositive(front);
      assert Value(10, s) / 10 == Value(10, front) && Value(10, s) % 10 == Digit(last);
    }
  }

  lemma {:induction false} ValueBounded(radix: nat, s: string)
    requires radix >= 1 && (s == "" || IsNumeral(radix, s))
    ensures Value(radix, s) < Power(radix, |s|)
  {
    if s != "" {
      var front := Value(radix, s[..|s| - 1]);
      ValueBounded(radix, s[..|s| - 1]);
      Widen(front, Digit(s[|s| - 1]), radix, Power(radix, |s| - 1));
    }
  }

  lemma Widen(front: nat, digit: nat, radix: nat, bound: nat)
    requires front < bound && digit < radix
    ensures front * radix + digit < bound * radix
  {
    var gap: nat := bound - front - 1;
    assert bound * radix == front * radix + gap * radix + radix;
  }

  function Power(base: nat, n: nat): (p: nat)
    ensures base >= 1 ==> p >= 1
  {
    if n == 0 then 1 else Power(base, n - 1) * base
  }

  // ---- what a numeral means ------------------------------------------------------------------

  /** `s` is written with the digits `digits`, letters in either case. */
  ghost predicate Spells(s: string, digits: seq<nat>) {
    && |s| == |digits|
    && forall i :: 0 <= i < |s| ==>
         digits[i] < 16 && s[i] in {"0123456789abcdef"[digits[i]], "0123456789ABCDEF"[digits[i]]}
  }

  /** The sum of the digits, each times the power of its place. */
  ghost function PlaceValue(radix: nat, digits: seq<nat>): nat {
    if digits == [] then 0
    else digits[0] * Power(radix, |digits| - 1) + PlaceValue(radix, digits[1..])
  }

  ghost predicate AllBelow(digits: seq<nat>, radix: nat) {
    forall i :: 0 <= i < |digits| ==> digits[i] < radix
  }

  lemma Scaled(digit: nat, power: nat, rest: nat, radix: nat, last: nat)
    ensures (digit * power + rest) * radix + last == digit * (power * radix) + (rest * radix + last)
  {
  }

  lemma {:induction false} PlaceValueLast(radix: nat, digits: seq<nat>)
    requires digits != []
    ensures PlaceValue(radix, digits) == PlaceValue(radix, digits[..|digits| - 1]) * radix + digits[|digits| - 1]
  {
    var front, last := digits[..|digits| - 1], digits[|digits| - 1];
    if |digits| == 1 {
      assert digits[1..] == [] && front == [];
      assert PlaceValue(radix, digits) == digits[0] * Power(radix, 0);
    } else {
      PlaceValueLast(radix, digits[1..]);
      assert digits[1..][..|digits| - 2] == front[1..];
      Scaled(digits[0], Power(radix, |digits| - 2), PlaceValue(radix, front[1..]), radix, last);
    }
  }

  lemma DigitIs(c: char, d: nat)
    requires d < 16
    ensures c in {"0123456789abcdef"[d], "0123456789ABCDEF"[d]} <==> Digit(c) == d
  {
    assert "0123456789abcdef"[d] == if d < 10 then ('0' as int + d) as char else ('a' as int + d - 10) as char;
    assert "0123456789ABCDEF"[d] == if d < 10 then ('0' as int + d) as char else ('A' as int + d - 10) as char;
  }

  /** A numeral is read digit by digit, and its value is the positional one. */
  lemma {:induction false} SpelledIsRead(radix: nat, s: string, digits: seq<nat>)
    requires 1 <= radix <= 16 && Spells(s, digits)
    ensures IsNumeral(radix, s) <==> s != "" && AllBelow(digits, radix)
    ensures Value(radix, s) == PlaceValue(radix, digits)
  {
    forall i | 0 <= i < |s| ensures Digit(s[i]) == digits[i] {
      DigitIs(s[i], digits[i]);
    }
    if s != "" {
      SpelledIsRead(radix, s[..|s| - 1], digits[..|s| - 1]);
      PlaceValueLast(radix, digits);
    }
  }

  ghost predicate SpelledIn(radix: nat, s: string) {
    s != "" && exists digits :: Spells(s, digits) && AllBelow(digits, radix)
  }

  /** And nothing else is a numeral. */
  lemma NumeralIsSpelled(radix: nat, s: string)
    requires 1 <= radix <= 16
    ensures IsNumeral(radix, s) <==> SpelledIn(radix, s)
  {
    if IsNumeral(radix, s) {
      var digits := seq(|s|, i requires 0 <= i < |s| => Digit(s[i]));
      forall i | 0 <= i < |s| ensures s[i] in {"0123456789abcdef"[digits[i]], "0123456789ABCDEF"[digits[i]]} {
        DigitIs(s[i], digits[i]);
      }
      assert Spells(s, digits) && AllBelow(digits, radix);
    } else if SpelledIn(radix, s) {
      var digits :| Spells(s, digits) && AllBelow(digits, radix);
      SpelledIsRead(radix, s, digits);
    }
  }
}
