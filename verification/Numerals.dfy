/** Numbers in plain decimal form, as JavaScript prints and reads them. */
module Numerals {

  predicate IsDigit(c: char)
  {
    '0' <= c <= '9'
  }

  function DigitOf(d: nat): char
    requires d < 10
  {
    ['0', '1', '2', '3', '4', '5', '6', '7', '8', '9'][d]
  }

  function ValueOf(c: char): nat
    requires IsDigit(c)
  {
    (c - '0') as nat
  }

  predicate AllDigits(s: string)
  {
    forall i | 0 <= i < |s| :: IsDigit(s[i])
  }

  /** n / 10^a. */
  function Decimal(n: int, a: nat): real
  {
    if a == 0 then n as real else Decimal(n, a - 1) / 10.0
  }

  lemma {:induction false} DecimalShift(n: int, a: nat)
    requires n % 10 == 0 && a > 0
    ensures Decimal(n, a) == Decimal(n / 10, a - 1)
  {
    if a == 1 {
      assert n as real == 10.0 * (n / 10) as real;
    } else {
      DecimalShift(n, a - 1);
    }
  }

  lemma {:induction false} DecimalNegated(n: int, a: nat)
    ensures Decimal(-n, a) == -Decimal(n, a)
  {
    if a > 0 {
      DecimalNegated(n, a - 1);
    }
  }

  /** The number that a string of digits denotes. */
  function Value(s: string): nat
    requires AllDigits(s)
  {
    if s == "" then 0 else 10 * Value(s[..|s| - 1]) + ValueOf(s[|s| - 1])
  }

  function Digits(n: nat): (s: string)
    ensures s != "" && AllDigits(s)
  {
    if n < 10 then [DigitOf(n)] else Digits(n / 10) + [DigitOf(n % 10)]
  }

  /** `n` with its last `a` digits behind the point. */
  function Fixed(n: nat, a: nat): (r: (string, string))
    ensures r.0 != "" && AllDigits(r.0) && AllDigits(r.1) && |r.1| == a
  {
    if a == 0 then (Digits(n), "") else (Fixed(n / 10, a - 1).0, Fixed(n / 10, a - 1).1 + [DigitOf(n % 10)])
  }

  /** The text of n / 10^a, without trailing zeros behind the point. */
  function Unsigned(n: nat, a: nat): string
  {
    if a == 0 then Digits(n)
    else if n % 10 == 0 then Unsigned(n / 10, a - 1)
    else Fixed(n, a).0 + "." + Fixed(n, a).1
  }

  function Text(n: int, a: nat): string
  {
    if n < 0 then "-" + Unsigned(-n, a) else Unsigned(n, a)
  }

  datatype Num = NaN | Num(value: real)

  /** The first '.' of a string, or its length. */
  function Point(s: string): (i: nat)
    ensures i <= |s| && (i < |s| ==> s[i] == '.') && forall j | 0 <= j < i :: s[j] != '.'
  {
    if s == "" || s[0] == '.' then 0 else 1 + Point(s[1..])
  }

  function UnsignedNumber(s: string): Num
  {
    var i := Point(s);
    var whole, part := s[..i], if i < |s| then s[i + 1..] else "";
    if AllDigits(whole) && AllDigits(part) && whole + part != "" then
      Num(Decimal(Value(whole + part), |part|))
    else NaN
  }

  /** `+text`, for decimal numerals; the empty string counts as 0. */
  function ToNumber(s: string): Num
  {
    if s == "" then Num(0.0)
    else if s[0] == '-' then
      var r := UnsignedNumber(s[1..]);
      if r.NaN? then NaN else Num(-r.value)
    else UnsignedNumber(if s[0] == '+' then s[1..] else s)
  }

  lemma AppendedDigit(s: string, d: nat)
    requires AllDigits(s) && d < 10
    ensures AllDigits(s + [DigitOf(d)]) && Value(s + [DigitOf(d)]) == 10 * Value(s) + d
  {
    assert (s + [DigitOf(d)])[..|s|] == s;
  }

  lemma {:induction false} DigitsValue(n: nat)
    ensures Value(Digits(n)) == n
  {
    if n < 10 {
      AppendedDigit("", n);
      assert Digits(n) == "" + [DigitOf(n)];
    } else {
      DigitsValue(n / 10);
      AppendedDigit(Digits(n / 10), n % 10);
    }
  }

  lemma {:induction false} FixedValue(n: nat, a: nat)
    ensures Value(Fixed(n, a).0 + Fixed(n, a).1) == n
  {
    if a == 0 {
      DigitsValue(n);
      assert Digits(n) + "" == Digits(n);
    } else {
      FixedValue(n / 10, a - 1);
      var t := Fixed(n / 10, a - 1).0 + Fixed(n / 10, a - 1).1;
      AppendedDigit(t, n % 10);
      assert Fixed(n, a).0 + Fixed(n, a).1 == t + [DigitOf(n % 10)];
    }
  }

  /** `s` is a numeral without a sign, and denotes `x`. */
  predicate Denotes(s: string, x: real)
  {
    UnsignedNumber(s) == Num(x) && IsNumeral(s) && IsDigit(s[0])
  }

  lemma WholeNumber(s: string)
    requires AllDigits(s) && s != ""
    ensures Denotes(s, Decimal(Value(s), 0))
  {
    assert Point(s) == |s|;
    assert s[..|s|] + "" == s;
  }

  lemma PointedNumber(whole: string, part: string)
    requires AllDigits(whole) && AllDigits(part) && whole != "" && part != ""
    ensures Denotes(whole + "." + part, Decimal(Value(whole + part), |part|))
  {
    var s, i := whole + "." + part, |whole|;
    assert s[i] == '.' && forall j | 0 <= j < i :: IsDigit(s[j]);
    assert Point(s) == i;
    assert s[..i] == whole && s[i + 1..] == part;
  }

  lemma DigitsDenote(n: nat)
    ensures Denotes(Digits(n), Decimal(n, 0))
  {
    DigitsValue(n);
    WholeNumber(Digits(n));
  }

  lemma FixedDenotes(n: nat, a: nat)
    requires a > 0
    ensures Denotes(Fixed(n, a).0 + "." + Fixed(n, a).1, Decimal(n, a))
  {
    FixedValue(n, a);
    PointedNumber(Fixed(n, a).0, Fixed(n, a).1);
  }

  /** Reading back what was printed gives the number that was printed. */
  lemma {:induction false} UnsignedRoundTrip(n: nat, a: nat)
    ensures Denotes(Unsigned(n, a), Decimal(n, a))
  {
    if a == 0 {
      DigitsDenote(n);
    } else if n % 10 == 0 {
      UnsignedRoundTrip(n / 10, a - 1);
      DecimalShift(n, a);
    } else {
      FixedDenotes(n, a);
    }
  }

  /** What the printed numbers look like: no letters, spaces or commas, and a digit at the end. */
  predicate IsNumeral(s: string)
  {
    && s != "" && IsDigit(s[|s| - 1]) && (IsDigit(s[0]) || s[0] == '-')
    && forall i | 0 <= i < |s| :: IsDigit(s[i]) || s[i] == '.' || s[i] == '-'
  }

  lemma TextRoundTrip(n: int, a: nat)
    ensures ToNumber(Text(n, a)) == Num(Decimal(n, a))
    ensures IsNumeral(Text(n, a)) && (IsDigit(Text(n, a)[0]) <==> n >= 0)
  {
    var m := if n < 0 then -n else n;
    UnsignedRoundTrip(m, a);
    Signed(Unsigned(m, a), Decimal(m, a));
    DecimalNegated(m, a);
  }

  /** No zero leads, but for one alone. */
  predicate Plain(whole: string)
  {
    whole == "0" || (whole != "" && whole[0] != '0')
  }

  lemma {:induction false} DigitsPlain(n: nat)
    ensures Plain(Digits(n)) && (Digits(n) == "0" <==> n == 0)
  {
    if n >= 10 {
      DigitsPlain(n / 10);
    }
  }

  lemma {:induction false} FixedPlain(n: nat, a: nat)
    ensures Plain(Fixed(n, a).0) && (a > 0 && n % 10 != 0 ==> Fixed(n, a).1[a - 1] != '0')
  {
    if a == 0 {
      DigitsPlain(n);
    } else {
      FixedPlain(n / 10, a - 1);
    }
  }

  /** The text has no zero more than it needs: none leads but for one alone in front of the point, and none stands at
      the end behind it. With `TextRoundTrip` there is only one such text for each number. */
  lemma {:induction false} UnsignedPlain(n: nat, a: nat)
    ensures var s := Unsigned(n, a);
      && Plain(s[..Point(s)]) && (Point(s) < |s| ==> Point(s) + 1 < |s| && s[|s| - 1] != '0')
  {
    var s := Unsigned(n, a);
    if a == 0 {
      DigitsPlain(n);
      assert Point(s) == |s| && s[..|s|] == s;
    } else if n % 10 == 0 {
      UnsignedPlain(n / 10, a - 1);
    } else {
      FixedPlain(n, a);
      var (whole, part) := Fixed(n, a);
      assert s == whole + "." + part && s[|whole|] == '.' && forall j | 0 <= j < |whole| :: IsDigit(s[j]);
      assert Point(s) == |whole| && s[..|whole|] == whole && s[|s| - 1] == part[a - 1];
    }
  }

  /** A numeral is read as `x`, with a minus sign as its opposite, and with a plus sign as `x`, too. */
  predicate IsRead(s: string, x: real)
  {
    ToNumber(s) == Num(x) && ToNumber("-" + s) == Num(-x) && ToNumber("+" + s) == Num(x)
  }

  lemma SignRead(c: char, s: string)
    requires c == '-' || c == '+'
    ensures ToNumber([c] + s) ==
            if c == '-' && UnsignedNumber(s).Num? then Num(-UnsignedNumber(s).value) else UnsignedNumber(s)
    ensures IsNumeral(s) ==> IsNumeral("-" + s)
  {
    assert ([c] + s)[1..] == s;
  }

  lemma Signed(s: string, x: real)
    ensures Denotes(s, x) ==> IsRead(s, x) && IsNumeral("-" + s)
  {
    if Denotes(s, x) {
      SignRead('-', s);
      SignRead('+', s);
    }
  }

  function Pointed(whole: string, part: string): string
  {
    if part == "" then whole else whole + "." + part
  }

  lemma PointedDenotes(whole: string, part: string)
    requires AllDigits(whole) && AllDigits(part) && whole != ""
    ensures Denotes(Pointed(whole, part), Decimal(Value(whole + part), |part|))
  {
    if part == "" {
      assert whole + part == whole;
      WholeNumber(whole);
    } else {
      PointedNumber(whole, part);
    }
  }

  /** How numerals are read, with a part behind the point or none, and with either sign or none. */
  lemma ReadNumeral(whole: string, part: string)
    requires AllDigits(whole) && AllDigits(part) && whole != ""
    ensures IsRead(Pointed(whole, part), Decimal(Value(whole + part), |part|))
  {
    PointedDenotes(whole, part);
    Signed(Pointed(whole, part), Decimal(Value(whole + part), |part|));
  }
}
