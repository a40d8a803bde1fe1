/** Numerals in positional notation, and the parser that formatting must invert. */
module Numerals {
  import opened Options

  const HEX_DIGITS := "0123456789ABCDEF"

  function HexDigit(d: nat): char
    requires d < 16
  {
    HEX_DIGITS[d]
  }

  /** The value of a digit, or -1. */
  function DigitOf(c: char): (d: int)
    ensures -1 <= d < 16
  {
    if '0' <= c <= '9' then c as int - '0' as int
    else if 'A' <= c <= 'F' then c as int - 'A' as int + 10
    else -1
  }

  /** Digits are spelled 0 to 9 and A to F. */
  lemma DigitsSpelled(d: nat)
    requires d < 16
    ensures HexDigit(d) as int == if d < 10 then '0' as int + d else 'A' as int + (d - 10)
  {
  }

  lemma DigitOfHex(d: nat)
    requires d < 16
    ensures DigitOf(HexDigit(d)) == d
    ensures HexDigit(d) == '0' <==> d == 0
    ensures HexDigit(d) != '-'
  {
  }

  lemma HexOfDigit(c: char)
    requires DigitOf(c) >= 0
    ensures HexDigit(DigitOf(c)) == c
  {
  }

  /** The numeral of n, most significant digit first. */
  function Digits(n: nat, base: nat): (s: string)
    requires 2 <= base <= 16
    ensures |s| > 0
  {
    if n < base then [HexDigit(n)] else Digits(n / base, base) + [HexDigit(n % base)]
  }

  /** The value of a string of digits. */
  function Value(s: string, base: nat): nat
    requires 2 <= base <= 16 && AreDigits(s, base)
  {
    if s == [] then 0 else Value(s[..|s| - 1], base) * base + DigitOf(s[|s| - 1])
  }

  predicate AreDigits(s: string, base: nat) {
    forall i :: 0 <= i < |s| ==> 0 <= DigitOf(s[i]) < base
  }

  /** Digits without a superfluous zero in front. */
  predicate IsNumeral(s: string, base: nat) {
    |s| > 0 && AreDigits(s, base) && (s[0] == '0' ==> |s| == 1)
  }

  /** Appending a digit to a numeral other than zero. */
  lemma AppendDigit(high: string, d: nat, base: nat)
    requires 2 <= base <= 16 && d < base && IsNumeral(high, base) && high[0] != '0'
    ensures var s := high + [HexDigit(d)];
            IsNumeral(s, base) && Value(s, base) == Value(high, base) * base + d && s[0] == high[0]
  {
    var s := high + [HexDigit(d)];
    DigitOfHex(d);
    assert s[..|s| - 1] == high;
  }

  lemma OneDigit(d: nat, base: nat)
    requires 2 <= base <= 16 && d < base
    ensures var s := [HexDigit(d)]; IsNumeral(s, base) && Value(s, base) == d && (s[0] == '0' <==> d == 0)
  {
    var s := [HexDigit(d)];
    DigitOfHex(d);
    assert s[..0] == [];
    assert Value(s[..0], base) == 0;
  }

  lemma {:induction false} DigitsParse(n: nat, base: nat)
    requires 2 <= base <= 16
    ensures IsNumeral(Digits(n, base), base) && Value(Digits(n, base), base) == n
    ensures Digits(n, base)[0] == '0' <==> n == 0
  {
    hide Value, IsNumeral, AreDigits, DigitOf;
    assert n == n / base * base + n % base;
    if n < base {
      OneDigit(n, base);
    } else {
      DigitsParse(n / base, base);
      AppendDigit(Digits(n / base, base), n % base, base);
    }
  }

  lemma FrontOfNumeral(s: string, base: nat)
    requires 2 <= base <= 16 && IsNumeral(s, base)
    ensures var high, last := s[..|s| - 1], DigitOf(s[|s| - 1]);
            && 0 <= last < base && AreDigits(high, base) && Value(s, base) == Value(high, base) * base + last
            && HexDigit(last) == s[|s| - 1]
            && (high != [] ==> IsNumeral(high, base) && high != "0")
            && (high == [] ==> Value(high, base) == 0)
  {
    HexOfDigit(s[|s| - 1]);
  }

  lemma {:induction false} ParseDigits(s: string, base: nat)
    requires 2 <= base <= 16 && IsNumeral(s, base)
    ensures Digits(Value(s, base), base) == s
    ensures s != "0" ==> Value(s, base) > 0
    decreases |s|
  {
    FrontOfNumeral(s, base);
    hide IsNumeral, AreDigits, Value;
    var high, last := s[..|s| - 1], DigitOf(s[|s| - 1]);
    assert s == high + [s[|s| - 1]];
    if high != [] {
      ParseDigits(high, base);
      DivideStep(Value(high, base), last, base);
    }
  }

  lemma TimesGrows(k: nat, x: int, y: int)
    requires x <= y
    ensures k * x <= k * y
  {
    assert k * (y - x) >= 0;
  }

  /** Division with remainder is unique. */
  lemma DivideStep(high: nat, low: nat, base: nat)
    requires low < base
    ensures (high * base + low) / base == high && (high * base + low) % base == low
    ensures high > 0 ==> high * base + low >= base
  {
    var n := high * base + low;
    var q := n / base;
    assert n == base * q + n % base;
    if q < high {
      TimesGrows(base, q + 1, high);
    } else if q > high {
      TimesGrows(base, high + 1, q);
    }
    if high > 0 {
      TimesGrows(base, 1, high);
    }
  }

  function Power(base: nat, k: nat): nat {
    if k == 0 then 1 else base * Power(base, k - 1)
  }

  lemma {:induction false} DigitsLength(n: nat, base: nat, k: nat)
    requires 2 <= base <= 16 && k > 0 && n < Power(base, k)
    ensures |Digits(n, base)| <= k
    decreases k
  {
    if n >= base {
      DivideBound(n, base, Power(base, k - 1));
      if k > 1 {
        DigitsLength(n / base, base, k - 1);
      }
    }
  }

  lemma DivideBound(n: nat, base: nat, p: nat)
    requires base > 0 && n < base * p
    ensures n / base < p
  {
  }

  // ---------------------------------------------------------------- signed numbers

  /** The decimal text of an integer. */
  function Format(v: int): (s: string)
    ensures |s| > 0
  {
    if v < 0 then "-" + Digits(-v, 10) else Digits(v, 10)
  }

  /** Reads what Format writes: no plus sign, no leading zeros, no minus zero. */
  function Parse(s: string): Option<int> {
    if IsNumeral(s, 10) then Some(Value(s, 10) as int)
    else if |s| > 1 && s[0] == '-' && IsNumeral(s[1..], 10) && s[1..] != "0" then Some(-(Value(s[1..], 10) as int))
    else None
  }

  lemma FormatParses(v: int)
    ensures Parse(Format(v)) == Some(v)
  {
    hide Value, AreDigits, Digits;
    if v < 0 {
      DigitsParse(-v, 10);
      MinusIsNoDigit(Format(v));
      assert Format(v)[1..] == Digits(-v, 10);
    } else {
      DigitsParse(v, 10);
    }
  }

  lemma MinusIsNoDigit(s: string)
    requires |s| > 0 && s[0] == '-'
    ensures !IsNumeral(s, 10)
  {
    assert DigitOf(s[0]) < 0;
  }

  lemma ParseFormats(s: string)
    requires Parse(s).Some?
    ensures Format(Parse(s).value) == s
  {
    if IsNumeral(s, 10) {
      ParseDigits(s, 10);
    } else {
      ParseDigits(s[1..], 10);
      assert s == "-" + s[1..];
    }
  }

  /** A minus sign, and nothing else, marks the negative numbers. */
  lemma SignSpelled(v: int)
    ensures Format(v)[0] == '-' <==> v < 0
    ensures v < 0 ==> Format(v)[1..] == Format(-v)
  {
    if v >= 0 {
      DigitsParse(v, 10);
      MinusIsNoDigit("-");
    }
  }

  const INT64_MIN := -0x8000_0000_0000_0000
  const UINT64_END := 0x1_0000_0000_0000_0000

  /** Any value of any integer type that is at most 64 bits wide. */
  predicate InRange(v: int) {
    INT64_MIN <= v < UINT64_END
  }

  lemma TimesAssociates(a: nat, b: nat, c: nat)
    ensures a * (b * c) == (a * b) * c
  {
  }

  lemma {:induction false} PowerSum(base: nat, k: nat, m: nat)
    ensures Power(base, k + m) == Power(base, k) * Power(base, m)
  {
    if k > 0 {
      PowerSum(base, k - 1, m);
      TimesAssociates(base, Power(base, k - 1), Power(base, m));
    }
  }

  lemma Powers()
    ensures Power(10, 19) == 10_000_000_000_000_000_000
    ensures Power(10, 20) == 100_000_000_000_000_000_000
    ensures Power(16, 16) == UINT64_END
  {
    assert Power(10, 1) == 10 && Power(16, 1) == 16;
    PowerSum(10, 1, 1);
    PowerSum(10, 2, 2);
    PowerSum(10, 4, 1);
    PowerSum(10, 5, 5);
    PowerSum(10, 10, 10);
    PowerSum(10, 1, 19);
    PowerSum(16, 1, 1);
    PowerSum(16, 2, 2);
    PowerSum(16, 4, 4);
    PowerSum(16, 8, 8);
  }

  /** Sign and digits take at most 20 characters, in decimal or in hexadecimal. */
  lemma NumeralsFit(v: int)
    requires InRange(v)
    ensures |Format(v)| <= 20
    ensures v >= 0 ==> |Digits(v, 16)| <= 16
  {
    Powers();
    if v < 0 {
      DigitsLength(-v, 10, 19);
    } else {
      DigitsLength(v, 10, 20);
      DigitsLength(v, 16, 16);
    }
  }
}
