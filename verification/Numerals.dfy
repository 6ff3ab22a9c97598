/** Numerals in a radix, and the power loop that finds their first digit (format.c). */
module Numerals {
  import opened Arithmetic

  predicate IsRadix(radix: nat) {
    radix == 8 || radix == 10 || radix == 16
  }

  function DigitChar(d: nat, upper: bool): char
    requires d < 16
  {
    if d < 10 then '0' + d as char else if upper then 'A' + (d - 10) as char else 'a' + (d - 10) as char
  }

  function DigitValue(c: char): nat {
    if '0' <= c <= '9' then (c - '0') as nat
    else if 'a' <= c <= 'f' then (c - 'a') as nat + 10
    else if 'A' <= c <= 'F' then (c - 'A') as nat + 10
    else 0
  }

  lemma DigitReadsBack(d: nat, upper: bool)
    requires d < 16
    ensures DigitValue(DigitChar(d, upper)) == d
  {
  }

  /** The numeral of v without leading zeros; "0" for zero. */
  function Numeral(v: nat, radix: nat, upper: bool): (s: string)
    requires IsRadix(radix)
    ensures |s| >= 1
  {
    if v < radix then [DigitChar(v, upper)] else Numeral(v / radix, radix, upper) + [DigitChar(v % radix, upper)]
  }

  /** The number that a string of digits stands for. */
  function ReadBack(s: string, radix: nat): nat {
    if s == "" then 0 else ReadBack(s[..|s| - 1], radix) * radix + DigitValue(s[|s| - 1])
  }

  /** The numeral stands for the number. */
  lemma {:induction false} NumeralReadsBack(v: nat, radix: nat, upper: bool)
    requires IsRadix(radix)
    ensures ReadBack(Numeral(v, radix, upper), radix) == v
  {
    var s := Numeral(v, radix, upper);
    DigitReadsBack(v % radix, upper);
    if v < radix {
      assert s[..0] == "";
      DigitReadsBack(v, upper);
    } else {
      NumeralReadsBack(v / radix, radix, upper);
      assert s[..|s| - 1] == Numeral(v / radix, radix, upper);
    }
  }

  lemma {:induction false} LeadingZeros(n: nat, s: string, radix: nat)
    ensures ReadBack(Repeat('0', n) + s, radix) == ReadBack(s, radix)
    decreases |s|, n
  {
    var t := Repeat('0', n) + s;
    if s == "" {
      if n > 0 {
        assert t[..|t| - 1] == Repeat('0', n - 1) + s;
        LeadingZeros(n - 1, s, radix);
      }
    } else {
      assert t[..|t| - 1] == Repeat('0', n) + s[..|s| - 1];
      LeadingZeros(n, s[..|s| - 1], radix);
    }
  }

  function Repeat(c: char, n: nat): (s: string)
    ensures |s| == n
  {
    seq(n, _ => c)
  }

  // ----- digits from the most significant one down

  function Power(radix: nat, k: nat): nat {
    if k == 0 then 1 else radix * Power(radix, k - 1)
  }

  lemma {:induction false} PowerPositive(radix: nat, k: nat)
    requires IsRadix(radix)
    ensures Power(radix, k) > 0
  {
    if k > 0 {
      PowerPositive(radix, k - 1);
    }
  }

  /** The k + 1 lowest digits of v. */
  function Digits(v: nat, radix: nat, k: nat, upper: bool): (s: string)
    requires IsRadix(radix)
    ensures |s| == k + 1
  {
    if k == 0 then [DigitChar(v % radix, upper)]
    else Digits(v / radix, radix, k - 1, upper) + [DigitChar(v % radix, upper)]
  }

  lemma MultiplyNext(a: nat, c: nat)
    ensures (a + 1) * c == a * c + c
  {
  }

  lemma QuotientAtLeast(v: nat, a: nat, b: nat)
    requires b > 0 && b * a <= v
    ensures a <= v / b
  {
    if v / b < a {
      ProductOrder(v / b + 1, a, b);
      MultiplyNext(v / b, b);
    }
  }

  lemma DivideUnique(v: nat, d: nat, q: nat, m: nat)
    requires m < d && v == q * d + m
    ensures v / d == q && v % d == m
  {
    var p := v / d;
    assert v == p * d + v % d;
    MultiplyNext(p, d);
    MultiplyNext(q, d);
    if p > q {
      ProductOrder(q + 1, p, d);
    } else if p < q {
      ProductOrder(p + 1, q, d);
    }
  }

  lemma DivideParts(v: nat, d: nat)
    requires d > 0
    ensures v == v / d * d + v % d && v % d < d
  {
  }

  lemma PowerStep(radix: nat, k: nat)
    requires k > 0
    ensures Power(radix, k) == radix * Power(radix, k - 1)
    ensures k == 1 ==> Power(radix, k - 1) == 1 && Power(radix, k) == radix
  {
  }

  /** The same digits from the front: the first one is the multiple of the power, the others are those of the
      remainder. */
  lemma {:induction false} DigitsFromFront(v: nat, radix: nat, k: nat, upper: bool, q: nat, w: nat)
    requires IsRadix(radix) && k > 0 && q < radix && w < Power(radix, k) && v == q * Power(radix, k) + w
    ensures Digits(v, radix, k, upper) == [DigitChar(q, upper)] + Digits(w, radix, k - 1, upper)
  {
    hide Power, Digits;
    var p := Power(radix, k - 1);
    PowerStep(radix, k);
    LowerParts(v, radix, p, q, w);
    if k > 1 {
      DigitsFromFront(v / radix, radix, k - 1, upper, q, w / radix);
    }
    FrontStep(v, radix, k, upper, q, w, w / radix);
  }

  lemma LowerParts(v: nat, r: nat, p: nat, q: nat, w: nat)
    requires r > 0 && w < r * p && v == q * (r * p) + w
    ensures w / r < p && v / r == q * p + w / r && v % r == w % r
  {
    DivideParts(w, r);
    Regroup(q, r, p, w / r, w % r);
    DivideUnique(v, r, q * p + w / r, w % r);
    QuotientBelow(w, r, p);
  }

  lemma Regroup(q: nat, r: nat, p: nat, b: nat, c: nat)
    ensures q * (r * p) + (b * r + c) == (q * p + b) * r + c
  {
  }

  lemma FrontStep(v: nat, radix: nat, k: nat, upper: bool, q: nat, w: nat, b: nat)
    requires IsRadix(radix) && k > 0 && q < radix && w / radix == b && w % radix == v % radix
    requires if k == 1 then v / radix == q
             else Digits(v / radix, radix, k - 1, upper) == [DigitChar(q, upper)] + Digits(b, radix, k - 2, upper)
    ensures Digits(v, radix, k, upper) == [DigitChar(q, upper)] + Digits(w, radix, k - 1, upper)
  {
    if k == 1 {
      assert q % radix == q;
    }
  }

  /** The numeral has as many digits as the power loop counts. */
  lemma {:induction false} NumeralIsDigits(v: nat, radix: nat, k: nat, upper: bool)
    requires IsRadix(radix) && (k > 0 ==> Power(radix, k) <= v) && v < Power(radix, k + 1)
    ensures Numeral(v, radix, upper) == Digits(v, radix, k, upper)
  {
    if k > 0 {
      PowerPositive(radix, k - 1);
      assert radix * Power(radix, k - 1) == Power(radix, k);
      assert v >= radix by {
        assert Power(radix, k - 1) >= 1;
      }
      QuotientBelow(v, Power(radix, k), radix);
      if k > 1 {
        QuotientAtLeast(v, Power(radix, k - 1), radix);
      }
      NumeralIsDigits(v / radix, radix, k - 1, upper);
    }
  }
}
