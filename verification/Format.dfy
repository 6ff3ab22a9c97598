/** The integer conversions of the formatted output function (format.c), against section 7.21.6.1 of ISO/IEC
    9899:2011. */
module Format {
  import opened Arithmetic
  import opened Numerals

  /**
     One conversion after its flags, width and precision have been read: a missing precision has become 1, and a given
     one has cancelled the zero flag.
     */
  datatype Conversion = Conversion(
    radix: nat, upper: bool, signed: bool, left: bool, zero: bool, plus: bool, space: bool, alternative: bool,
    width: nat, precision: nat)

  predicate Valid(c: Conversion) {
    IsRadix(c.radix) && (c.signed ==> c.radix == 10)
  }

  const WORD := 0x1_0000_0000_0000_0000

  /** Does the 64-bit word stand for a negative argument? */
  predicate Negative(c: Conversion, word: nat) {
    c.signed && word >= WORD / 2
  }

  function Magnitude(c: Conversion, word: nat): nat
    requires word < WORD
  {
    if Negative(c, word) then WORD - word else word
  }

  /** The argument as a number: a signed one is in two's complement. */
  function Argument(c: Conversion, word: nat): int {
    if Negative(c, word) then word - WORD else word
  }

  // ----- what the standard asks for

  function Prefix(c: Conversion): string {
    if c.signed then (if c.plus then "+" else if c.space then " " else "")
    else if c.radix == 16 && c.alternative then (if c.upper then "0X" else "0x")
    else ""
  }

  /** The sign or the prefix; the prefixes of the radices 8 and 16 do not apply to zero. */
  function Sign(c: Conversion, word: nat): string
    requires word < WORD
  {
    if Negative(c, word) then "-" else if c.radix == 10 || word != 0 then Prefix(c) else ""
  }

  /** The digits; nothing when zero is printed with precision zero. */
  function DigitText(c: Conversion, word: nat): string
    requires Valid(c) && word < WORD
  {
    if c.precision == 0 && Magnitude(c, word) == 0 then "" else Numeral(Magnitude(c, word), c.radix, c.upper)
  }

  /** Does an alternative octal number need one more zero, so that its first digit is one? */
  predicate NeedsZero(c: Conversion, word: nat)
    requires Valid(c) && word < WORD
  {
    c.radix == 8 && c.alternative && c.precision <= |DigitText(c, word)| && (word != 0 || c.precision == 0)
  }

  /** Zeros in front of the digits: up to the precision, and the one of an alternative octal number. */
  function ZeroPad(c: Conversion, word: nat): nat
    requires Valid(c) && word < WORD
  {
    var n := |DigitText(c, word)|;
    if c.precision > n then c.precision - n else if NeedsZero(c, word) then 1 else 0
  }

  /** Fill in front of the sign, between sign and digits, and at the end: only one of them is not empty. */
  function Before(c: Conversion, fill: nat): string {
    if !c.left && !c.zero then Repeat(' ', fill) else ""
  }

  function Within(c: Conversion, fill: nat): string {
    if !c.left && c.zero then Repeat('0', fill) else ""
  }

  function After(c: Conversion, fill: nat): string {
    if c.left then Repeat(' ', fill) else ""
  }

  /** A sign, zeros and digits in a field of the given width, where the digits are `digits` and room is kept for n
      characters. */
  function Laid(c: Conversion, sign: string, pad: nat, digits: string, n: nat): string {
    var fill := if c.width > n then c.width - n else 0;
    Before(c, fill) + sign + Within(c, fill) + Repeat('0', pad) + digits + After(c, fill)
  }

  /** The field that the standard describes. */
  function Field(c: Conversion, word: nat): string
    requires Valid(c) && word < WORD
  {
    var n := |Sign(c, word)| + ZeroPad(c, word) + |DigitText(c, word)|;
    Laid(c, Sign(c, word), ZeroPad(c, word), DigitText(c, word), n)
  }

  /** The first digit of an alternative octal number is a zero, that of zero included. */
  lemma OctalStartsWithZero(c: Conversion, word: nat)
    requires Valid(c) && word < WORD && c.radix == 8 && c.alternative
    ensures var digits := Repeat('0', ZeroPad(c, word)) + DigitText(c, word); digits != "" && digits[0] == '0'
  {
  }

  function Max(a: nat, b: nat): nat {
    if a > b then a else b
  }

  /** The field is as wide as asked, or as its sign and digits need; only an alternative octal number may need one
      more zero. */
  lemma FieldLength(c: Conversion, word: nat)
    requires Valid(c) && word < WORD
    ensures var extra := if NeedsZero(c, word) then 1 else 0;
            |Field(c, word)| == Max(c.width, |Sign(c, word)| + Max(c.precision, |DigitText(c, word)|) + extra)
  {
  }

  /** The zeros and digits of the field stand for the magnitude of the argument, and with the sign for the argument. */
  lemma FieldReadsBack(c: Conversion, word: nat)
    requires Valid(c) && word < WORD
    ensures ReadBack(Repeat('0', ZeroPad(c, word)) + DigitText(c, word), c.radix) == Magnitude(c, word)
    ensures Sign(c, word) == "-" <==> Negative(c, word)
    ensures Argument(c, word) == if Sign(c, word) == "-" then 0 - Magnitude(c, word) as int
                                 else Magnitude(c, word) as int
  {
    LeadingZeros(ZeroPad(c, word), DigitText(c, word), c.radix);
    NumeralReadsBack(Magnitude(c, word), c.radix, c.upper);
  }

  // ----- what the code prints

  /** Digits without their trailing zeros. */
  function Stripped(s: string): string {
    if s != "" && s[|s| - 1] == '0' then Stripped(s[..|s| - 1]) else s
  }

  /** With precision zero the digit loop ends as soon as the rest is zero. */
  function EmittedDigits(c: Conversion, word: nat): string
    requires Valid(c) && word < WORD
  {
    if c.precision == 0 then Stripped(DigitText(c, word)) else DigitText(c, word)
  }

  /** The code adds the octal zero to numbers other than zero only. */
  function CodePad(c: Conversion, word: nat): nat
    requires Valid(c) && word < WORD
  {
    var n := |DigitText(c, word)|;
    if c.precision > n then c.precision - n else if c.radix == 8 && c.alternative && word != 0 then 1 else 0
  }

  /** The characters that the code keeps room for. */
  function Room(c: Conversion, word: nat): nat
    requires Valid(c) && word < WORD
  {
    |Sign(c, word)| + CodePad(c, word) + |DigitText(c, word)|
  }

  /** The output of the code: with nothing to print it stops after the padding on the left. */
  function Printed(c: Conversion, word: nat): string
    requires Valid(c) && word < WORD
  {
    if Room(c, word) == 0 then (if !c.left && !c.zero then Repeat(' ', c.width) else "")
    else Laid(c, Sign(c, word), CodePad(c, word), EmittedDigits(c, word), Room(c, word))
  }

  /**
     When the code prints the field of the standard: always with a precision above zero; with precision zero if no
     trailing zero of a number, no octal zero and no blank field is lost.
     */
  predicate PrintsRight(c: Conversion, word: nat)
    requires Valid(c) && word < WORD
  {
    || c.precision > 0
    || (Magnitude(c, word) != 0 && Magnitude(c, word) % c.radix != 0)
    || (word == 0 && !(c.radix == 8 && c.alternative) && (Sign(c, word) != "" || c.width == 0 || (!c.left && !c.zero)))
  }

  lemma StrippedShorter(s: string)
    ensures |Stripped(s)| <= |s|
    ensures |Stripped(s)| == |s| <==> Stripped(s) == s
    ensures Stripped(s) == s <==> s == "" || s[|s| - 1] != '0'
  {
  }

  lemma LastDigit(v: nat, radix: nat, upper: bool)
    requires IsRadix(radix)
    ensures var s := Numeral(v, radix, upper); s[|s| - 1] == '0' <==> v % radix == 0
  {
  }

  lemma LaidLength(c: Conversion, sign: string, pad: nat, digits: string, n: nat)
    ensures |Laid(c, sign, pad, digits, n)| == |sign| + pad + |digits| + if c.width > n then c.width - n else 0
  {
  }

  /** The output is the field of the standard exactly in these cases. */
  lemma PrintedIsField(c: Conversion, word: nat)
    requires Valid(c) && word < WORD
    ensures Printed(c, word) == Field(c, word) <==> PrintsRight(c, word)
  {
    hide Laid, Stripped, Numeral;
    var v, d := Magnitude(c, word), DigitText(c, word);
    LastDigit(v, c.radix, c.upper);
    StrippedShorter(d);
    LaidLength(c, Sign(c, word), ZeroPad(c, word), d, |Sign(c, word)| + ZeroPad(c, word) + |d|);
    LaidLength(c, Sign(c, word), CodePad(c, word), EmittedDigits(c, word), Room(c, word));
    EmptyField(c);
    LoneZero(c);
  }

  /** A field without sign and digits is all padding. */
  lemma EmptyField(c: Conversion)
    ensures Laid(c, "", 0, "", 0) == if c.left || !c.zero then Repeat(' ', c.width) else Repeat('0', c.width)
  {
  }

  /** A field with nothing but one zero is never blank. */
  lemma LoneZero(c: Conversion)
    ensures Laid(c, "", 1, "", 1) != "" && Laid(c, "", 1, "", 1) != Repeat(' ', c.width)
  {
    var fill := if c.width > 1 then c.width - 1 else 0;
    var field := Laid(c, "", 1, "", 1);
    assert field[if c.left then 0 else fill] == '0';
  }

  /** A concrete case: ten with precision zero is printed as "1". */
  lemma TenLosesItsZero()
    ensures var c := Conversion(10, false, true, false, false, false, false, false, 0, 0);
            Printed(c, 10) == "1" && Field(c, 10) == "10" && !PrintsRight(c, 10)
  {
    assert Numeral(10, 10, false) == "10";
    assert "10"[..1] == "1";
    assert Stripped("10") == "1";
    var c := Conversion(10, false, true, false, false, false, false, false, 0, 0);
    assert Printed(c, 10) == "" + Repeat(' ', 0) + "1";
  }

  /** Another: the alternative octal form of zero with precision zero prints nothing, where the standard asks for
      "0". */
  lemma OctalZeroIsLost()
    ensures var c := Conversion(8, false, false, false, false, false, false, true, 0, 0);
            Printed(c, 0) == "" && Field(c, 0) == "0" && !PrintsRight(c, 0)
  {
  }

  // ----- the code

  /** Copies n times the character c to the output. */
  method PutMany(out: string, c: char, n: nat) returns (more: string)
    ensures more == out + Repeat(c, n)
  {
    more := out;
    for i := 0 to n
      invariant more == out + Repeat(c, i)
    {
      more := more + [c];
    }
  }

  /** The largest power of the radix in a number; it never leaves 64 bits. */
  method FindPower(value: nat, radix: nat) returns (pw: nat, digits: nat)
    requires IsRadix(radix) && value < WORD
    ensures digits >= 1 && pw == Power(radix, digits - 1) && 0 < pw < WORD
    ensures (digits > 1 ==> pw <= value) && value < Power(radix, digits)
  {
    pw, digits := 1, 1;
    while value / pw >= radix
      invariant digits >= 1 && pw == Power(radix, digits - 1) && 0 < pw < WORD && (digits > 1 ==> pw <= value)
      decreases value - pw
    {
      BelowQuotient(value, pw, radix);
      PowerStep(radix, digits);
      pw := pw * radix;
      digits := digits + 1;
    }
    AboveQuotient(value, pw, radix);
    PowerStep(radix, digits);
  }

  lemma BelowQuotient(v: nat, p: nat, r: nat)
    requires p > 0 && IsRadix(r) && v / p >= r
    ensures p < p * r <= v && p * r == r * p
  {
    DivideParts(v, p);
    ProductOrder(r, v / p, p);
  }

  lemma AboveQuotient(v: nat, p: nat, r: nat)
    requires p > 0 && v / p < r
    ensures v < r * p
  {
    DivideParts(v, p);
    ProductOrder(v / p + 1, r, p);
    MultiplyNext(v / p, p);
  }

  lemma {:induction false} StrippedIs(d: string, i: nat)
    requires 1 <= i <= |d| && d[i - 1] != '0' && forall j :: i <= j < |d| ==> d[j] == '0'
    ensures Stripped(d) == d[..i]
    decreases |d|
  {
    if i == |d| {
      assert d[..i] == d;
    } else {
      StrippedIs(d[..|d| - 1], i);
      assert d[..|d| - 1][..i] == d[..i];
    }
  }

  lemma {:induction false} DigitsOfZero(radix: nat, k: nat, upper: bool)
    requires IsRadix(radix)
    ensures Digits(0, radix, k, upper) == Repeat('0', k + 1)
  {
    if k > 0 {
      DigitsOfZero(radix, k - 1, upper);
    }
  }

  /** Halfway through the digits: i of k + 1 are out, and the rest are those of the remaining value. */
  ghost predicate Emitting(d: string, i: nat, k: nat, value: nat, pw: nat, radix: nat, upper: bool)
    requires IsRadix(radix)
  {
    && |d| == k + 1 && i <= k + 1
    && (if i <= k
        then pw == Power(radix, k - i) && value < Power(radix, k + 1 - i)
             && d[i..] == Digits(value, radix, k - i, upper)
        else pw == 0 && value == 0)
  }

  lemma EmitQuotient(d: string, i: nat, k: nat, value: nat, pw: nat, radix: nat, upper: bool)
    requires IsRadix(radix) && i <= k && Emitting(d, i, k, value, pw, radix, upper)
    ensures pw > 0 && value / pw < radix <= 16 && |d| == k + 1
  {
    hide Digits;
    PowerPositive(radix, k - i);
    PowerStep(radix, k - i + 1);
    QuotientBelow(value, pw, radix);
  }

  lemma EmitStep(d: string, i: nat, k: nat, value: nat, pw: nat, radix: nat, upper: bool, q: nat, rest: nat, next: nat)
    requires IsRadix(radix) && i <= k && Emitting(d, i, k, value, pw, radix, upper)
    requires rest < pw && value == q * pw + rest && q < radix <= 16
    requires if i < k then next == Power(radix, k - i - 1) else next == 0
    ensures |d| == k + 1 && d[i] == DigitChar(q, upper)
    ensures Emitting(d, i + 1, k, rest, next, radix, upper)
  {
    hide DigitChar, Digits;
    if i < k {
      DigitsFromFront(value, radix, k - i, upper, q, rest);
      assert d[i + 1..] == d[i..][1..];
    } else {
      UnitPower(radix);
      LastIs(q, radix, upper);
      assert d[i..][0] == d[i];
    }
  }

  lemma PowerQuotient(radix: nat, k: nat)
    requires IsRadix(radix) && k > 0
    ensures Power(radix, k) / radix == Power(radix, k - 1)
  {
    PowerStep(radix, k);
    DivideUnique(Power(radix, k), radix, Power(radix, k - 1), 0);
  }

  lemma NextPower(d: string, i: nat, k: nat, value: nat, pw: nat, radix: nat, upper: bool)
    requires IsRadix(radix) && i <= k && Emitting(d, i, k, value, pw, radix, upper)
    ensures pw / radix == if i < k then Power(radix, k - i - 1) else 0
  {
    hide Digits;
    if i < k {
      PowerQuotient(radix, k - i);
    } else {
      UnitPower(radix);
    }
  }

  lemma UnitPower(radix: nat)
    requires IsRadix(radix)
    ensures Power(radix, 0) == 1 && Power(radix, 1) == radix && 1 / radix == 0
  {
  }

  lemma LastIs(value: nat, radix: nat, upper: bool)
    requires IsRadix(radix) && value < radix
    ensures Digits(value, radix, 0, upper) == [DigitChar(value, upper)]
  {
  }

  /** One round of the digit loop. */
  method EmitDigit(out: string, value: nat, pw: nat, radix: nat, upper: bool, ghost d: string, ghost i: nat,
                   ghost k: nat)
    returns (more: string, rest: nat, lower: nat)
    requires IsRadix(radix) && Emitting(d, i, k, value, pw, radix, upper) && pw != 0
    ensures i <= k && |d| == k + 1 && more == out + [d[i]]
    ensures Emitting(d, i + 1, k, rest, lower, radix, upper)
    ensures value != 0 && rest == 0 ==> d[i] != '0'
  {
    hide Emitting, DigitChar;
    EmitBounds(d, i, k, value, pw, radix, upper);
    EmitQuotient(d, i, k, value, pw, radix, upper);
    DivideParts(value, pw);
    NextPower(d, i, k, value, pw, radix, upper);
    rest := value % pw;
    lower := pw / radix;
    EmitStep(d, i, k, value, pw, radix, upper, value / pw, rest, lower);
    NonzeroDigit(value, pw, upper);
    more := out + [DigitChar(value / pw, upper)];
  }

  /** The digit loop. */
  method EmitDigits(out: string, magnitude: nat, power: nat, radix: nat, upper: bool, precision: nat, ghost k: nat)
    returns (more: string)
    requires IsRadix(radix) && power == Power(radix, k) && magnitude < Power(radix, k + 1)
             && (k > 0 ==> power <= magnitude)
    ensures more == out + if precision > 0 then Numeral(magnitude, radix, upper)
                          else if magnitude == 0 then "" else Stripped(Numeral(magnitude, radix, upper))
  {
    hide Emitting, Digits, Numeral, DigitChar, Stripped;
    NumeralIsDigits(magnitude, radix, k, upper);
    ghost var d, i := Digits(magnitude, radix, k, upper), 0;
    EmitStart(magnitude, radix, k, upper);
    more := out;
    var value: nat, pw: nat := magnitude, power;
    while pw != 0 && (precision != 0 || value != 0)
      invariant i <= k + 1 && Emitting(d, i, k, value, pw, radix, upper)
      invariant more == out + d[..i]
      invariant precision == 0 && value == 0 && i > 0 ==> d[i - 1] != '0'
      invariant (i == 0 ==> value == magnitude) && (precision == 0 && magnitude == 0 ==> i == 0)
      decreases k + 1 - i
    {
      more, value, pw := EmitDigit(more, value, pw, radix, upper, d, i, k);
      assert d[..i + 1] == d[..i] + [d[i]];
      i := i + 1;
    }
    EmitEnd(d, i, k, value, pw, radix, upper);
    if precision == 0 && i > 0 {
      StrippedIs(d, i);
    }
    assert d[..|d|] == d;
  }

  lemma EmitStart(v: nat, radix: nat, k: nat, upper: bool)
    requires IsRadix(radix) && v < Power(radix, k + 1)
    ensures Emitting(Digits(v, radix, k, upper), 0, k, v, Power(radix, k), radix, upper)
  {
    var d := Digits(v, radix, k, upper);
    assert d[0..] == d;
  }

  lemma EmitBounds(d: string, i: nat, k: nat, value: nat, pw: nat, radix: nat, upper: bool)
    requires IsRadix(radix) && Emitting(d, i, k, value, pw, radix, upper) && pw != 0
    ensures i <= k && |d| == k + 1
  {
  }

  /** When the loop ends: everything is out, or only zeros are missing. */
  lemma EmitEnd(d: string, i: nat, k: nat, value: nat, pw: nat, radix: nat, upper: bool)
    requires IsRadix(radix) && Emitting(d, i, k, value, pw, radix, upper)
    ensures |d| == k + 1 && i <= k + 1
    ensures pw == 0 ==> i == k + 1 && value == 0
    ensures value == 0 ==> forall j :: i <= j < |d| ==> d[j] == '0'
  {
    if i <= k {
      PowerPositive(radix, k - i);
      if value == 0 {
        DigitsOfZero(radix, k - i, upper);
        forall j | i <= j < |d| ensures d[j] == '0' {
          assert d[j] == d[i..][j - i];
        }
      }
    }
  }

  lemma NonzeroDigit(value: nat, pw: nat, upper: bool)
    requires pw > 0 && value / pw < 16
    ensures value != 0 && value % pw == 0 ==> DigitChar(value / pw, upper) != '0'
  {
    DivideParts(value, pw);
  }

  /** The digits that the length counts are those of the text. */
  lemma TextLength(c: Conversion, word: nat, digits: nat)
    requires Valid(c) && word < WORD && digits >= 1
    requires (digits > 1 ==> Power(c.radix, digits - 1) <= Magnitude(c, word))
             && Magnitude(c, word) < Power(c.radix, digits)
    ensures |DigitText(c, word)| == digits - 1 + if c.precision != 0 || Magnitude(c, word) != 0 then 1 else 0
  {
    hide Numeral, Digits;
    NumeralIsDigits(Magnitude(c, word), c.radix, digits - 1, c.upper);
    if digits > 1 {
      PowerPositive(c.radix, digits - 1);
    }
  }

  /** Sign, zeros and digits, with the padding on either side. */
  method LayOut(c: Conversion, sign: string, pad: nat, value: nat, pw: nat, length: nat, ghost k: nat)
    returns (out: string)
    requires Valid(c) && pw == Power(c.radix, k) && value < Power(c.radix, k + 1) && (k > 0 ==> pw <= value)
    ensures var digits := if c.precision > 0 then Numeral(value, c.radix, c.upper)
                          else if value == 0 then ""
                          else Stripped(Numeral(value, c.radix, c.upper));
            out == if length == 0 then (if !c.left && !c.zero then Repeat(' ', c.width) else "")
                   else Laid(c, sign, pad, digits, length)
  {
    hide Numeral, Stripped, Power, Repeat;
    var fill := if c.width > length then c.width - length else 0;
    out := "";
    if !c.left && !c.zero {
      out := PutMany(out, ' ', fill);
    }
    assert out == Before(c, fill);
    if length == 0 {
      return;
    }
    out := out + sign;
    if c.zero && !c.left {
      out := PutMany(out, '0', fill);
    }
    assert out == Before(c, fill) + sign + Within(c, fill);
    out := PutMany(out, '0', pad);
    out := EmitDigits(out, value, pw, c.radix, c.upper, c.precision, k);
    if c.left {
      out := PutMany(out, ' ', fill);
    }
  }

  /** The conversion of one argument. */
  method PrintNumber(c: Conversion, word: nat) returns (out: string)
    requires Valid(c) && word < WORD
    ensures out == Printed(c, word)
  {
    hide Numeral, Stripped, Power, Laid;
    var negative := c.signed && word >= WORD / 2;
    var value := if negative then WORD - word else word;
    var pw, digits := FindPower(value, c.radix);
    TextLength(c, word, digits);
    var length := digits - 1 + if c.precision != 0 || value != 0 then 1 else 0;
    var pad := if c.precision > length then c.precision - length else 0;
    if pad == 0 && c.radix == 8 && c.alternative && value != 0 {
      pad := 1;
    }
    var sign := if negative then "-" else if c.radix == 10 || value != 0 then Prefix(c) else "";
    length := length + pad + |sign|;
    StrippedShorter("");
    out := LayOut(c, sign, pad, value, pw, length, digits - 1);
  }

  // ----- reading a conversion

  predicate IsFlag(c: char) {
    c in "-+ #0"
  }

  /** The flags of a conversion: a left-justified field has no leading zeros, and a plus sign leaves no room for a
      space. */
  method ReadFlags(fmt: string, at: nat)
    returns (next: nat, left: bool, plus: bool, space: bool, alternative: bool, zero: bool)
    requires at <= |fmt|
    ensures at <= next <= |fmt| && (forall i :: at <= i < next ==> IsFlag(fmt[i]))
            && (next < |fmt| ==> !IsFlag(fmt[next]))
    ensures left <==> '-' in fmt[at..next]
    ensures plus <==> '+' in fmt[at..next]
    ensures alternative <==> '#' in fmt[at..next]
    ensures next < |fmt| ==> (space <==> ' ' in fmt[at..next] && '+' !in fmt[at..next])
    ensures next < |fmt| ==> (zero <==> '0' in fmt[at..next] && '-' !in fmt[at..next])
  {
    next, left, plus, space, alternative, zero := at, false, false, false, false, false;
    while next < |fmt| && IsFlag(fmt[next])
      invariant at <= next <= |fmt| && forall i :: at <= i < next ==> IsFlag(fmt[i])
      invariant (left <==> '-' in fmt[at..next]) && (plus <==> '+' in fmt[at..next])
                && (space <==> ' ' in fmt[at..next])
      invariant (alternative <==> '#' in fmt[at..next]) && (zero <==> '0' in fmt[at..next])
    {
      assert fmt[at..next + 1] == fmt[at..next] + [fmt[next]];
      match fmt[next] {
        case '-' => left := true;
        case '+' => plus := true;
        case ' ' => space := true;
        case '#' => alternative := true;
        case _ => zero := true;
      }
      next := next + 1;
    }
    if next < |fmt| {
      space := space && !plus;
      zero := zero && !left;
    }
  }

  /** A width or a precision: the number that the run of decimal digits spells. */
  method ReadCount(fmt: string, at: nat) returns (next: nat, count: nat)
    requires at <= |fmt|
    ensures at <= next <= |fmt| && (forall i :: at <= i < next ==> '0' <= fmt[i] <= '9')
            && (next < |fmt| ==> !('0' <= fmt[next] <= '9'))
    ensures count == ReadBack(fmt[at..next], 10)
  {
    next, count := at, 0;
    while next < |fmt| && '0' <= fmt[next] <= '9'
      invariant at <= next <= |fmt| && (forall i :: at <= i < next ==> '0' <= fmt[i] <= '9')
      invariant count == ReadBack(fmt[at..next], 10)
    {
      assert fmt[at..next + 1][..next - at] == fmt[at..next];
      count := count * 10 + (fmt[next] - '0') as nat;
      next := next + 1;
    }
  }

  /**
     The length modifier at a position: how many characters it has and how many bits of the argument count. Of two
     letters the second one decides.
     */
  function LengthAt(fmt: string, at: nat): (nat, nat) {
    if at >= |fmt| then (0, 32)
    else if fmt[at] in "hl" then
      if at + 1 < |fmt| && fmt[at + 1] == 'h' then (2, 8)
      else if at + 1 < |fmt| && fmt[at + 1] == 'l' then (2, 64)
      else if fmt[at] == 'h' then (1, 16)
      else (1, 64)
    else if fmt[at] in "jzt" then (1, 64)
    else if fmt[at] == 'L' then (1, 32)
    else (0, 32)
  }

  predicate IsInteger(c: char) {
    c in "xXuodi"
  }

  /** The argument as a 64-bit word: its low bits, extended by their sign for a signed conversion. */
  function Load(bits: nat, signed: bool, argument: nat): nat {
    var low := argument % TwoTo(bits);
    if signed && low >= TwoTo(bits) / 2 then WORD - TwoTo(bits) + low else low
  }

  function TwoTo(bits: nat): (n: nat)
    ensures n > 0
  {
    if bits == 8 then 0x100 else if bits == 16 then 0x1_0000 else if bits == 32 then 0x1_0000_0000 else WORD
  }

  /** The conversion then prints the value of the narrowed argument: low bits, or their two's complement value. */
  lemma LoadIsConversion(c: Conversion, bits: nat, argument: nat)
    ensures var low := argument % TwoTo(bits);
            && Load(bits, c.signed, argument) < WORD
            && Argument(c, Load(bits, c.signed, argument))
               == if c.signed && low >= TwoTo(bits) / 2 then low - TwoTo(bits) else low
  {
  }

  /** Where the parts of a conversion end: flags, width, precision, length modifier. */
  datatype Parts = Parts(flags: nat, width: nat, precision: nat, length: nat)

  ghost predicate Splits(fmt: string, at: nat, p: Parts) {
    && at <= p.flags <= p.width <= p.precision <= p.length <= |fmt|
    && (forall i :: at <= i < p.flags ==> IsFlag(fmt[i])) && (p.flags < |fmt| ==> !IsFlag(fmt[p.flags]))
    && (forall i :: p.flags <= i < p.width ==> '0' <= fmt[i] <= '9')
    && (p.width < |fmt| ==> !('0' <= fmt[p.width] <= '9'))
    && (if p.width < |fmt| && fmt[p.width] == '.' then
          && p.width < p.precision
          && (forall i :: p.width < i < p.precision ==> '0' <= fmt[i] <= '9')
          && (p.precision < |fmt| ==> !('0' <= fmt[p.precision] <= '9'))
        else p.precision == p.width)
    && p.length == Min(|fmt|, p.precision + LengthAt(fmt, p.precision).0)
  }

  /** What the parts ask for. */
  function Asked(fmt: string, at: nat, p: Parts): Conversion
    requires at <= p.flags <= p.width <= p.precision <= p.length < |fmt|
  {
    var flags, letter := fmt[at..p.flags], fmt[p.length];
    Conversion(if letter in "xX" then 16 else if letter == 'o' then 8 else 10, letter == 'X', letter in "di",
               '-' in flags, '0' in flags && '-' !in flags && p.precision == p.width, '+' in flags, ' ' in flags
               && '+' !in flags, '#' in flags,
               ReadBack(fmt[p.flags..p.width], 10),
               if p.precision == p.width then 1 else ReadBack(fmt[p.width + 1..p.precision], 10))
  }

  /** Reads an integer conversion after the percent sign; none when the string ends or another letter follows. */
  method ReadConversion(fmt: string, at: nat) returns (found: bool, c: Conversion, bits: nat, ghost p: Parts)
    requires at <= |fmt|
    ensures Splits(fmt, at, p)
    ensures found <==> p.length < |fmt| && IsInteger(fmt[p.length])
    ensures found ==> c == Asked(fmt, at, p) && Valid(c) && bits == LengthAt(fmt, p.precision).1
    ensures found && c.zero ==> c.precision == 1
  {
    hide ReadBack, LengthAt, IsInteger;
    var flagsEnd, left, plus, space, alternative, zero := ReadFlags(fmt, at);
    var widthEnd, width := ReadCount(fmt, flagsEnd);
    var precisionEnd, precision := widthEnd, 1;
    if widthEnd < |fmt| && fmt[widthEnd] == '.' {
      zero := false;
      precisionEnd, precision := ReadCount(fmt, widthEnd + 1);
    }
    var (characters, size) := LengthAt(fmt, precisionEnd);
    bits := size;
    var letterAt := Min(|fmt|, precisionEnd + characters);
    p := Parts(flagsEnd, widthEnd, precisionEnd, letterAt);
    found := letterAt < |fmt| && IsInteger(fmt[letterAt]);
    c := Conversion(10, false, false, left, zero, plus, space, alternative, width, precision);
    if found {
      var letter := fmt[letterAt];
      c := c.(radix := if letter in "xX" then 16 else if letter == 'o' then 8 else 10, upper := letter == 'X',
              signed := letter in "di");
    }
  }

  /** One integer conversion of a format string, from its text and its argument to the output. */
  method Convert(fmt: string, at: nat, argument: nat) returns (found: bool, out: string, ghost p: Parts)
    requires at <= |fmt|
    ensures Splits(fmt, at, p) && (found <==> p.length < |fmt| && IsInteger(fmt[p.length]))
    ensures found ==> var c := Asked(fmt, at, p);
              Valid(c) && Load(LengthAt(fmt, p.precision).1, c.signed, argument) < WORD
              && out == Printed(c, Load(LengthAt(fmt, p.precision).1, c.signed, argument))
  {
    hide Asked, Printed, Splits;
    var c, bits;
    found, c, bits, p := ReadConversion(fmt, at);
    out := "";
    if found {
      LoadIsConversion(c, bits, argument);
      out := PrintNumber(c, Load(bits, c.signed, argument));
    }
  }
}
