/** What a reader sees of an integer conversion, told from its text and its argument (format.c). */
module FormatLaws {
  import opened Arithmetic
  import opened Numerals
  import opened Format

  // ----- the text

  /** The parts of an integer conversion at a position of the format string. */
  ghost predicate IsConversion(fmt: string, at: nat, p: Parts) {
    Splits(fmt, at, p) && p.length < |fmt| && IsInteger(fmt[p.length])
  }

  /** The argument as the conversion takes it, by the size of its type. */
  function Word(fmt: string, at: nat, p: Parts, argument: nat): (w: nat)
    requires at <= p.flags <= p.width <= p.precision <= p.length < |fmt|
    ensures w < WORD
  {
    LoadIsConversion(Asked(fmt, at, p), LengthAt(fmt, p.precision).1, argument);
    Load(LengthAt(fmt, p.precision).1, Asked(fmt, at, p).signed, argument)
  }

  /** The length modifiers, and the bits of their types: char 8, short 16, int 32, long and the others 64. */
  lemma LengthIsType(fmt: string, at: nat, p: Parts)
    requires IsConversion(fmt, at, p)
    ensures var m, bits := fmt[p.precision..p.length], LengthAt(fmt, p.precision).1;
            && (m == "" ==> bits == 32) && (m == "h" ==> bits == 16) && (m == "hh" ==> bits == 8)
            && (m in ["l", "ll", "j", "z", "t"] ==> bits == 64)
            && m in ["", "h", "hh", "l", "ll", "j", "z", "t", "L", "hl", "lh"]
  {
    hide Splits, IsInteger;
    LengthAtPart(fmt, at, p);
    var m, q := fmt[p.precision..p.length], p.precision;
    if |m| == 1 {
      assert m == [fmt[q]];
    } else if |m| == 2 {
      assert m == [fmt[q], fmt[q + 1]];
    }
  }

  lemma LengthAtPart(fmt: string, at: nat, p: Parts)
    requires IsConversion(fmt, at, p)
    ensures p.precision <= p.length < |fmt| && p.length == p.precision + LengthAt(fmt, p.precision).0
    ensures LengthAt(fmt, p.precision).0 == 0 ==> fmt[p.precision] == fmt[p.length] && IsInteger(fmt[p.length])
  {
    hide LengthAt, IsInteger;
  }

  // ----- the sign

  /**
   From the flags and the value: a minus sign for a negative value of d or i, else a plus sign or a blank when the flags
   have one, the plus sign first; 0x or 0X for a non-zero value of x or X with a number sign; nothing for o and u.
   */
  lemma SignFromText(fmt: string, at: nat, p: Parts, argument: nat)
    requires IsConversion(fmt, at, p)
    ensures at <= p.flags <= p.width <= p.precision <= p.length < |fmt|
    ensures var c, w, flags, letter := Asked(fmt, at, p), Word(fmt, at, p, argument), fmt[at..p.flags], fmt[p.length];
            && (letter in "di" ==>
                  && (Sign(c, w) == "-" <==> Argument(c, w) < 0)
                  && (Sign(c, w) == "+" <==> Argument(c, w) >= 0 && '+' in flags)
                  && (Sign(c, w) == " " <==> Argument(c, w) >= 0 && ' ' in flags && '+' !in flags)
                  && (Sign(c, w) == "" <==> Argument(c, w) >= 0 && ' ' !in flags && '+' !in flags))
            && (letter in "ou" ==> Sign(c, w) == "" && Argument(c, w) >= 0)
            && (letter == 'x' ==> Sign(c, w) == (if '#' in flags && Argument(c, w) != 0 then "0x" else ""))
            && (letter == 'X' ==> Sign(c, w) == (if '#' in flags && Argument(c, w) != 0 then "0X" else ""))
  {
    hide ReadBack, LengthAt, Load, IsFlag;
    OrderOf(fmt, at, p);
    var c := Asked(fmt, at, p);
    SignCases(c, Word(fmt, at, p, argument));
  }

  lemma OrderOf(fmt: string, at: nat, p: Parts)
    requires IsConversion(fmt, at, p)
    ensures at <= p.flags <= p.width <= p.precision <= p.length < |fmt|
  {
    hide LengthAt, IsInteger, IsFlag;
  }

  lemma SignCases(c: Conversion, w: nat)
    requires w < WORD
    ensures c.signed ==>
              Sign(c, w) == if Argument(c, w) < 0 then "-"
                            else if c.radix != 10 && w == 0 then ""
                            else if c.plus then "+" else if c.space then " " else ""
    ensures !c.signed ==>
              Argument(c, w) == w
              && Sign(c, w) == if c.radix == 16 && c.alternative && w != 0 then (if c.upper then "0X" else "0x") else ""
  {
  }

  // ----- the layout

  /** Sign, zeros and digits, filled up to the width: with blanks behind, with zeros after the sign, or with blanks in
      front. */
  predicate Filled(out: string, left: bool, zero: bool, width: nat, sign: string, body: string) {
    var n := |sign| + |body|;
    var fill := if width > n then width - n else 0;
    out == if left then sign + body + Repeat(' ', fill)
           else if zero then sign + Repeat('0', fill) + body
           else Repeat(' ', fill) + sign + body
  }

  lemma LaidIsFilled(c: Conversion, sign: string, pad: nat, digits: string)
    ensures Filled(Laid(c, sign, pad, digits, |sign| + pad + |digits|), c.left, c.zero, c.width, sign,
                   Repeat('0', pad) + digits)
  {
    var body := Repeat('0', pad) + digits;
    var n := |sign| + pad + |digits|;
    var fill := if c.width > n then c.width - n else 0;
    var out := Laid(c, sign, pad, digits, n);
    if c.left {
      assert out == sign + body + Repeat(' ', fill);
    } else if c.zero {
      assert out == sign + Repeat('0', fill) + body;
    } else {
      assert out == Repeat(' ', fill) + sign + body;
    }
  }

  /** The field of the standard: its digits are at least as many as the precision asks, in the case of the letter. */
  lemma FieldIsFilled(c: Conversion, word: nat)
    requires Valid(c) && word < WORD
    ensures var body := Repeat('0', ZeroPad(c, word)) + DigitText(c, word);
            && Filled(Field(c, word), c.left, c.zero, c.width, Sign(c, word), body) && |body| >= c.precision
            && ReadBack(body, c.radix) == Magnitude(c, word)
            && forall i :: 0 <= i < |body| ==> IsDigitOf(body[i], c.radix, c.upper)
  {
    hide Filled, Laid, Numeral, Sign, Magnitude, IsDigitOf;
    LaidIsFilled(c, Sign(c, word), ZeroPad(c, word), DigitText(c, word));
    FieldReadsBack(c, word);
    NumeralDigits(Magnitude(c, word), c.radix, c.upper);
    ZeroIsDigit(c.radix, c.upper);
  }

  /**
   From the text: the letter gives the radix and the case, a given precision the least number of digits, and the width
   is filled as the flags say: a minus sign for the left, and zeros only for a zero flag without it and without
   precision.
   */
  lemma FieldFromText(fmt: string, at: nat, p: Parts, argument: nat)
    requires IsConversion(fmt, at, p)
    ensures at <= p.flags <= p.width <= p.precision <= p.length < |fmt| && Valid(Asked(fmt, at, p))
    ensures var c, w, flags, letter := Asked(fmt, at, p), Word(fmt, at, p, argument), fmt[at..p.flags], fmt[p.length];
            var body := Repeat('0', ZeroPad(c, w)) + DigitText(c, w);
            var radix := if letter in "diu" then 10 else if letter == 'o' then 8 else 16;
            && ReadBack(body, radix) == (if Argument(c, w) < 0 then 0 - Argument(c, w) else Argument(c, w))
            && (forall i :: 0 <= i < |body| ==> IsDigitOf(body[i], radix, letter == 'X'))
            && |body| >= (if p.precision == p.width then 1 else ReadBack(fmt[p.width + 1..p.precision], 10))
            && Filled(Field(c, w), '-' in flags, '0' in flags && '-' !in flags && p.precision == p.width,
                      ReadBack(fmt[p.flags..p.width], 10), Sign(c, w), body)
  {
    hide Filled, IsDigitOf, ReadBack, LengthAt, Load, IsFlag, Field, Sign, DigitText, ZeroPad;
    LetterIs(fmt, at, p);
    FieldIsFilled(Asked(fmt, at, p), Word(fmt, at, p, argument));
  }

  // ----- the characters

  /** A digit of the radix, its letters in upper or lower case. */
  predicate IsDigitOf(c: char, radix: nat, upper: bool) {
    || '0' <= c <= (if radix == 8 then '7' else '9')
    || (radix == 16 && (if upper then 'A' <= c <= 'F' else 'a' <= c <= 'f'))
  }

  lemma ZeroIsDigit(radix: nat, upper: bool)
    requires IsRadix(radix)
    ensures IsDigitOf('0', radix, upper)
  {
  }

  lemma {:induction false} NumeralDigits(v: nat, radix: nat, upper: bool)
    requires IsRadix(radix)
    ensures forall i :: 0 <= i < |Numeral(v, radix, upper)| ==> IsDigitOf(Numeral(v, radix, upper)[i], radix, upper)
  {
    if v >= radix {
      NumeralDigits(v / radix, radix, upper);
    }
  }

  lemma {:induction false} StrippedDigits(s: string, radix: nat, upper: bool)
    requires forall i :: 0 <= i < |s| ==> IsDigitOf(s[i], radix, upper)
    ensures forall i :: 0 <= i < |Stripped(s)| ==> IsDigitOf(Stripped(s)[i], radix, upper)
  {
    if s != "" && s[|s| - 1] == '0' {
      StrippedDigits(s[..|s| - 1], radix, upper);
    }
  }

  lemma EmittedAreDigits(c: Conversion, word: nat)
    requires Valid(c) && word < WORD
    ensures forall i :: 0 <= i < |EmittedDigits(c, word)| ==> IsDigitOf(EmittedDigits(c, word)[i], c.radix, c.upper)
  {
    hide IsDigitOf, Numeral, Stripped, Magnitude;
    NumeralDigits(Magnitude(c, word), c.radix, c.upper);
    StrippedDigits(DigitText(c, word), c.radix, c.upper);
  }

  /** A mark that is no blank and no digit is in the output exactly when it is in the sign. */
  lemma MarkIsSign(c: Conversion, word: nat, mark: char)
    requires Valid(c) && word < WORD && mark != ' ' && !IsDigitOf(mark, c.radix, c.upper)
    ensures mark in Printed(c, word) <==> mark in Sign(c, word)
  {
    hide IsDigitOf, Sign, EmittedDigits, CodePad, DigitText, Magnitude;
    EmittedAreDigits(c, word);
    ZeroIsDigit(c.radix, c.upper);
    if Room(c, word) != 0 {
      LaidMarks(c, Sign(c, word), CodePad(c, word), EmittedDigits(c, word), Room(c, word), mark);
    }
  }

  lemma LaidMarks(c: Conversion, sign: string, pad: nat, digits: string, n: nat, mark: char)
    requires mark != ' ' && mark != '0' && mark !in digits
    ensures mark in Laid(c, sign, pad, digits, n) <==> mark in sign
  {
  }

  /**
   So the output of the code tells the sign for every width and precision: a plus sign exactly when the flags have one
   and the value of d or i is not negative, a minus sign exactly when it is, and an x or X exactly for a non-zero
   value of that letter with a number sign.
   */
  lemma OutputTellsSign(fmt: string, at: nat, p: Parts, argument: nat)
    requires IsConversion(fmt, at, p)
    ensures at <= p.flags <= p.width <= p.precision <= p.length < |fmt| && Valid(Asked(fmt, at, p))
    ensures var c, w, flags, letter := Asked(fmt, at, p), Word(fmt, at, p, argument), fmt[at..p.flags], fmt[p.length];
            var out := Printed(c, w);
            && ('+' in out <==> letter in "di" && Argument(c, w) >= 0 && '+' in flags)
            && ('-' in out <==> letter in "di" && Argument(c, w) < 0)
            && ('x' in out <==> letter == 'x' && '#' in flags && Argument(c, w) != 0)
            && ('X' in out <==> letter == 'X' && '#' in flags && Argument(c, w) != 0)
  {
    hide Printed, Sign, Argument, ReadBack, LengthAt, Word, IsFlag;
    SignFromText(fmt, at, p, argument);
    LetterIs(fmt, at, p);
    var c, w := Asked(fmt, at, p), Word(fmt, at, p, argument);
    MarkIsSign(c, w, '+');
    MarkIsSign(c, w, '-');
    MarkIsSign(c, w, 'x');
    MarkIsSign(c, w, 'X');
  }

  lemma LetterIs(fmt: string, at: nat, p: Parts)
    requires IsConversion(fmt, at, p)
    ensures at <= p.flags <= p.width <= p.precision <= p.length < |fmt| && Valid(Asked(fmt, at, p))
    ensures fmt[p.length] in "di" || fmt[p.length] in "ou" || fmt[p.length] == 'x' || fmt[p.length] == 'X'
  {
    hide ReadBack, LengthAt;
    OrderOf(fmt, at, p);
  }
}
