/**
 The UTF-8 decoder in front of the terminal (the first half of flanterm_putchar) on values, against the byte grammar
 of RFC 3629, section 4.
 */
module Utf8 {

  newtype Byte = x: int | 0 <= x < 0x100

  /** Continuation bytes still to come, and the bits of the code point gathered so far. */
  datatype Decoder = Decoder(remaining: nat, codePoint: nat)

  const IDLE := Decoder(0, 0)

  /** What one byte does: it is consumed inside a sequence, completes a code point, or must be handled as a byte of
      its own. */
  datatype Verdict = Consumed | Emitted(codePoint: nat) | Passed

  /** Weight of the payload of a byte with n bytes after it. */
  function Place(n: nat): nat {
    if n == 0 then 1 else if n == 1 then 0x40 else if n == 2 then 0x1000 else 0x40000
  }

  predicate IsTail(c: Byte) {
    0x80 <= c <= 0xbf
  }

  predicate IsLead(c: Byte) {
    0xc2 <= c <= 0xf4
  }

  /** Number of bytes of the sequence that a lead byte opens. */
  function LeadLength(c: Byte): nat {
    if c <= 0xdf then 2 else if c <= 0xef then 3 else 4
  }

  /** The payload bits of a lead byte. */
  function LeadBits(c: Byte): nat {
    if c <= 0xdf then c as int % 0x20 else if c <= 0xef then c as int % 0x10 else c as int % 8
  }

  /** A byte outside a sequence: a lead byte starts one. */
  function Start(d: Decoder, c: Byte): (Decoder, Verdict) {
    if IsLead(c) then (Decoder(LeadLength(c) - 1, LeadBits(c) * Place(LeadLength(c) - 1)), Consumed)
    else (d.(remaining := 0), Passed)
  }

  /** The decoder's step; adding the payload bits is the same as or-ing them in, see OrStep. */
  function Step(d: Decoder, c: Byte): (Decoder, Verdict) {
    if d.remaining == 0 || !IsTail(c) then Start(d, c)
    else
      var left := d.remaining - 1;
      var cp := d.codePoint + TailBits(c) * Place(left);
      if (left == 1 && cp < 0x800) || (left == 2 && cp < 0x10000) || (left == 2 && cp > 0x10ffff)
      then Start(Decoder(0, cp), c)
      else if left != 0 then (Decoder(left, cp), Consumed)
      else if 0xd800 <= cp <= 0xdfff then Start(Decoder(0, cp), c)
      else (Decoder(0, cp), Emitted(cp))
  }

  /** The decoder after the first j bytes of a stream. */
  function Run(s: seq<Byte>, j: nat): Decoder
    requires j <= |s|
  {
    if j == 0 then IDLE else Step(Run(s, j - 1), s[j - 1]).0
  }

  /** What byte j of the stream does. */
  function VerdictAt(s: seq<Byte>, j: nat): Verdict
    requires j < |s|
  {
    Step(Run(s, j), s[j]).1
  }

  // ----- the grammar of RFC 3629, section 4

  predicate TwoBytes(s: seq<Byte>) {
    |s| == 2 && 0xc2 <= s[0] <= 0xdf && IsTail(s[1])
  }

  predicate ThreeBytes(s: seq<Byte>) {
    |s| == 3 && IsTail(s[2]) &&
    (
      || (s[0] == 0xe0 && 0xa0 <= s[1] <= 0xbf)
      || (0xe1 <= s[0] <= 0xec && IsTail(s[1]))
      || (s[0] == 0xed && 0x80 <= s[1] <= 0x9f)
      || (0xee <= s[0] <= 0xef && IsTail(s[1]))
    )
  }

  predicate FourBytes(s: seq<Byte>) {
    |s| == 4 && IsTail(s[2]) && IsTail(s[3]) &&
    (
      || (s[0] == 0xf0 && 0x90 <= s[1] <= 0xbf)
      || (0xf1 <= s[0] <= 0xf3 && IsTail(s[1]))
      || (s[0] == 0xf4 && 0x80 <= s[1] <= 0x8f)
    )
  }

  /** A well-formed sequence of more than one byte. */
  predicate WellFormed(s: seq<Byte>) {
    TwoBytes(s) || ThreeBytes(s) || FourBytes(s)
  }

  /** The payload of a byte after the lead. */
  function TailBits(c: Byte): nat {
    c as int % 0x40
  }

  /** The number that the first bytes of a sequence of n bytes stand for, zeros in place of the missing ones. */
  function Value(s: seq<Byte>, n: nat): nat
    requires 1 <= |s| <= n <= 4
  {
    LeadBits(s[0]) * Place(n - 1) +
    (if |s| >= 2 then TailBits(s[1]) * Place(n - 2) else 0) +
    (if |s| >= 3 then TailBits(s[2]) * Place(n - 3) else 0) +
    (if |s| >= 4 then TailBits(s[3]) else 0)
  }

  // ----- correctness over every stream

  /** A proper beginning of a sequence that may still become well-formed, up to surrogates. */
  predicate Prefix(s: seq<Byte>) {
    && 1 <= |s| && IsLead(s[0]) && |s| < LeadLength(s[0])
    && (forall k :: 1 <= k < |s| ==> IsTail(s[k]))
    && (|s| >= 2 && s[0] == 0xe0 ==> s[1] >= 0xa0)
    && (|s| >= 2 && s[0] == 0xf0 ==> s[1] >= 0x90)
    && (|s| >= 2 && s[0] == 0xf4 ==> s[1] <= 0x8f)
  }

  /** The last k bytes before j are such a beginning, and the decoder has gathered exactly them. */
  predicate Gathered(s: seq<Byte>, j: nat, k: nat, d: Decoder)
    requires k <= j <= |s|
  {
    && Prefix(s[j - k..j]) && d.remaining == LeadLength(s[j - k]) - k
    && d.codePoint == Value(s[j - k..j], LeadLength(s[j - k]))
  }

  /** What a step must do after the beginning p: go on, emit the finished sequence, or give it up and treat the byte
      afresh. */
  ghost predicate StepsRight(p: seq<Byte>, c: Byte, next: Decoder, v: Verdict)
    requires Prefix(p)
  {
    var n := LeadLength(p[0]);
    if Prefix(p + [c]) then next == Decoder(n - |p| - 1, Value(p + [c], n)) && v == Consumed
    else if WellFormed(p + [c]) then |p| + 1 == n && next.remaining == 0 && v == Emitted(Value(p + [c], n))
    else if IsLead(c) then (next, v) == Start(IDLE, c)
    else next.remaining == 0 && v == Passed
  }

  lemma StepAfterOne(a: Byte, c: Byte)
    requires IsLead(a)
    ensures var (next, v) := Step(Decoder(LeadLength(a) - 1, Value([a], LeadLength(a))), c); StepsRight([a], c, next, v)
  {
    assert [a] + [c] == [a, c];
  }

  lemma StepAfterTwoOfThree(a: Byte, b: Byte, c: Byte)
    requires Prefix([a, b]) && LeadLength(a) == 3
    ensures var (next, v) := Step(Decoder(1, Value([a, b], 3)), c); StepsRight([a, b], c, next, v)
  {
    assert [a, b] + [c] == [a, b, c];
    var cp := Value([a, b], 3);
    assert cp == (a as int - 0xe0) * 0x1000 + (b as int - 0x80) * 0x40;
    if IsTail(c) {
      assert TailBits(c) == c as int - 0x80 && Value([a, b, c], 3) == cp + TailBits(c);
      assert 0xd800 <= cp + TailBits(c) <= 0xdfff <==> a == 0xed && b >= 0xa0;
    }
  }

  lemma StepAfterTwoOfFour(a: Byte, b: Byte, c: Byte)
    requires Prefix([a, b]) && LeadLength(a) == 4
    ensures var (next, v) := Step(Decoder(2, Value([a, b], 4)), c); StepsRight([a, b], c, next, v)
  {
    assert [a, b] + [c] == [a, b, c];
    var cp := Value([a, b], 4);
    assert cp == (a as int - 0xf0) * 0x40000 + (b as int - 0x80) * 0x1000;
  }

  lemma StepAfterThree(a: Byte, b: Byte, t: Byte, c: Byte)
    requires Prefix([a, b, t])
    ensures var (next, v) := Step(Decoder(LeadLength(a) - 3, Value([a, b, t], LeadLength(a))), c);
            StepsRight([a, b, t], c, next, v)
  {
    assert [a, b, t] + [c] == [a, b, t, c];
  }

  /** One step from a gathered beginning. */
  lemma StepFromPrefix(p: seq<Byte>, c: Byte)
    requires Prefix(p)
    ensures var (next, v) := Step(Decoder(LeadLength(p[0]) - |p|, Value(p, LeadLength(p[0]))), c);
            StepsRight(p, c, next, v)
  {
    hide StepsRight, Step;
    if |p| == 1 {
      assert p == [p[0]];
      StepAfterOne(p[0], c);
    } else if |p| == 2 {
      assert p == [p[0], p[1]];
      if LeadLength(p[0]) == 3 {
        StepAfterTwoOfThree(p[0], p[1], c);
      } else {
        StepAfterTwoOfFour(p[0], p[1], c);
      }
    } else {
      assert p == [p[0], p[1], p[2]];
      StepAfterThree(p[0], p[1], p[2], c);
    }
  }

  /** In every stream, the bytes that the decoder has gathered before position j are the last k ones. */
  lemma {:induction false} Gathers(s: seq<Byte>, j: nat) returns (k: nat)
    requires j <= |s|
    ensures k <= j
    ensures if k == 0 then Run(s, j).remaining == 0 else Gathered(s, j, k, Run(s, j))
  {
    hide Step, Value, Prefix;
    k := 0;
    if j > 0 {
      var m := Gathers(s, j - 1);
      var d, c := Run(s, j - 1), s[j - 1];
      if m > 0 {
        var p := s[j - 1 - m..j - 1];
        assert s[j - 1 - m..j] == p + [c];
        PrefixLength(p);
        StepFromPrefix(p, c);
        if Prefix(p + [c]) {
          return m + 1;
        }
      }
      assert s[j - 1..j] == [c];
      StepIdle(d, c);
      if IsLead(c) {
        k := 1;
      }
    }
  }

  lemma PrefixLength(p: seq<Byte>)
    requires Prefix(p)
    ensures 1 <= |p| < LeadLength(p[0]) <= 4
  {
  }

  /** A lead byte always starts over, and so does any byte outside a sequence. */
  lemma StepIdle(d: Decoder, c: Byte)
    ensures IsLead(c) ==> Prefix([c]) && Step(d, c) == (Decoder(LeadLength(c) - 1, Value([c], LeadLength(c))), Consumed)
    ensures d.remaining == 0 && !IsLead(c) ==> Step(d, c).0.remaining == 0 && Step(d, c).1 == Passed
  {
  }

  lemma WellFormedPrefix(w: seq<Byte>, m: nat)
    requires WellFormed(w) && 1 <= m < |w|
    ensures Prefix(w[..m]) && LeadLength(w[0]) == |w| && IsLead(w[0])
  {
  }

  /** Inside a well-formed sequence at position i, the decoder gathers it whatever came before. */
  lemma {:induction false} GathersSequence(s: seq<Byte>, i: nat, e: nat, m: nat)
    requires i + m < e <= |s| && 1 <= m && WellFormed(s[i..e])
    ensures Prefix(s[i..i + m]) && Run(s, i + m) == Decoder(e - i - m, Value(s[i..i + m], e - i))
  {
    hide Step, Value, WellFormed;
    var w := s[i..e];
    WellFormedPrefix(w, m);
    assert w[..m] == s[i..i + m] && w[0] == s[i];
    if m == 1 {
      assert s[i..i + 1] == [s[i]];
      StepIdle(Run(s, i), s[i]);
    } else {
      GathersSequence(s, i, e, m - 1);
      var p := s[i..i + m - 1];
      assert p + [s[i + m - 1]] == s[i..i + m];
      StepFromPrefix(p, s[i + m - 1]);
    }
  }

  predicate EndsAt(s: seq<Byte>, i: nat, j: nat) {
    i <= j < |s| && WellFormed(s[i..j + 1])
  }

  /**
     In every byte stream a code point is emitted at position j exactly when a well-formed sequence of RFC 3629 ends
     there, and it is the number of that sequence: no overlong form, no surrogate, nothing above 0x10FFFF, and nothing
     lost.
     */
  lemma EmitsExactly(s: seq<Byte>, j: nat)
    requires j < |s|
    ensures VerdictAt(s, j).Emitted? <==> exists i: nat :: EndsAt(s, i, j)
    ensures forall i: nat ::
              EndsAt(s, i, j) ==> 2 <= j + 1 - i <= 4 && VerdictAt(s, j) == Emitted(Value(s[i..j + 1], j + 1 - i))
  {
    hide Step, Value, Run;
    forall i: nat | EndsAt(s, i, j)
      ensures 2 <= j + 1 - i <= 4 && VerdictAt(s, j) == Emitted(Value(s[i..j + 1], j + 1 - i))
    {
      assert |s[i..j + 1]| == j + 1 - i;
      EmitsSequence(s, i, j);
    }
    if VerdictAt(s, j).Emitted? {
      var i := EmittedIsWellFormed(s, j);
      assert EndsAt(s, i, j);
    }
  }

  lemma EmitsSequence(s: seq<Byte>, i: nat, j: nat)
    requires i < j < |s| && WellFormed(s[i..j + 1])
    ensures j + 1 - i <= 4 && VerdictAt(s, j) == Emitted(Value(s[i..j + 1], j + 1 - i))
  {
    hide Step, Value, Run;
    GathersSequence(s, i, j + 1, j - i);
    var p := s[i..j];
    assert p + [s[j]] == s[i..j + 1];
    WellFormedPrefix(s[i..j + 1], j - i);
    StepFromPrefix(p, s[j]);
  }

  lemma EmittedIsWellFormed(s: seq<Byte>, j: nat) returns (i: nat)
    requires j < |s| && VerdictAt(s, j).Emitted?
    ensures i <= j && WellFormed(s[i..j + 1])
  {
    hide Step, Value, Run;
    var k := Gathers(s, j);
    i := j - k;
    var p := s[j - k..j];
    if k > 0 {
      assert p + [s[j]] == s[i..j + 1];
      PrefixLength(p);
      StepFromPrefix(p, s[j]);
    } else {
      StepIdleVerdict(Run(s, j), s[j]);
    }
  }

  lemma StepIdleVerdict(d: Decoder, c: Byte)
    requires d.remaining == 0
    ensures !Step(d, c).1.Emitted?
  {
  }

  // ----- encoding, section 3 of RFC 3629

  predicate IsScalar(cp: nat) {
    cp <= 0x10ffff && !(0xd800 <= cp <= 0xdfff)
  }

  function Tail(bits: nat): Byte
    requires bits < 0x40
  {
    (0x80 + bits) as Byte
  }

  function Encode(cp: nat): seq<Byte>
    requires 0x80 <= cp && IsScalar(cp)
  {
    if cp < 0x800 then [(0xc0 + cp / 0x40) as Byte, Tail(cp % 0x40)]
    else if cp < 0x10000 then [(0xe0 + cp / 0x40 / 0x40) as Byte, Tail(cp / 0x40 % 0x40), Tail(cp % 0x40)]
    else [(0xf0 + cp / 0x40 / 0x40 / 0x40) as Byte, Tail(cp / 0x40 / 0x40 % 0x40), Tail(cp / 0x40 % 0x40),
          Tail(cp % 0x40)]
  }

  lemma EncodeTwo(a: nat, b: nat)
    requires 2 <= a < 0x20 && b < 0x40
    ensures var s := [(0xc0 + a) as Byte, Tail(b)]; WellFormed(s) && Value(s, 2) == a * 0x40 + b
  {
  }

  lemma EncodeThree(a: nat, b: nat, c: nat)
    requires a < 0x10 && b < 0x40 && c < 0x40
    requires a * 0x40 + b >= 0x20 && !(a == 0xd && b >= 0x20)
    ensures var s := [(0xe0 + a) as Byte, Tail(b), Tail(c)]; WellFormed(s) && Value(s, 3) == (a * 0x40 + b) * 0x40 + c
  {
  }

  lemma EncodeFour(a: nat, b: nat, c: nat, d: nat)
    requires a < 5 && b < 0x40 && c < 0x40 && d < 0x40
    requires 0x10 <= a * 0x40 + b < 0x110
    ensures var s := [(0xf0 + a) as Byte, Tail(b), Tail(c), Tail(d)];
            WellFormed(s) && Value(s, 4) == ((a * 0x40 + b) * 0x40 + c) * 0x40 + d
  {
  }

  lemma EncodingIsWellFormed(cp: nat)
    requires 0x80 <= cp && IsScalar(cp)
    ensures var s := Encode(cp); 2 <= |s| <= 4 && WellFormed(s) && Value(s, |s|) == cp
  {
    hide WellFormed, Value;
    if cp < 0x800 {
      EncodeTwo(cp / 0x40, cp % 0x40);
    } else if cp < 0x10000 {
      EncodeThree(cp / 0x40 / 0x40, cp / 0x40 % 0x40, cp % 0x40);
    } else {
      EncodeFour(cp / 0x40 / 0x40 / 0x40, cp / 0x40 / 0x40 % 0x40, cp / 0x40 % 0x40, cp % 0x40);
    }
  }

  lemma Parts(q: nat, r: nat)
    requires r < 0x40
    ensures (q * 0x40 + r) / 0x40 == q && (q * 0x40 + r) % 0x40 == r
  {
  }

  /** The well-formed sequences are exactly the encodings of scalar values: shortest form, no surrogates, at most
      0x10FFFF. */
  lemma WellFormedIsEncoding(s: seq<Byte>)
    requires WellFormed(s)
    ensures 0x80 <= Value(s, |s|) && IsScalar(Value(s, |s|)) && Encode(Value(s, |s|)) == s
  {
    hide Encode, Value;
    if |s| == 2 {
      TwoIsEncoding(s[0], s[1]);
      assert s == [s[0], s[1]];
    } else if |s| == 3 {
      ThreeIsEncoding(s[0], s[1], s[2]);
      assert s == [s[0], s[1], s[2]];
    } else {
      FourIsEncoding(s[0], s[1], s[2], s[3]);
      assert s == [s[0], s[1], s[2], s[3]];
    }
  }

  lemma TwoIsEncoding(a: Byte, b: Byte)
    requires TwoBytes([a, b])
    ensures var s := [a, b]; 0x80 <= Value(s, 2) && IsScalar(Value(s, 2)) && Encode(Value(s, 2)) == s
  {
    Parts(a as int - 0xc0, b as int - 0x80);
  }

  lemma ThreeIsEncoding(a: Byte, b: Byte, c: Byte)
    requires ThreeBytes([a, b, c])
    ensures var s := [a, b, c]; 0x80 <= Value(s, 3) && IsScalar(Value(s, 3)) && Encode(Value(s, 3)) == s
  {
    hide Encode;
    var x, y, z := a as int - 0xe0, b as int - 0x80, c as int - 0x80;
    assert Value([a, b, c], 3) == (x * 0x40 + y) * 0x40 + z;
    EncodeThreeParts(x, y, z);
  }

  lemma EncodeThreeParts(x: nat, y: nat, z: nat)
    requires x < 0x10 && y < 0x40 && z < 0x40 && 0x20 <= x * 0x40 + y
    requires IsScalar((x * 0x40 + y) * 0x40 + z)
    ensures Encode((x * 0x40 + y) * 0x40 + z) == [(0xe0 + x) as Byte, Tail(y), Tail(z)]
  {
    Parts(x * 0x40 + y, z);
    Parts(x, y);
  }

  lemma FourIsEncoding(a: Byte, b: Byte, c: Byte, d: Byte)
    requires FourBytes([a, b, c, d])
    ensures var s := [a, b, c, d]; 0x80 <= Value(s, 4) && IsScalar(Value(s, 4)) && Encode(Value(s, 4)) == s
  {
    hide Encode;
    var x, y, z, w := a as int - 0xf0, b as int - 0x80, c as int - 0x80, d as int - 0x80;
    assert Value([a, b, c, d], 4) == ((x * 0x40 + y) * 0x40 + z) * 0x40 + w;
    EncodeParts(x, y, z, w);
  }

  lemma EncodeParts(x: nat, y: nat, z: nat, w: nat)
    requires x < 5 && y < 0x40 && z < 0x40 && w < 0x40 && 0x10 <= x * 0x40 + y < 0x110
    ensures Encode(((x * 0x40 + y) * 0x40 + z) * 0x40 + w) == [(0xf0 + x) as Byte, Tail(y), Tail(z), Tail(w)]
  {
    Parts((x * 0x40 + y) * 0x40 + z, w);
    Parts(x * 0x40 + y, z);
    Parts(x, y);
  }

  /** Decoding the encoding of a scalar value gives it back, after any bytes. */
  lemma RoundTrip(before: seq<Byte>, cp: nat)
    requires 0x80 <= cp && IsScalar(cp)
    ensures |Encode(cp)| > 0 && VerdictAt(before + Encode(cp), |before + Encode(cp)| - 1) == Emitted(cp)
  {
    hide Encode, Value, VerdictAt;
    EncodingIsWellFormed(cp);
    var s := before + Encode(cp);
    assert s[|before|..|s|] == Encode(cp);
    EmitsExactly(s, |s| - 1);
    assert EndsAt(s, |before|, |s| - 1);
  }

  // ----- or-ing in the payload

  /** The bitwise or of two numbers. */
  function Or(a: nat, b: nat): nat {
    if a == 0 then b else if b == 0 then a else 2 * Or(a / 2, b / 2) + (if a % 2 == 1 || b % 2 == 1 then 1 else 0)
  }

  function TwoTo(k: nat): nat {
    if k == 0 then 1 else 2 * TwoTo(k - 1)
  }

  /** Or-ing in bits below those of a adds them. */
  lemma {:induction false} OrBelow(a: nat, b: nat, k: nat)
    requires b < TwoTo(k) && exists q: nat :: a == q * TwoTo(k)
    ensures Or(a, b) == a + b
  {
    if a != 0 && b != 0 {
      var q: nat :| a == q * TwoTo(k);
      var half := TwoTo(k - 1);
      Halved(a, q, half);
      OrBelow(a / 2, b / 2, k - 1);
    }
  }

  lemma Halved(a: nat, q: nat, half: nat)
    requires a == q * (2 * half)
    ensures a % 2 == 0 && a / 2 == q * half
  {
    assert a == (q * half) * 2;
  }

  /** The bits gathered so far are above those of the bytes still to come. */
  predicate Aligned(d: Decoder) {
    d.remaining <= 3 && (d.remaining > 0 ==> d.codePoint % Place(d.remaining) == 0)
  }

  lemma StartAligned(d: Decoder, c: Byte)
    ensures Aligned(Start(d, c).0) && (Start(d, c).1.Passed? ==> Start(d, c).0.remaining == 0)
            && !Start(d, c).1.Emitted?
  {
    hide LeadBits;
  }

  lemma TailAligned(cp: nat, b: nat, left: nat)
    requires left <= 2 && cp % Place(left + 1) == 0
    ensures (cp + b * Place(left)) % Place(left) == 0
  {
    if left == 1 {
      assert cp + b * 0x40 == (cp / 0x1000 * 0x40 + b) * 0x40;
    } else if left == 2 {
      assert cp + b * 0x1000 == (cp / 0x40000 * 0x40 + b) * 0x1000;
    }
  }

  lemma StepAligned(d: Decoder, c: Byte)
    requires Aligned(d)
    ensures Aligned(Step(d, c).0)
    ensures Step(d, c).1.Passed? || Step(d, c).1.Emitted? ==> Step(d, c).0.remaining == 0
  {
    hide Start, Place, TailBits;
    StartAligned(d, c);
    if d.remaining > 0 && IsTail(c) {
      var left := d.remaining - 1;
      StartAligned(Decoder(0, d.codePoint + TailBits(c) * Place(left)), c);
      TailAligned(d.codePoint, TailBits(c), left);
    }
  }

  /** The code's own step, which ors the payload of a continuation byte into the code point. */
  function StepByOr(d: Decoder, c: Byte): (Decoder, Verdict) {
    if d.remaining == 0 || !IsTail(c) then Start(d, c)
    else
      var left := d.remaining - 1;
      var cp := Or(d.codePoint, TailBits(c) * Place(left));
      if (left == 1 && cp < 0x800) || (left == 2 && cp < 0x10000) || (left == 2 && cp > 0x10ffff)
      then Start(Decoder(0, cp), c)
      else if left != 0 then (Decoder(left, cp), Consumed)
      else if 0xd800 <= cp <= 0xdfff then Start(Decoder(0, cp), c)
      else (Decoder(0, cp), Emitted(cp))
  }

  lemma OrIsSum(d: Decoder, c: Byte)
    requires Aligned(d) && d.remaining > 0
    ensures Or(d.codePoint, TailBits(c) * Place(d.remaining - 1)) == d.codePoint + TailBits(c) * Place(d.remaining - 1)
  {
    PlaceIsPower();
    assert d.codePoint == (d.codePoint / Place(d.remaining)) * Place(d.remaining);
    OrBelow(d.codePoint, TailBits(c) * Place(d.remaining - 1), 6 * d.remaining);
  }

  lemma PlaceIsPower()
    ensures Place(1) == TwoTo(6) && Place(2) == TwoTo(12) && Place(3) == TwoTo(18)
  {
    assert TwoTo(6) == 0x40;
    assert TwoTo(12) == 0x40 * TwoTo(6);
    assert TwoTo(18) == 0x40 * TwoTo(12);
  }

  lemma OrStep(d: Decoder, c: Byte)
    requires Aligned(d)
    ensures StepByOr(d, c) == Step(d, c)
  {
    if d.remaining > 0 {
      OrIsSum(d, c);
    }
  }

  /** In every stream the bits gathered so far never overlap those of the next byte, so or-ing is the adding of
      `Step`. */
  lemma {:induction false} BitsDoNotOverlap(s: seq<Byte>, j: nat, c: Byte)
    requires j <= |s|
    ensures Aligned(Run(s, j)) && StepByOr(Run(s, j), c) == Step(Run(s, j), c)
  {
    hide Step, StepByOr;
    if j > 0 {
      BitsDoNotOverlap(s, j - 1, c);
      StepAligned(Run(s, j - 1), s[j - 1]);
    }
    OrStep(Run(s, j), c);
  }
}
