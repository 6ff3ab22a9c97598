/** The text that the terminal reads from a stream of bytes: UTF-8, with every control sequence around it. */
module EmulatorText {
  import opened Typing
  import opened Edits
  import opened Controls
  import opened Screens
  import opened Utf8
  import opened Emulators
  import opened EmulatorLaws

  /** The byte as the decoder hears it: one that the parser drops counts as CAN. */
  function HeardByte(s: State, c: Byte): Byte {
    if s.parser.discard then 0x18 else c
  }

  function Heard(t: Tables, s: State, bytes: seq<Byte>): (r: seq<Byte>)
    ensures |r| == |bytes|
  {
    if bytes == [] then []
    else
      var init := bytes[..|bytes| - 1];
      Heard(t, s, init) + [HeardByte(After(t, s, init), bytes[|bytes| - 1])]
  }

  /** The code point that the byte completes, if any; otherwise the byte goes elsewhere or is dropped. */
  function Completes(s: State, c: Byte): Verdict {
    Step(s.decoder, HeardByte(s, c)).1
  }

  /** A completed code point is what the byte puts on the screen. */
  lemma CompletedIsShown(t: Tables, s: State, c: Byte)
    ensures Completes(s, c).Emitted? ==> Next(t, s, c) == CodePoint(t, Decoded(s, c), Completes(s, c).codePoint)
  {
    hide Decoded, CodePoint;
    LowBytesPass(s.decoder, 0x18);
    LowBytesPass(s.decoder, c);
  }

  // ----- the decoder inside the terminal

  lemma CompleteDecoder(t: Tables, s: State, c: Byte)
    ensures Complete(t, s, c).decoder == s.decoder
  {
    hide Control, Defaulted, DefaultOf, DecModes;
    var f := s.(parser := s.parser.(values := Defaulted(s.parser.values, s.parser.count, DefaultOf(c as char))));
    DecModesParser(f.(parser := f.parser.(private := false)), Given(f.parser.values, f.parser.count), c == 'h' as Byte);
    ControlParser(t, f, c as char, Parameter(f, 0), Parameter(f, 1));
  }

  lemma SequenceDecoder(t: Tables, s: State, c: Byte)
    ensures Sequence(t, s, c).decoder == s.decoder
  {
    hide Complete, AfterC0, AppendDigit, Shows, Stored;
    CompleteDecoder(t, s.(parser := Closed(s.parser)), c);
  }

  lemma EscapeDecoder(t: Tables, s: State, c: Byte)
    requires s.decoder.remaining == 0
    ensures Escape(t, s, c).decoder == s.decoder
  {
    hide Sequence, LineFeed, ReverseLineFeed, Shows, Zeros;
    SequenceDecoder(t, Advanced(s, s.parser.offset + 1), c);
  }

  lemma CodePointDecoder(t: Tables, s: State, cp: nat)
    ensures CodePoint(t, s, cp).decoder == s.decoder
  {
    hide Printed, Shows, Repeated;
  }

  lemma DecodedDecoder(s: State, c: Byte)
    ensures Decoded(s, c).decoder == Step(s.decoder, c).0
  {
    hide Step, Printed, Shows;
  }

  /** Control sequences, resets and dropped bytes never disturb the decoder. */
  lemma NextDecoder(t: Tables, s: State, c: Byte)
    requires Aligned(s.decoder)
    ensures Next(t, s, c).decoder == Step(s.decoder, HeardByte(s, c)).0
  {
    hide Decoded, CodePoint, Escape, Ground, Shows;
    DecodedDecoder(s, c);
    StepAligned(s.decoder, c);
    match Step(s.decoder, c).1
    case Consumed =>
    case Emitted(cp) => CodePointDecoder(t, Decoded(s, c), cp);
    case Passed =>
      EscapeDecoder(t, Decoded(s, c), c);
      GroundStrays(Decoded(s, c), c);
  }

  /** Two decoders that treat every further byte alike. */
  predicate Agree(d: Decoder, e: Decoder) {
    d.remaining == e.remaining && (d.remaining > 0 ==> d.codePoint == e.codePoint)
  }

  lemma AgreeingSteps(d: Decoder, e: Decoder, c: Byte)
    requires Agree(d, e)
    ensures Step(d, c).1 == Step(e, c).1 && Agree(Step(d, c).0, Step(e, c).0)
  {
  }

  /** After every stream the decoder in the terminal stands where the bare decoder stands after the bytes as it hears
      them. */
  lemma {:induction false} DecoderRuns(t: Tables, s: State, bytes: seq<Byte>)
    requires Steady(s) && s.decoder.remaining == 0
    ensures Agree(After(t, s, bytes).decoder, Run(Heard(t, s, bytes), |bytes|))
  {
    hide OnScreen, SavedOnScreen, ParserOk, ModesOk, Next, Step;
    if bytes != [] {
      var n := |bytes| - 1;
      var init, last := bytes[..n], bytes[n];
      DecoderRuns(t, s, init);
      AfterKeeps(t, s, init);
      NextDecoder(t, After(t, s, init), last);
      RunPrefix(Heard(t, s, init), [HeardByte(After(t, s, init), last)], n);
      AgreeingSteps(After(t, s, init).decoder, Run(Heard(t, s, init), n), HeardByte(After(t, s, init), last));
    }
  }

  lemma {:induction false} RunPrefix(a: seq<Byte>, b: seq<Byte>, j: nat)
    requires j <= |a|
    ensures Run(a + b, j) == Run(a, j)
  {
    hide Step;
    if j > 0 {
      RunPrefix(a, b, j - 1);
    }
  }

  lemma {:induction false} HeardPrefix(t: Tables, s: State, bytes: seq<Byte>, k: nat)
    requires k <= |bytes|
    ensures Heard(t, s, bytes)[..k] == Heard(t, s, bytes[..k])
    ensures k < |bytes| ==> Heard(t, s, bytes)[k] == HeardByte(After(t, s, bytes[..k]), bytes[k])
    decreases |bytes|
  {
    hide After;
    if k == |bytes| {
      assert bytes[..k] == bytes;
    } else {
      var init := bytes[..|bytes| - 1];
      HeardPrefix(t, s, init, k);
      assert init[..k] == bytes[..k];
    }
  }

  /** None of the bytes i to j is dropped. */
  predicate NoneDropped(t: Tables, s: State, bytes: seq<Byte>, i: nat, j: nat) {
    forall k :: i <= k <= j && k < |bytes| ==> !After(t, s, bytes[..k]).parser.discard
  }

  /** A well-formed sequence ends at byte j, and the parser drops no byte of it. */
  predicate ArrivesAt(t: Tables, s: State, bytes: seq<Byte>, i: nat, j: nat) {
    EndsAt(bytes, i, j) && NoneDropped(t, s, bytes, i, j)
  }

  lemma CanIsNoPart(w: seq<Byte>, m: nat)
    requires m < |w| && w[m] == 0x18
    ensures !WellFormed(w)
  {
  }

  lemma HeardSequence(t: Tables, s: State, bytes: seq<Byte>, i: nat, j: nat)
    requires j < |bytes|
    ensures EndsAt(Heard(t, s, bytes), i, j) <==> ArrivesAt(t, s, bytes, i, j)
    ensures ArrivesAt(t, s, bytes, i, j) ==> i <= j && Heard(t, s, bytes)[i..j + 1] == bytes[i..j + 1]
  {
    hide After, WellFormed;
    if i <= j {
      var heard := Heard(t, s, bytes);
      forall k | i <= k <= j ensures heard[k] == HeardByte(After(t, s, bytes[..k]), bytes[k]) {
        HeardPrefix(t, s, bytes, k);
      }
      if NoneDropped(t, s, bytes, i, j) {
        assert heard[i..j + 1] == bytes[i..j + 1];
      } else {
        var k :| i <= k <= j && k < |bytes| && After(t, s, bytes[..k]).parser.discard;
        assert heard[i..j + 1][k - i] == heard[k];
        CanIsNoPart(heard[i..j + 1], k - i);
      }
    }
  }

  /**
   In every stream to the terminal, control sequences included, a code point is shown at byte j exactly when a well-
   formed sequence of RFC 3629 of which the parser drops no byte ends there, and it is the number of that sequence.
   */
  lemma TextArrivesExactly(t: Tables, s: State, bytes: seq<Byte>, j: nat)
    requires Steady(s) && s.decoder.remaining == 0 && j < |bytes|
    ensures Completes(After(t, s, bytes[..j]), bytes[j]).Emitted? <==> exists i: nat :: ArrivesAt(t, s, bytes, i, j)
    ensures forall i: nat :: ArrivesAt(t, s, bytes, i, j) ==>
              && 2 <= j + 1 - i <= 4
              && Completes(After(t, s, bytes[..j]), bytes[j]) == Emitted(Value(bytes[i..j + 1], j + 1 - i))
  {
    hide Steady, After, Step, Run, Value, EndsAt, ArrivesAt, HeardByte;
    var heard, before := Heard(t, s, bytes), After(t, s, bytes[..j]);
    HeardPrefix(t, s, bytes, j);
    DecoderRuns(t, s, bytes[..j]);
    assert heard == heard[..j] + heard[j..];
    RunPrefix(heard[..j], heard[j..], j);
    AgreeingSteps(before.decoder, Run(heard, j), heard[j]);
    EmitsExactly(heard, j);
    forall i: nat ensures EndsAt(heard, i, j) <==> ArrivesAt(t, s, bytes, i, j)
                  ensures ArrivesAt(t, s, bytes, i, j) ==> i <= j && heard[i..j + 1] == bytes[i..j + 1]
    {
      HeardSequence(t, s, bytes, i, j);
    }
  }
}
