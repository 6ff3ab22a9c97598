/** What streams of bytes amount to: safety over runs, and whole sequences as single steps. */
module EmulatorRuns {
  import opened Cells
  import opened Typing
  import opened Edits
  import opened Controls
  import opened Screens
  import opened Utf8
  import opened Emulators
  import opened EmulatorLaws

  // ----- runs

  lemma {:induction false} AfterBoth(t: Tables, s: State, a: seq<Byte>, b: seq<Byte>)
    ensures After(t, s, a + b) == After(t, After(t, s, a), b)
  {
    hide Next;
    if b == [] {
      assert a + b == a;
    } else {
      assert (a + b)[..|a + b| - 1] == a + b[..|b| - 1];
      AfterBoth(t, s, a, b[..|b| - 1]);
    }
  }

  lemma AfterOne(t: Tables, s: State, c: Byte)
    ensures After(t, s, [c]) == Next(t, s, c)
  {
    hide Next;
    assert [c][..0] == [];
  }

  // ----- the origin region

  /** No byte from position `from` on completes ESC c. */
  predicate NoReset(t: Tables, s: State, bytes: seq<Byte>, from: nat) {
    forall j :: from <= j < |bytes| ==> !Resets(After(t, s, bytes[..j]), bytes[j])
  }

  /** Byte i executes a SCORC that takes the cursor out of the region. */
  predicate LeavesAt(t: Tables, s: State, bytes: seq<Byte>, i: nat) {
    i < |bytes| && LeavesRegion(After(t, s, bytes[..i]), bytes[i])
  }

  lemma PrefixResets(t: Tables, s: State, bytes: seq<Byte>, from: nat)
    requires bytes != []
    ensures var n := |bytes| - 1;
            NoReset(t, s, bytes, from)
            <==> NoReset(t, s, bytes[..n], from) && (from <= n ==> !Resets(After(t, s, bytes[..n]), bytes[n]))
  {
    hide After, Resets;
    var n := |bytes| - 1;
    var init := bytes[..n];
    assert forall j :: 0 <= j < n ==> init[..j] == bytes[..j] && init[j] == bytes[j];
  }

  /** It does, and no ESC c follows. */
  predicate LastsFrom(t: Tables, s: State, bytes: seq<Byte>, i: nat) {
    LeavesAt(t, s, bytes, i) && NoReset(t, s, bytes, i + 1)
  }

  lemma PrefixLasts(t: Tables, s: State, bytes: seq<Byte>, i: nat)
    requires i < |bytes| - 1
    ensures var n := |bytes| - 1;
            LastsFrom(t, s, bytes, i) <==> LastsFrom(t, s, bytes[..n], i) && !Resets(After(t, s, bytes[..n]), bytes[n])
  {
    hide After, LeavesRegion, Resets, NoReset;
    assert bytes[..|bytes| - 1][..i] == bytes[..i];
    PrefixResets(t, s, bytes, i + 1);
  }

  /** Over every stream, the flag is set exactly when after the last ESC c some CSI u took the cursor out of the
      region. */
  lemma {:induction false} RunStrays(t: Tables, s: State, bytes: seq<Byte>)
    requires Steady(s)
    ensures After(t, s, bytes).options.strayed <==>
              (s.options.strayed && NoReset(t, s, bytes, 0)) || exists i :: LastsFrom(t, s, bytes, i)
  {
    hide Steady, Safe, Next, Resets, LeavesRegion, NoReset;
    if bytes == [] {
      NothingResets(t, s);
    } else {
      var n := |bytes| - 1;
      var init := bytes[..n];
      RunStrays(t, s, init);
      AfterKeeps(t, s, init);
      StraysExactly(t, After(t, s, init), bytes[n]);
      PrefixResets(t, s, bytes, 0);
      NoneAfter(t, s, bytes);
      assert LeavesRegion(After(t, s, init), bytes[n]) <==> LastsFrom(t, s, bytes, n);
      forall i: nat | i < n
        ensures LastsFrom(t, s, bytes, i) <==> LastsFrom(t, s, init, i) && !Resets(After(t, s, init), bytes[n]) {
        PrefixLasts(t, s, bytes, i);
      }
    }
  }

  lemma NothingResets(t: Tables, s: State)
    ensures NoReset(t, s, [], 0)
  {
  }

  lemma NoneAfter(t: Tables, s: State, bytes: seq<Byte>)
    ensures NoReset(t, s, bytes, |bytes|)
  {
  }

  /** In origin mode the cursor is in the scrolling region after every stream in which no CSI u takes it out. */
  lemma OriginIsSafe(t: Tables, s: State, bytes: seq<Byte>)
    requires Safe(s) && !s.options.strayed
    requires forall i: nat :: !LeavesAt(t, s, bytes, i)
    ensures InOrigin(After(t, s, bytes)) && !After(t, s, bytes).options.strayed
  {
    hide OnScreen, SavedOnScreen, Next, InOrigin, LeavesAt;
    AfterKeeps(t, s, bytes);
    RunStrays(t, s, bytes);
  }

  /** The cursor is in the region throughout the stream. */
  predicate InOriginThroughout(t: Tables, s: State, bytes: seq<Byte>) {
    forall k :: 0 <= k <= |bytes| ==> InOrigin(After(t, s, bytes[..k]))
  }

  lemma PrefixLeavesNot(t: Tables, s: State, bytes: seq<Byte>, k: nat, i: nat)
    requires k <= |bytes| && !LeavesAt(t, s, bytes, i)
    ensures !LeavesAt(t, s, bytes[..k], i)
  {
    hide After, LeavesRegion;
    if i < k {
      assert bytes[..k][..i] == bytes[..i];
    }
  }

  lemma LeavingShows(t: Tables, s: State, bytes: seq<Byte>, i: nat)
    requires Steady(s) && LeavesAt(t, s, bytes, i)
    ensures i < |bytes| && !InOrigin(After(t, s, bytes[..i + 1]))
  {
    hide Steady, Safe, Next, LeavesRegion, InOrigin;
    AfterKeeps(t, s, bytes[..i]);
    assert bytes[..i + 1][..i] == bytes[..i];
    LeavesAndIsOut(t, After(t, s, bytes[..i]), bytes[i]);
  }

  /**
   The exact condition: over every stream from a safe state the cursor, and the saved one, stay in the region while
   positions count from it, if and only if no CSI u is executed in origin mode with a stored row outside the region.
   */
  lemma OriginIsSafeExactly(t: Tables, s: State, bytes: seq<Byte>)
    requires Safe(s) && !s.options.strayed
    ensures InOriginThroughout(t, s, bytes) <==> forall i: nat :: !LeavesAt(t, s, bytes, i)
  {
    hide Steady, After, InOrigin, LeavesAt;
    SafeIsSteady(s);
    if forall i: nat :: !LeavesAt(t, s, bytes, i) {
      forall k | 0 <= k <= |bytes| ensures InOrigin(After(t, s, bytes[..k])) {
        forall i: nat ensures !LeavesAt(t, s, bytes[..k], i) {
          PrefixLeavesNot(t, s, bytes, k, i);
        }
        OriginIsSafe(t, s, bytes[..k]);
      }
    } else {
      var i: nat :| LeavesAt(t, s, bytes, i);
      LeavingShows(t, s, bytes, i);
    }
  }

  lemma SafeIsSteady(s: State)
    requires Safe(s)
    ensures Steady(s)
  {
  }

  // ----- saved state

  /** Is the byte read as the one after ESC? */
  predicate FollowsEscape(s: State) {
    s.parser.escape && !s.parser.csi && (s.parser.osc ==> s.parser.oscEscape) && !s.parser.discard
  }

  /** Does the byte overwrite the saved state: ESC 7, ESC c, or mode 1049 set? */
  predicate Saves(s: State, c: Byte) {
    || (FollowsEscape(s) && (c == '7' as Byte || c == 'c' as Byte))
    || (s.parser.csi && s.parser.private && !s.parser.discard && c == 'h' as Byte
        && 1049 in Given(Closed(s.parser).values, Closed(s.parser).count))
  }

  predicate SameSaved(s: State, r: State) {
    && r.saved == s.saved && r.look.savedX == s.look.savedX && r.look.savedY == s.look.savedY
    && r.look.savedFg == s.look.savedFg && r.look.savedBg == s.look.savedBg
  }

  lemma {:induction false} DecModesSaved(s: State, values: seq<Word32>, on: bool)
    requires on ==> 1049 !in values
    ensures SameSaved(s, DecModes(s, values, on))
  {
    if values != [] {
      DecModesSaved(s, values[..|values| - 1], on);
    }
  }

  lemma ControlSaved(t: Tables, s: State, c: char, n: nat, q: nat)
    ensures SameSaved(s, Control(t, s, c, n, q))
  {
    hide AfterControl, Margins, Repeated, Shows, Clamp;
  }

  /** Filling in defaults makes no parameter 1049. */
  lemma DefaultsGive(values: seq<Word32>, n: nat, d: Word32)
    requires d <= 1 && n <= |values|
    ensures 1049 in Given(Defaulted(values, n, d), n) ==> 1049 in Given(values, n)
  {
    var given := Given(Defaulted(values, n, d), n);
    if 1049 in given {
      var i :| 0 <= i < |given| && given[i] == 1049;
      assert Given(values, n)[i] == values[i];
    }
  }

  lemma CompleteSaved(t: Tables, s: State, c: Byte)
    requires s.parser.count <= |s.parser.values|
    requires s.parser.private && c == 'h' as Byte ==> 1049 !in Given(s.parser.values, s.parser.count)
    ensures SameSaved(s, Complete(t, s, c))
  {
    hide Control, Defaulted, Given, DecModes;
    var p := s.parser;
    var f := s.(parser := p.(values := Defaulted(p.values, p.count, DefaultOf(c as char))));
    DefaultsGive(p.values, p.count, DefaultOf(c as char));
    if p.private && (c == 'h' as Byte || c == 'l' as Byte) {
      DecModesSaved(f.(parser := f.parser.(private := false)), Given(f.parser.values, f.parser.count),
                    c == 'h' as Byte);
    }
    ControlSaved(t, f, c as char, Parameter(f, 0), Parameter(f, 1));
  }

  lemma SequenceSaved(t: Tables, s: State, c: Byte)
    requires ParserOk(s.parser)
    requires s.parser.private && c == 'h' as Byte ==> 1049 !in Given(Closed(s.parser).values, Closed(s.parser).count)
    ensures SameSaved(s, Sequence(t, s, c))
  {
    hide Complete, AfterC0, AppendDigit, Shows, Stored, Given;
    if c != ';' as Byte && !IsDigit(c) {
      CompleteSaved(t, s.(parser := Closed(s.parser)), c);
    }
  }

  lemma EscapeSaved(t: Tables, s: State, c: Byte)
    requires Steady(s) && s.parser.escape && !s.parser.discard && !Saves(s, c)
    ensures SameSaved(s, Escape(t, s, c))
  {
    hide Sequence, LineFeed, ReverseLineFeed, Shows, Zeros, Given;
    AdvancedKeeps(s, s.parser.offset + 1);
    if s.parser.csi {
      SequenceSaved(t, Advanced(s, s.parser.offset + 1), c);
    }
  }

  lemma DecodedSaved(s: State, c: Byte)
    ensures SameSaved(s, Decoded(s, c))
  {
    hide Step, Printed, Shows;
  }

  lemma CodePointSaved(t: Tables, s: State, cp: nat)
    ensures SameSaved(s, CodePoint(t, s, cp))
  {
    hide Printed, Shows, Repeated;
  }

  lemma GroundSaved(s: State, c: Byte)
    ensures SameSaved(s, Ground(s, c))
  {
    hide ControlChar, Graphic, Renamed, GlyphOfByte;
    var p := s.(parser := s.parser.(gSelect := 0));
    ControlCharLeaves(Forgotten(p), c);
    GraphicLeaves(p, GlyphOfByte(p.modes, c), 1);
  }

  /** Nothing but ESC 7, ESC c and mode 1049 overwrites the saved state. */
  lemma SavedStays(t: Tables, s: State, c: Byte)
    requires Steady(s) && !Saves(s, c)
    ensures SameSaved(s, Next(t, s, c))
  {
    hide OnScreen, SavedOnScreen, InOrigin, ParserOk, ModesOk, Decoded, Escape, Ground, CodePoint, Step, Given, Closed;
    DecodedSaved(s, c);
    DecodedStrays(s, c);
    DecodedKeeps(s, c);
    match Step(s.decoder, c).1
    case Consumed =>
    case Emitted(cp) => CodePointSaved(t, Decoded(s, c), cp);
    case Passed =>
      if !s.parser.discard && s.parser.escape {
        EscapeSaved(t, Decoded(s, c), c);
      } else {
        GroundSaved(Decoded(s, c), c);
      }
  }

  /** No byte of the stream overwrites the saved state. */
  predicate NoSave(t: Tables, s: State, bytes: seq<Byte>) {
    forall j :: 0 <= j < |bytes| ==> !Saves(After(t, s, bytes[..j]), bytes[j])
  }

  lemma {:induction false} RunKeepsSaved(t: Tables, s: State, bytes: seq<Byte>)
    requires Steady(s) && NoSave(t, s, bytes)
    ensures SameSaved(s, After(t, s, bytes))
  {
    hide Steady, Safe, Next, Saves;
    if bytes != [] {
      var init := bytes[..|bytes| - 1];
      assert forall j :: 0 <= j < |init| ==> init[..j] == bytes[..j] && init[j] == bytes[j];
      RunKeepsSaved(t, s, init);
      AfterKeeps(t, s, init);
      SavedStays(t, After(t, s, init), bytes[|bytes| - 1]);
    }
  }

  /** The parser is between sequences. */
  predicate Idle(s: State) {
    s.decoder.remaining == 0 && !s.parser.discard && !s.parser.escape && !s.parser.csi && !s.parser.osc
    && s.parser.gSelect == 0
  }

  const ESC: Byte := 0x1b

  /** A byte below 0x80 that no sequence of code points claims. */
  lemma SingleStep(t: Tables, s: State, c: Byte)
    requires s.decoder.remaining == 0 && !s.parser.discard && c < 0x80 && c != 0x18 && c != 0x1a
    ensures Next(t, s, c) == Single(t, s, c)
  {
    hide Single;
    assert Step(s.decoder, c) == (s.decoder, Passed);
    assert Decoded(s, c) == s;
  }

  /** ESC and the byte after it, between sequences. */
  lemma EscapeRuns(t: Tables, s: State, c: Byte)
    requires Idle(s) && c < 0x80 && c != 0x18 && c != 0x1a
    ensures After(t, s, [ESC, c]) == AfterEscape(t, s.(parser := s.parser.(offset := 1, escape := true)), c)
  {
    hide AfterEscape, Next;
    assert [ESC, c] == [ESC] + [c];
    AfterBoth(t, s, [ESC], [c]);
    AfterOne(t, s, ESC);
    SingleStep(t, s, ESC);
    var e := s.(parser := s.parser.(offset := 0, escape := true));
    assert Single(t, s, ESC) == e;
    AfterOne(t, e, c);
    SingleStep(t, e, c);
  }

  /**
   ESC 7, any bytes that do not overwrite the saved state, and ESC 8 between sequences: cursor, colours, margins,
   character sets, wrapping and origin mode are as they were.
   */
  lemma SaveBrackets(t: Tables, s: State, bytes: seq<Byte>)
    requires Steady(s) && Idle(s)
    requires var a := After(t, s, [ESC, '7' as Byte]); NoSave(t, a, bytes) && Idle(After(t, a, bytes))
    ensures var r := After(t, s, [ESC, '7' as Byte] + bytes + [ESC, '8' as Byte]);
            && r.modes == s.modes && r.look.pic.x == s.look.pic.x && r.look.pic.y == s.look.pic.y
            && r.look.fg == s.look.fg && r.look.bg == s.look.bg && Idle(r)
  {
    hide Steady, Safe, Next, NoSave;
    var save, restore := [ESC, '7' as Byte], [ESC, '8' as Byte];
    var a := After(t, s, save);
    AfterKeeps(t, s, save);
    EscapeRuns(t, s, '7' as Byte);
    RunKeepsSaved(t, a, bytes);
    EscapeRuns(t, After(t, a, bytes), '8' as Byte);
    AfterBoth(t, s, save, bytes);
    AfterBoth(t, s, save + bytes, restore);
  }

  // ----- whole control sequences

  function ReadDigits(ds: seq<Word32>): Word32
    requires forall i :: 0 <= i < |ds| ==> ds[i] < 10
  {
    if ds == [] then 0 else AppendDigit(ReadDigits(ds[..|ds| - 1]), ds[|ds| - 1])
  }

  function Numeral(ds: seq<Word32>): nat {
    if ds == [] then 0 else Numeral(ds[..|ds| - 1]) * 10 + ds[|ds| - 1] as nat
  }

  /** A parameter is read as the number it spells exactly when that number fits in 32 bits. */
  lemma {:induction false} ReadsExactly(ds: seq<Word32>)
    requires forall i :: 0 <= i < |ds| ==> ds[i] < 10
    ensures ReadDigits(ds) as nat == Numeral(ds) <==> Numeral(ds) < 0x1_0000_0000
    ensures ReadDigits(ds) as nat <= Numeral(ds)
    decreases |ds|
  {
    if ds != [] {
      ReadsExactly(ds[..|ds| - 1]);
    }
  }

  /** Length of the longest beginning whose number fits in 32 bits. */
  function Fitting(ds: seq<Word32>): (k: nat)
    ensures k <= |ds|
  {
    if ds == [] || Numeral(ds) < 0x1_0000_0000 then |ds| else Fitting(ds[..|ds| - 1])
  }

  lemma {:induction false} LongerIsLarger(ds: seq<Word32>, k: nat)
    requires k <= |ds|
    ensures Numeral(ds[..k]) <= Numeral(ds)
    decreases |ds|
  {
    if k == |ds| {
      assert ds[..k] == ds;
    } else {
      assert ds[..|ds| - 1][..k] == ds[..k];
      LongerIsLarger(ds[..|ds| - 1], k);
    }
  }

  /** Of a number that does not fit, the longest beginning that does is read, with the digits after it dropped; only
      when that is 2^32 / 10 rounded down the parameter becomes the largest number. */
  lemma {:induction false} ReadsBeginning(ds: seq<Word32>)
    requires forall i :: 0 <= i < |ds| ==> ds[i] < 10
    ensures ReadDigits(ds) as nat == if Fitting(ds) == |ds| then Numeral(ds)
                                     else if Numeral(ds[..Fitting(ds)]) == 0xffff_ffff / 10 then 0xffff_ffff
                                     else Numeral(ds[..Fitting(ds)])
    ensures Fitting(ds) < |ds| ==> Numeral(ds[..Fitting(ds)]) >= 0xffff_ffff / 10
    decreases |ds|
  {
    if ds != [] {
      var init := ds[..|ds| - 1];
      ReadsBeginning(init);
      LongerIsLarger(ds, |init|);
      assert init[..Fitting(init)] == ds[..Fitting(init)] && init[..|init|] == init;
    }
  }

  predicate AllDigits(parameters: seq<seq<Word32>>) {
    forall k, i :: 0 <= k < |parameters| && 0 <= i < |parameters[k]| ==> parameters[k][i] < 10
  }

  /** The bytes of the digits, and of parameters separated by semicolons. */
  function Digits(ds: seq<Word32>): (r: seq<Byte>)
    requires forall i :: 0 <= i < |ds| ==> ds[i] < 10
    ensures |r| == |ds|
  {
    seq(|ds|, i requires 0 <= i < |ds| => '0' as Byte + ds[i] as Byte)
  }

  function Spelled(parameters: seq<seq<Word32>>): seq<Byte>
    requires AllDigits(parameters)
  {
    if |parameters| == 0 then []
    else if |parameters| == 1 then Digits(parameters[0])
    else Spelled(parameters[..|parameters| - 1]) + [';' as Byte] + Digits(parameters[|parameters| - 1])
  }

  /** The parameter buffer after the first k parameters. */
  function Sent(parameters: seq<seq<Word32>>, k: nat): (r: seq<Word32>)
    requires k <= |parameters| && AllDigits(parameters)
    ensures |r| == MAX_VALUES
  {
    seq(MAX_VALUES, i requires 0 <= i < MAX_VALUES => if i < k then ReadDigits(parameters[i]) else 0)
  }

  /** Inside a control sequence, between code points. */
  predicate InSequence(s: State) {
    s.decoder.remaining == 0 && !s.parser.discard && s.parser.escape && s.parser.csi && !s.parser.osc
    && |s.parser.values| == MAX_VALUES
  }

  /** The sequence with its parameters read: the last one is still open if it has digits. */
  function Reading(s: State, parameters: seq<seq<Word32>>): State
    requires AllDigits(parameters) && parameters != []
  {
    s.(parser := s.parser.(values := Sent(parameters, |parameters|), count := |parameters| - 1,
                           inside := parameters[|parameters| - 1] != []))
  }

  /** Equal but for the count of bytes since ESC. */
  predicate SameButOffset(s: State, r: State) {
    r == s.(parser := s.parser.(offset := r.parser.offset))
  }

  /** A byte of a control sequence other than one right after CSI. */
  lemma SequenceStep(t: Tables, s: State, c: Byte)
    requires InSequence(s) && c < 0x80 && c != 0x18 && c != 0x1a
    ensures Next(t, s, c) == Sequence(t, Advanced(s, s.parser.offset + 1), c)
  {
    hide Sequence, Next;
    SingleStep(t, s, c);
  }

  lemma {:induction false} DigitsRun(t: Tables, s: State, ds: seq<Word32>)
    requires InSequence(s) && !s.parser.inside && s.parser.count < MAX_VALUES && s.parser.values[s.parser.count] == 0
    requires forall i :: 0 <= i < |ds| ==> ds[i] < 10
    ensures SameButOffset(s.(parser := s.parser.(inside := ds != [],
                                                 values := s.parser.values[s.parser.count := ReadDigits(ds)])),
                          After(t, s, Digits(ds)))
    decreases |ds|
  {
    hide Next, AppendDigit;
    if ds == [] {
      assert s.parser.values[s.parser.count := 0] == s.parser.values;
    } else {
      var n := |ds| - 1;
      var c := '0' as Byte + ds[n] as Byte;
      DigitsRun(t, s, ds[..n]);
      assert Digits(ds)[..n] == Digits(ds[..n]) && Digits(ds)[n] == c;
      var r := After(t, s, Digits(ds[..n]));
      SequenceStep(t, r, c);
      assert s.parser.values[s.parser.count := ReadDigits(ds[..n])][s.parser.count := ReadDigits(ds)]
          == s.parser.values[s.parser.count := ReadDigits(ds)];
    }
  }

  lemma SentMore(parameters: seq<seq<Word32>>, k: nat)
    requires k < |parameters| <= MAX_VALUES && AllDigits(parameters)
    ensures Sent(parameters, k)[k] == 0
    ensures Sent(parameters, k + 1) == Sent(parameters, k)[k := ReadDigits(parameters[k])]
    ensures Sent(parameters[..k], k) == Sent(parameters, k)
    ensures k > 0 && parameters[k - 1] == [] ==> Sent(parameters, k)[k - 1 := 0] == Sent(parameters, k)
  {
  }

  lemma NothingSent(parameters: seq<seq<Word32>>)
    requires AllDigits(parameters)
    ensures Sent(parameters, 0) == Zeros()
  {
  }

  lemma SeparatorRuns(t: Tables, s: State)
    requires InSequence(s) && s.parser.count < MAX_VALUES
    ensures SameButOffset(s.(parser := s.parser.(inside := false, count := s.parser.count + 1,
                                                 values := if s.parser.inside then s.parser.values
                                                           else s.parser.values[s.parser.count := 0])),
                          Next(t, s, ';' as Byte))
  {
    hide Next;
    SequenceStep(t, s, ';' as Byte);
  }

  /** The parameters of a control sequence are read one by one, wherever the screen is. */
  lemma {:induction false} ParametersRun(t: Tables, s: State, parameters: seq<seq<Word32>>)
    requires InSequence(s) && !s.parser.inside && s.parser.count == 0 && s.parser.values == Zeros()
    requires AllDigits(parameters) && 1 <= |parameters| <= MAX_VALUES
    ensures SameButOffset(Reading(s, parameters), After(t, s, Spelled(parameters)))
    decreases |parameters|
  {
    hide Next, After, Digits, ReadDigits, Sent, Zeros;
    var n := |parameters| - 1;
    NothingSent(parameters);
    SentMore(parameters, n);
    if n == 0 {
      DigitsRun(t, s, parameters[0]);
    } else {
      var init := parameters[..n];
      ParametersRun(t, s, init);
      var r := After(t, s, Spelled(init));
      AfterBoth(t, s, Spelled(init), [';' as Byte]);
      AfterOne(t, r, ';' as Byte);
      SeparatorRuns(t, r);
      AfterBoth(t, s, Spelled(init) + [';' as Byte], Digits(parameters[n]));
      DigitsRun(t, Next(t, r, ';' as Byte), parameters[n]);
    }
  }

  /** Number of parameters that count as given: an empty last one does not. */
  function GivenCount(parameters: seq<seq<Word32>>): nat
    requires parameters != []
  {
    if parameters[|parameters| - 1] != [] then |parameters| else |parameters| - 1
  }

  /** What the parameters amount to for the final byte c: missing ones and zeros are the default. */
  function Meant(parameters: seq<seq<Word32>>, c: char): (r: seq<Word32>)
    requires AllDigits(parameters) && parameters != []
    ensures |r| == MAX_VALUES
  {
    Defaulted(Sent(parameters, |parameters|), GivenCount(parameters), DefaultOf(c))
  }

  lemma MeantAt(parameters: seq<seq<Word32>>, c: char, i: nat)
    requires AllDigits(parameters) && 1 <= |parameters| <= MAX_VALUES && i < MAX_VALUES
    ensures Meant(parameters, c)[i] == if i >= |parameters| || ReadDigits(parameters[i]) == 0 then DefaultOf(c)
                                       else ReadDigits(parameters[i])
  {
  }

  /** The state with the parameters in place, as the control function sees it. */
  function WithParameters(s: State, parameters: seq<seq<Word32>>, c: char): State
    requires AllDigits(parameters) && parameters != []
  {
    s.(parser := s.parser.(values := Meant(parameters, c), count := GivenCount(parameters), inside := false))
  }

  /** A sequence that has just begun. */
  predicate Begun(s: State) {
    InSequence(s) && !s.parser.inside && s.parser.count == 0 && s.parser.values == Zeros() && !s.parser.unhandled
  }

  /** The final byte finds the parameters complete. */
  lemma FinalRuns(t: Tables, s: State, parameters: seq<seq<Word32>>, c: Byte) returns (f: State)
    requires Begun(s) && AllDigits(parameters) && 1 <= |parameters| <= MAX_VALUES && IsFinal(c) && c != '[' as Byte
    ensures SameButOffset(WithParameters(s, parameters, c as char), f)
    ensures After(t, s, Spelled(parameters) + [c]) == if s.parser.private then Ended(PrivateFinal(f, c), false)
                                                      else Finish(t, f, c)
  {
    hide Next, Spelled, Sent, Zeros, Defaulted, DefaultOf, PrivateFinal, Finish, After;
    ParametersRun(t, s, parameters);
    var r := After(t, s, Spelled(parameters));
    AfterBoth(t, s, Spelled(parameters), [c]);
    AfterOne(t, r, c);
    SequenceStep(t, r, c);
    var a := Advanced(r, r.parser.offset + 1);
    f := a.(parser := Closed(a.parser).(values := Meant(parameters, c as char)));
  }

  /** Control functions see no more of the parser than the parameters. */
  lemma ControlSeesParameters(t: Tables, s: State, p: Parser, c: char, n: nat, q: nat)
    requires p.values == s.parser.values && p.count == s.parser.count
    ensures Control(t, s.(parser := p), c, n, q) == Control(t, s, c, n, q).(parser := p)
  {
    hide Edited, Repetition, Margins, Shows, Clamp;
    EditedIgnoresParser(s, p, c, n, q);
  }

  lemma EditedIgnoresParser(s: State, p: Parser, c: char, n: nat, q: nat)
    ensures Edited(s.(parser := p), c, n, q) == Edited(s, c, n, q).(parser := p)
    ensures Repetition(s.(parser := p), n) == Repetition(s, n).(parser := p)
  {
    hide AfterControl, Repeated, Shows;
    var r := s.(parser := p);
    assert RegionOf(r) == RegionOf(s) && SetupOf(r) == SetupOf(s);
  }

  /** ESC [, parameters separated by semicolons, and c, between sequences: the control function c with the numbers
      they spell. */
  lemma ControlSequenceRuns(t: Tables, s: State, parameters: seq<seq<Word32>>, c: Byte)
    requires Idle(s) && !s.parser.private && AllDigits(parameters) && 1 <= |parameters| <= 16 && IsFinal(c)
             && c != '[' as Byte
    ensures var r := After(t, s, [ESC, '[' as Byte] + (Spelled(parameters) + [c]));
            var n := Meant(parameters, c as char);
            Idle(r) && !r.parser.private
            && r == Control(t, WithParameters(s, parameters, c as char), c as char, n[0] as nat,
                            n[1] as nat).(parser := r.parser)
  {
    hide Next, Spelled, Meant, Zeros, Control;
    EscapeRuns(t, s, '[' as Byte);
    var b := After(t, s, [ESC, '[' as Byte]);
    AfterBoth(t, s, [ESC, '[' as Byte], Spelled(parameters) + [c]);
    var f := FinalRuns(t, b, parameters, c);
    var n := Meant(parameters, c as char);
    ControlSeesParameters(t, WithParameters(s, parameters, c as char), f.parser, c as char, n[0] as nat, n[1] as nat);
    ControlParser(t, f, c as char, n[0] as nat, n[1] as nat);
  }

  /** For the control functions on the screen that is `AfterControl`, and nothing else of the state changes. */
  lemma PlainSequenceRuns(t: Tables, s: State, parameters: seq<seq<Word32>>, c: Byte)
    requires Steady(s) && Idle(s) && !s.parser.private && AllDigits(parameters) && 1 <= |parameters| <= MAX_VALUES
    requires IsFinal(c) && c != '[' as Byte && c != 'b' as Byte && !IsSetting(c as char)
    ensures var r := After(t, s, [ESC, '[' as Byte] + (Spelled(parameters) + [c]));
            var n := Meant(parameters, c as char);
            OnScreen(s) && Idle(r) &&
            r == Drawn(s, AfterControl(c as char, s.look.pic, RegionOf(s), n[0] as nat, n[1] as nat,
                                       BlankOf(s))).(parser := r.parser)
  {
    hide Meant, Spelled, AfterControl, SavedOnScreen, Shows;
    ControlSequenceRuns(t, s, parameters, c);
    var n := Meant(parameters, c as char);
    EditedIgnoresParser(s, WithParameters(s, parameters, c as char).parser, c as char, n[0] as nat, n[1] as nat);
  }

  lemma {:induction false} DecModesSeeNoParser(s: State, p: Parser, values: seq<Word32>, on: bool)
    ensures DecModes(s.(parser := p), values, on) == DecModes(s, values, on).(parser := p)
  {
    if values != [] {
      DecModesSeeNoParser(s, p, values[..|values| - 1], on);
    }
  }

  /** The modes that a private sequence ending in c sets or resets. */
  function PrivateEffect(s: State, parameters: seq<seq<Word32>>, c: Byte): State
    requires AllDigits(parameters) && 1 <= |parameters| <= MAX_VALUES
  {
    if c == 'h' as Byte || c == 'l' as Byte
    then DecModes(s, Meant(parameters, c as char)[..GivenCount(parameters)], c == 'h' as Byte) else s
  }

  lemma PrivateEnds(t: Tables, s: State, parameters: seq<seq<Word32>>, c: Byte)
    requires Begun(s) && s.parser.private && s.parser.gSelect == 0
    requires AllDigits(parameters) && 1 <= |parameters| <= MAX_VALUES && IsFinal(c) && c != '[' as Byte
    ensures var r := After(t, s, Spelled(parameters) + [c]);
            Idle(r) && !r.parser.private && r == PrivateEffect(s, parameters, c).(parser := r.parser)
  {
    hide Next, Spelled, Meant, Zeros, After, DecModes, Finish;
    var f := FinalRuns(t, s, parameters, c);
    var given, on := Given(f.parser.values, f.parser.count), c == 'h' as Byte;
    DecModesSeeNoParser(s, f.parser.(private := false), given, on);
    DecModesParser(f.(parser := f.parser.(private := false)), given, on);
    DecModesParser(s, given, on);
  }

  /** ESC [ ?, parameters and h or l, between sequences: the private modes one after the other, in the order given. */
  lemma PrivateSequenceRuns(t: Tables, s: State, parameters: seq<seq<Word32>>, c: Byte)
    requires Idle(s) && AllDigits(parameters) && 1 <= |parameters| <= MAX_VALUES && IsFinal(c) && c != '[' as Byte
    ensures var r := After(t, s, [ESC, '[' as Byte] + [('?' as Byte)] + (Spelled(parameters) + [c]));
            Idle(r) && !r.parser.private && r == PrivateEffect(s, parameters, c).(parser := r.parser)
  {
    hide Next, Spelled, Zeros, PrivateEffect;
    EscapeRuns(t, s, '[' as Byte);
    var b := After(t, s, [ESC, '[' as Byte]);
    AfterBoth(t, s, [ESC, '[' as Byte], ['?' as Byte]);
    AfterOne(t, b, '?' as Byte);
    SequenceStep(t, b, '?' as Byte);
    var p := Next(t, b, '?' as Byte);
    AfterBoth(t, s, [ESC, '[' as Byte] + [('?' as Byte)], Spelled(parameters) + [c]);
    PrivateEnds(t, p, parameters, c);
    EffectSeesNoParser(s, p.parser, parameters, c);
  }

  lemma EffectSeesNoParser(s: State, p: Parser, parameters: seq<seq<Word32>>, c: Byte)
    requires AllDigits(parameters) && 1 <= |parameters| <= MAX_VALUES
    ensures PrivateEffect(s.(parser := p), parameters, c) == PrivateEffect(s, parameters, c).(parser := p)
  {
    hide Meant, DecModes;
    DecModesSeeNoParser(s, p, Meant(parameters, c as char)[..GivenCount(parameters)], c == 'h' as Byte);
  }

  /** CAN and SUB end every sequence, but leave a private sequence marked private. */
  lemma CancelEnds(t: Tables, s: State, c: Byte)
    requires c == 0x18 || c == 0x1a
    ensures Idle(Next(t, s, c)) && Next(t, s, c).parser.private == s.parser.private
    ensures Next(t, s, c).look == s.look && Next(t, s, c).modes == s.modes && Next(t, s, c).saved == s.saved
  {
  }

  /** Between sequences, a control sequence without a question mark is read as a private one when an earlier CAN left
      the mark. */
  lemma LeftoverIsPrivate(t: Tables, s: State, parameters: seq<seq<Word32>>, c: Byte)
    requires Idle(s) && s.parser.private && AllDigits(parameters) && 1 <= |parameters| <= MAX_VALUES && IsFinal(c)
             && c != '[' as Byte
    ensures var r := After(t, s, [ESC, '[' as Byte] + (Spelled(parameters) + [c]));
            Idle(r) && !r.parser.private && r == PrivateEffect(s, parameters, c).(parser := r.parser)
  {
    hide Next, Spelled, Zeros, PrivateEffect;
    EscapeRuns(t, s, '[' as Byte);
    var b := After(t, s, [ESC, '[' as Byte]);
    AfterBoth(t, s, [ESC, '[' as Byte], Spelled(parameters) + [c]);
    PrivateEnds(t, b, parameters, c);
    EffectSeesNoParser(s, b.parser, parameters, c);
  }

  /** ESC [ ? CAN puts an idle terminal into that state, whatever it was. */
  lemma CancelledPrivate(t: Tables, s: State)
    requires Idle(s)
    ensures var r := After(t, s, [ESC, '[' as Byte] + [('?' as Byte)] + [(0x18 as Byte)]); Idle(r) && r.parser.private
  {
    hide Next, Zeros;
    EscapeRuns(t, s, '[' as Byte);
    var b := After(t, s, [ESC, '[' as Byte]);
    AfterBoth(t, s, [ESC, '[' as Byte], ['?' as Byte]);
    AfterOne(t, b, '?' as Byte);
    SequenceStep(t, b, '?' as Byte);
    AfterBoth(t, s, [ESC, '[' as Byte] + [('?' as Byte)], [0x18 as Byte]);
    AfterOne(t, Next(t, b, '?' as Byte), 0x18);
    CancelEnds(t, Next(t, b, '?' as Byte), 0x18);
  }

  // ----- a cursor that leaves the region

  /** ESC [ s */
  function StoreBytes(): seq<Byte> {
    [ESC, '[' as Byte] + (Spelled([[]]) + ['s' as Byte])
  }

  /** ESC [ 5 ; 10 r */
  function MarginBytes(): seq<Byte> {
    [ESC, '[' as Byte] + (Spelled([[5], [1, 0]]) + ['r' as Byte])
  }

  /** ESC [ ? 6 h */
  function OriginBytes(): seq<Byte> {
    [ESC, '[' as Byte] + [('?' as Byte)] + (Spelled([[6]]) + ['h' as Byte])
  }

  /** ESC [ u */
  function RestoreBytes(): seq<Byte> {
    [ESC, '[' as Byte] + (Spelled([[]]) + ['u' as Byte])
  }

  /** Between sequences, on a screen of at least ten rows, with row 0 stored for SCORC. */
  predicate TopRowStored(s: State) {
    Steady(s) && Idle(s) && !s.parser.private && s.look.rows >= 10 && s.options.scoY == 0
  }

  lemma StoreRuns(t: Tables, s: State)
    requires Steady(s) && Idle(s) && !s.parser.private && s.look.rows >= 10 && s.look.pic.y == 0
    ensures TopRowStored(After(t, s, StoreBytes())) && After(t, s, StoreBytes()).modes.origin == s.modes.origin
  {
    hide Steady, Safe, Spelled, Meant;
    ControlSequenceRuns(t, s, [[]], 's' as Byte);
    AfterKeeps(t, s, StoreBytes());
  }

  lemma MarginsRun(t: Tables, s: State)
    requires TopRowStored(s) && !s.modes.origin
    ensures var r := After(t, s, MarginBytes()); TopRowStored(r) && r.modes.top == 4 && r.modes.bottom == 10
  {
    hide Steady, Safe, Spelled, Meant;
    ControlSequenceRuns(t, s, [[5], [1, 0]], 'r' as Byte);
    AfterKeeps(t, s, MarginBytes());
    MeantAt([[5], [1, 0]], 'r', 0);
    MeantAt([[5], [1, 0]], 'r', 1);
    assert [1 as Word32, 0][..1] == [1];
    assert ReadDigits([1]) == 1 && ReadDigits([1, 0]) == 10 && ReadDigits([5]) == 5;
  }

  lemma OneMode(s: State, value: Word32, on: bool)
    ensures DecModes(s, [value], on) == DecMode(s, value, on)
  {
    assert [value][..0] == [];
  }

  lemma OriginRuns(t: Tables, s: State)
    requires TopRowStored(s)
    ensures var r := After(t, s, OriginBytes());
            TopRowStored(r) && r.modes.origin && r.modes.top == s.modes.top && r.modes.bottom == s.modes.bottom
  {
    hide Steady, Safe, Spelled, Meant, DecModes, After, ReadDigits;
    PrivateSequenceRuns(t, s, [[6]], 'h' as Byte);
    AfterKeeps(t, s, OriginBytes());
    MeantAt([[6]], 'h', 0);
    SixIsRead();
    assert Meant([[6]], 'h')[..1] == [6];
    OneMode(s, 6, true);
  }

  lemma SixIsRead()
    ensures ReadDigits([6]) == 6
  {
    assert [6 as Word32][..0] == [];
  }

  lemma RestoreRuns(t: Tables, s: State)
    requires TopRowStored(s) && s.modes.origin && s.modes.top > 0
    ensures !InOrigin(After(t, s, RestoreBytes()))
  {
    hide Safe, Spelled, Meant, SavedOnScreen;
    ControlSequenceRuns(t, s, [[]], 'u' as Byte);
  }

  /**
   An input that leaves the region: from the top row, ESC [ s, ESC [ 5 ; 10 r, ESC [ ? 6 h, ESC [ u. Origin mode is
   on, the region starts in row 4, and the cursor is in row 0.
   */
  lemma StoredRowLeaves(t: Tables, s: State)
    requires Steady(s) && Idle(s) && !s.parser.private && s.look.rows >= 10 && s.look.pic.y == 0 && !s.modes.origin
    ensures !InOrigin(After(t, s, StoreBytes() + MarginBytes() + OriginBytes() + RestoreBytes()))
  {
    hide Steady, StoreBytes, MarginBytes, OriginBytes, RestoreBytes, Idle, After, InOrigin;
    var stored := After(t, s, StoreBytes());
    StoreRuns(t, s);
    AfterBoth(t, s, StoreBytes(), MarginBytes());
    MarginsRun(t, stored);
    var framed := After(t, stored, MarginBytes());
    AfterBoth(t, s, StoreBytes() + MarginBytes(), OriginBytes());
    OriginRuns(t, framed);
    AfterBoth(t, s, StoreBytes() + MarginBytes() + OriginBytes(), RestoreBytes());
    RestoreRuns(t, After(t, framed, OriginBytes()));
  }

  // ----- REP

  /** A graphic byte between sequences, followed by REP: the same character n more times, once for a missing or zero
      n. */
  lemma RepeatsLast(t: Tables, s: State, ch: Byte, ds: seq<Word32>)
    requires Steady(s) && Idle(s) && !s.parser.private && 0x20 <= ch < 0x7f
    requires forall i :: 0 <= i < |ds| ==> ds[i] < 10
    ensures var g := Graphic(s, GlyphOfByte(s.modes, ch), 1);
            var r := After(t, s, [ch] + ([ESC, '[' as Byte] + (Spelled([ds]) + ['b' as Byte])));
            && OnScreen(g) && g.options.graphic && g.options.lastChar == GlyphOfByte(s.modes, ch)
            && r == Repetition(g, if ReadDigits(ds) == 0 then 1 else ReadDigits(ds) as nat).(parser := r.parser)
  {
    hide Next, Printed, Repetition, Spelled, GlyphOfByte, ReadDigits, Meant, OnScreen, SavedOnScreen;
    var g := Graphic(s, GlyphOfByte(s.modes, ch), 1);
    var rest := [ESC, '[' as Byte] + (Spelled([ds]) + ['b' as Byte]);
    AfterBoth(t, s, [ch], rest);
    AfterOne(t, s, ch);
    SingleStep(t, s, ch);
    GraphicKeeps(s, GlyphOfByte(s.modes, ch), 1);
    GlyphParser(Remembered(s, GlyphOfByte(s.modes, ch)), GlyphOfByte(s.modes, ch), 1);
    ControlSequenceRuns(t, g, [ds], 'b' as Byte);
    MeantAt([ds], 'b', 0);
    EditedIgnoresParser(g, WithParameters(g, [ds], 'b').parser, 'b', Meant([ds], 'b')[0] as nat, 0);
  }
}
