/** What every byte of every stream keeps, and what sequences of bytes amount to. */
module EmulatorLaws {
  import opened Arithmetic
  import opened Cells
  import opened Pages
  import opened Typing
  import opened Edits
  import opened Controls
  import opened Screens
  import opened Utf8
  import opened Emulators

  // ----- the invariant

  /** The step from s to r keeps both invariants. */
  predicate Keeps(s: State, r: State) {
    Steady(r) && (Safe(s) ==> Safe(r))
  }

  /** A picture on the screen, with the cursor in the region if it was there. */
  lemma DrawnKeeps(s: State, p: Picture)
    requires Steady(s) && Shows(p, RegionOf(s))
    requires InRegion(RegionOf(s), s.look.pic.y) ==> InRegion(RegionOf(s), p.y)
    ensures Keeps(s, Drawn(s, p))
  {
  }

  lemma ParserKeeps(s: State, p: Parser)
    requires Steady(s) && ParserOk(p)
    ensures Keeps(s, s.(parser := p))
  {
    hide Shows, ParserOk;
  }

  lemma ModesKeep(s: State, m: Modes)
    requires Steady(s) && m.top == s.modes.top && m.bottom == s.modes.bottom && ModesOk(m)
    ensures Steady(s.(modes := m))
  {
  }

  lemma OptionsKeep(s: State, o: Options)
    requires Steady(s)
    ensures Steady(s.(options := o))
  {
    hide Shows;
  }

  lemma GlyphKeeps(s: State, c: nat, width: nat)
    requires Steady(s)
    ensures Keeps(s, Glyph(s, c, width))
  {
    hide Printed;
    PrintedStays(s.look.pic, SetupOf(s), s.options.insert, width, InkOf(s, c), BlankOf(s));
    DrawnKeeps(s, Glyph(s, c, width).look.pic);
  }

  lemma PaddedKeeps(s: State, n: nat)
    requires Steady(s)
    ensures Keeps(s, Padded(s, n))
  {
    hide Printed;
    DrawnKeeps(s, Padded(s, n).look.pic);
  }

  lemma GraphicKeeps(s: State, c: nat, width: nat)
    requires Steady(s)
    ensures Keeps(s, Graphic(s, c, width))
  {
    hide Shows, Glyph;
    GlyphKeeps(Remembered(s, c), c, width);
  }

  lemma CodePointKeeps(t: Tables, s: State, cp: nat)
    requires Steady(s)
    ensures Keeps(s, CodePoint(t, s, cp))
  {
    hide Steady, Safe, Graphic, Padded;
    if t.glyphOf(cp) != -1 {
      GraphicKeeps(s, t.glyphOf(cp) % 0x100, 1);
    } else if t.widthOf(cp) > 0 {
      GraphicKeeps(s, 0xfe, t.widthOf(cp));
      PaddedKeeps(Graphic(s, 0xfe, t.widthOf(cp)), t.widthOf(cp) - 1);
    }
  }

  lemma ControlCharKeeps(s: State, c: Byte)
    requires Steady(s)
    ensures Keeps(s, ControlChar(s, c))
  {
    hide AfterC0;
    C0Stays(c as int, s.look.pic, RegionOf(s), BlankOf(s));
    DrawnKeeps(s, AfterC0(c as int, s.look.pic, RegionOf(s), BlankOf(s)));
  }

  lemma LineEscapeKeeps(s: State, c: Byte)
    requires Steady(s)
    ensures Keeps(s, LineEscape(s, c))
  {
    hide LineFeed, ReverseLineFeed;
    var p, g, blank := s.look.pic, RegionOf(s), BlankOf(s);
    LineFeedStays(p, g, Column(p, g), blank);
    LineFeedStays(p, g, 0, blank);
    DrawnKeeps(s, LineEscape(s, c).look.pic);
  }

  lemma SaveKeeps(s: State)
    requires Steady(s)
    ensures Keeps(s, SaveAll(s))
  {
  }

  /** Restoring needs no more than the saved cursor in the saved region. */
  lemma RestoreKeeps(s: State)
    requires Steady(s)
    ensures Steady(RestoreAll(s))
    ensures s.options.scrolling
            && (!s.options.strayed && s.saved.origin ==> s.saved.top <= s.look.savedY < s.saved.bottom) ==>
              Safe(RestoreAll(s))
  {
  }

  /** Moving the cursor home may take it out of the region. */
  lemma ClearedKeeps(s: State)
    requires Steady(s)
    ensures Steady(Cleared(s))
  {
  }

  lemma MarginsKeep(s: State, top: nat, bottom: nat)
    requires Steady(s) && top < bottom <= s.look.rows
    ensures Steady(WithMargins(s, top, bottom))
  {
  }

  lemma ReinitKeeps(s: State)
    requires Steady(s)
    ensures Steady(ModesReset(s)) && Steady(ParserReset(s)) && Steady(Reinit(s))
  {
  }

  /** RIS: the strict invariant holds again, also from a state that had lost it. */
  lemma ResetKeeps(t: Tables, s: State)
    requires Steady(s)
    ensures var r := FullReset(t, s); Keeps(s, r) && Safe(r) && !r.options.strayed && InOrigin(r)
  {
    var r := Reinit(s);
    ReinitKeeps(s);
    ClearedKeeps(Painted(r, t.reset(PenOf(s))));
    SaveKeeps(Cleared(Painted(r, t.reset(PenOf(s)))));
  }

  lemma DecModeKeeps(s: State, value: Word32, on: bool)
    requires Steady(s)
    ensures Keeps(s, DecMode(s, value, on))
  {
    if value == 1049 && on {
      SaveKeeps(s);
      MarginsKeep(SaveAll(s), 0, s.look.rows);
      ClearedKeeps(WithMargins(SaveAll(s), 0, s.look.rows));
    } else if value == 1049 {
      ClearedKeeps(s);
      RestoreKeeps(Cleared(s));
    }
  }

  lemma {:induction false} DecModesKeep(s: State, values: seq<Word32>, on: bool)
    requires Steady(s)
    ensures Keeps(s, DecModes(s, values, on))
  {
    hide Steady, Safe, DecMode;
    if values != [] {
      DecModesKeep(s, values[..|values| - 1], on);
      DecModeKeeps(DecModes(s, values[..|values| - 1], on), values[|values| - 1], on);
    }
  }

  lemma PrivateParser(p: Parser)
    requires ParserOk(p)
    ensures ParserOk(p.(private := false)) && ParserOk(p.(private := true)) && ParserOk(p.(unhandled := true))
            && ParserOk(p.(unhandled := false))
    ensures ParserOk(Closed(p))
  {
  }

  lemma PrivateFinalKeeps(s: State, c: Byte)
    requires Steady(s)
    ensures Keeps(s, PrivateFinal(s, c))
  {
    hide ParserOk, OnScreen, SavedOnScreen, InOrigin, DecModes;
    PrivateParser(s.parser);
    ParserKeeps(s, s.parser.(private := false));
    DecModesKeep(s.(parser := s.parser.(private := false)), Given(s.parser.values, s.parser.count), c == 'h' as Byte);
  }

  lemma DigitKeeps(s: State, c: Byte)
    requires Steady(s)
    ensures Keeps(s, Digit(s, c))
  {
    hide OnScreen, SavedOnScreen, InOrigin, AppendDigit;
    ParserKeeps(s, Digit(s, c).parser);
  }

  lemma SeparatedKeeps(s: State)
    requires Steady(s)
    ensures Keeps(s, Separated(s))
  {
    hide OnScreen, SavedOnScreen, InOrigin, Stored;
    ParserKeeps(s, Separated(s).parser);
  }

  lemma EndedKeeps(s: State, again: bool)
    requires Steady(s) && s.parser.escape && !s.parser.osc
    ensures Keeps(s, Ended(s, again))
  {
    hide OnScreen, SavedOnScreen, InOrigin;
    ParserKeeps(s, Ended(s, again).parser);
  }

  lemma PaintedKeeps(s: State, p: Pen)
    requires Steady(s)
    ensures Keeps(s, Painted(s, p))
  {
  }

  lemma EditedKeeps(s: State, c: char, n: nat, q: nat)
    requires Steady(s)
    ensures Keeps(s, Edited(s, c, n, q))
  {
    hide AfterControl;
    ControlStays(c, s.look.pic, RegionOf(s), n, q, BlankOf(s));
    DrawnKeeps(s, Edited(s, c, n, q).look.pic);
  }

  lemma RepetitionKeeps(s: State, n: nat)
    requires Steady(s)
    ensures Keeps(s, Repetition(s, n))
  {
    hide Printed;
    DrawnKeeps(s, Repetition(s, n).look.pic);
  }

  lemma MarginsSetKeeps(s: State, n: nat, q: nat)
    requires Steady(s)
    ensures Keeps(s, MarginsSet(s, n, q))
  {
    hide Margins;
    if n > 0 {
      MarginsAreProper(s.look.rows, s.parser.count, n, q);
    }
  }

  /** SCORC makes the terminal count as strayed. */
  lemma SettingKeeps(t: Tables, s: State, c: char, n: nat, q: nat)
    requires Steady(s)
    ensures Keeps(s, Setting(t, s, c, n, q))
  {
    hide MarginsSet, Painted;
    MarginsSetKeeps(s, n, q);
    PaintedKeeps(s, t.sgr(PenOf(s), s.parser.values, s.parser.count));
  }

  lemma ControlKeeps(t: Tables, s: State, c: char, n: nat, q: nat)
    requires Steady(s)
    ensures Keeps(s, Control(t, s, c, n, q))
  {
    hide Steady, Safe, Edited, Repetition, Setting;
    RepetitionKeeps(s, n);
    SettingKeeps(t, s, c, n, q);
    EditedKeeps(s, c, n, q);
  }

  lemma PositiveParameter(values: seq<Word32>, n: nat, c: char)
    requires values != []
    ensures c in "Pr" ==> Defaulted(values, n, DefaultOf(c))[0] > 0
  {
  }

  /** Control functions and private modes leave the parser and the decoder alone. */
  lemma ControlParser(t: Tables, s: State, c: char, n: nat, q: nat)
    ensures Control(t, s, c, n, q).parser == s.parser && Control(t, s, c, n, q).decoder == s.decoder
  {
    hide AfterControl, Margins, Repeated, Shows;
  }

  lemma ToggledKeeps(s: State, scrolling: bool, wrapping: bool)
    requires Steady(s)
    ensures Steady(Toggled(s, scrolling, wrapping))
  {
  }

  lemma EditedIgnoresWrapping(s: State, c: char, n: nat, q: nat)
    ensures Toggled(Edited(Toggled(s, false, true), c, n, q), s.options.scrolling, s.modes.wrap) == Edited(s, c, n, q)
  {
    hide AfterControl, Shows;
    assert RegionOf(Toggled(s, false, true)) == RegionOf(s);
  }

  /** Equal but for scrolling and wrapping, which are put back. */
  lemma PutBack(r: State, e: State)
    requires r.look == e.look && r.saved == e.saved && r.decoder == e.decoder && r.parser == e.parser
    requires r.modes.(wrap := e.modes.wrap) == e.modes && r.options.(scrolling := e.options.scrolling) == e.options
    ensures Toggled(r, e.options.scrolling, e.modes.wrap) == e
  {
  }

  lemma MarginsIgnoreWrapping(s: State, n: nat, q: nat)
    ensures Toggled(MarginsSet(Toggled(s, false, true), n, q), s.options.scrolling, s.modes.wrap) == MarginsSet(s, n, q)
  {
    hide Margins;
    PutBack(MarginsSet(Toggled(s, false, true), n, q), MarginsSet(s, n, q));
  }

  lemma SavingIgnoresWrapping(s: State)
    ensures Toggled(PositionSaved(Toggled(s, false, true)), s.options.scrolling, s.modes.wrap) == PositionSaved(s)
  {
    hide Min;
    PutBack(PositionSaved(Toggled(s, false, true)), PositionSaved(s));
  }

  lemma RestoringIgnoresWrapping(s: State)
    ensures Toggled(PositionRestored(Toggled(s, false, true)), s.options.scrolling, s.modes.wrap) == PositionRestored(s)
  {
    hide Clamp;
    var r := Toggled(s, false, true);
    assert PositionRestored(r).look == PositionRestored(s).look;
    PutBack(PositionRestored(r), PositionRestored(s));
  }

  lemma PenIgnoresWrapping(s: State, p: Pen)
    ensures Toggled(Painted(Toggled(s, false, true), p), s.options.scrolling, s.modes.wrap) == Painted(s, p)
    ensures PenOf(Toggled(s, false, true)) == PenOf(s)
  {
  }

  lemma SwitchIgnoresWrapping(s: State, n: nat, on: bool)
    ensures Toggled(ModeSwitched(Toggled(s, false, true), n, on), s.options.scrolling, s.modes.wrap)
              == ModeSwitched(s, n, on)
  {
    PutBack(ModeSwitched(Toggled(s, false, true), n, on), ModeSwitched(s, n, on));
  }

  lemma SettingIgnoresWrapping(t: Tables, s: State, c: char, n: nat, q: nat)
    ensures Toggled(Setting(t, Toggled(s, false, true), c, n, q), s.options.scrolling, s.modes.wrap)
              == Setting(t, s, c, n, q)
  {
    hide MarginsSet, PositionSaved, PositionRestored, ModeSwitched, Painted, PenOf;
    MarginsIgnoreWrapping(s, n, q);
    SavingIgnoresWrapping(s);
    RestoringIgnoresWrapping(s);
    PenIgnoresWrapping(s, t.sgr(PenOf(s), s.parser.values, s.parser.count));
    SwitchIgnoresWrapping(s, n, c == 'h');
  }

  /** Every control function but REP runs the same with scrolling off and wrapping on. */
  lemma ControlIgnoresWrapping(t: Tables, s: State, c: char, n: nat, q: nat)
    requires c != 'b'
    ensures Toggled(Control(t, Toggled(s, false, true), c, n, q), s.options.scrolling, s.modes.wrap)
              == Control(t, s, c, n, q)
  {
    hide Edited, Setting, Toggled;
    EditedIgnoresWrapping(s, c, n, q);
    SettingIgnoresWrapping(t, s, c, n, q);
  }

  lemma {:induction false} DecModesParser(s: State, values: seq<Word32>, on: bool)
    ensures DecModes(s, values, on).parser == s.parser && DecModes(s, values, on).decoder == s.decoder
  {
    if values != [] {
      DecModesParser(s, values[..|values| - 1], on);
    }
  }

  lemma FinishKeeps(t: Tables, s: State, c: Byte)
    requires Steady(s) && s.parser.escape && !s.parser.osc
    ensures Keeps(s, Finish(t, s, c))
  {
    hide ParserOk, OnScreen, SavedOnScreen, InOrigin, Control;
    if c == 0x1b {
      EndedKeeps(s, true);
    } else if IsFinal(c) {
      ControlKeeps(t, s, c as char, Parameter(s, 0), Parameter(s, 1));
      ControlParser(t, s, c as char, Parameter(s, 0), Parameter(s, 1));
      EndedKeeps(Control(t, s, c as char, Parameter(s, 0), Parameter(s, 1)), false);
    } else {
      PrivateParser(s.parser);
      ParserKeeps(s, s.parser.(unhandled := true));
    }
  }

  lemma SkippedKeeps(s: State, c: Byte)
    requires Steady(s) && s.parser.escape && !s.parser.osc
    ensures Keeps(s, Skipped(s, c))
  {
    hide ParserOk, OnScreen, SavedOnScreen, InOrigin;
    PrivateParser(s.parser);
    ParserKeeps(s, s.parser.(unhandled := false));
    EndedKeeps(s.(parser := s.parser.(unhandled := false)), c == 0x1b);
  }

  lemma CompleteKeeps(t: Tables, s: State, c: Byte)
    requires Steady(s) && s.parser.escape && !s.parser.osc
    ensures Keeps(s, Complete(t, s, c))
  {
    hide OnScreen, SavedOnScreen, InOrigin, Finish, Skipped, DecModes, Defaulted, DefaultOf;
    var f := s.(parser := s.parser.(values := Defaulted(s.parser.values, s.parser.count, DefaultOf(c as char))));
    ParserKeeps(s, f.parser);
    if s.parser.private {
      PrivateFinalKeeps(f, c);
      DecModesParser(f.(parser := f.parser.(private := false)), Given(f.parser.values, f.parser.count),
                     c == 'h' as Byte);
      EndedKeeps(PrivateFinal(f, c), false);
    } else if s.parser.unhandled {
      SkippedKeeps(f, c);
    } else {
      FinishKeeps(t, f, c);
    }
  }

  lemma SequenceKeeps(t: Tables, s: State, c: Byte)
    requires Steady(s) && s.parser.escape && !s.parser.osc
    ensures Keeps(s, Sequence(t, s, c))
  {
    hide OnScreen, SavedOnScreen, InOrigin, Complete, Digit, Separated, ControlChar;
    PrivateParser(s.parser);
    ParserKeeps(s, s.parser.(discard := true));
    EndedKeeps(s.(parser := s.parser.(discard := true)), false);
    ParserKeeps(s, s.parser.(private := true));
    ControlCharKeeps(s, c);
    DigitKeeps(s, c);
    SeparatedKeeps(s);
    ParserKeeps(s, Closed(s.parser));
    CompleteKeeps(t, s.(parser := Closed(s.parser)), c);
  }

  lemma LeftKeeps(s: State)
    requires Steady(s) && !s.parser.csi && !s.parser.osc
    ensures Keeps(s, Left(s))
  {
    hide OnScreen, SavedOnScreen, InOrigin;
    ParserKeeps(s, Left(s).parser);
  }

  /** ESC 7, 8, c, D, E and M leave no sequence open. */
  lemma StateEscapesKeep(t: Tables, s: State, c: Byte)
    requires Steady(s) && !s.parser.csi && !s.parser.osc
    ensures Keeps(s, Left(SaveAll(s))) && Keeps(s, Left(RestoreAll(s))) && Keeps(s, Left(FullReset(t, s)))
            && Keeps(s, Left(LineEscape(s, c)))
  {
    hide OnScreen, SavedOnScreen, LineFeed, ReverseLineFeed;
    SaveKeeps(s);
    LeftKeeps(SaveAll(s));
    RestoreKeeps(s);
    LeftKeeps(RestoreAll(s));
    ResetKeeps(t, s);
    LeftKeeps(FullReset(t, s));
    LineEscapeKeeps(s, c);
    LeftKeeps(LineEscape(s, c));
  }

  lemma AfterEscapeKeeps(t: Tables, s: State, c: Byte)
    requires Steady(s) && s.parser.escape && !s.parser.osc && !s.parser.csi
    ensures Keeps(s, AfterEscape(t, s, c))
  {
    hide OnScreen, SavedOnScreen, InOrigin, SaveAll, RestoreAll, FullReset, LineEscape, Zeros;
    if c in [('7' as Byte), '8' as Byte, 'c' as Byte, 'D' as Byte, 'E' as Byte, 'M' as Byte] {
      StateEscapesKeep(t, s, c);
    } else {
      ParserKeeps(s, AfterEscape(t, s, c).parser);
    }
  }

  lemma AdvancedKeeps(s: State, offset: nat)
    requires Steady(s)
    ensures Keeps(s, Advanced(s, offset))
  {
    hide OnScreen, SavedOnScreen, InOrigin;
    ParserKeeps(s, Advanced(s, offset).parser);
  }

  lemma CommandKeeps(s: State, c: Byte)
    requires Steady(s) && s.parser.osc
    ensures Keeps(s, Command(s, c))
  {
    hide OnScreen, SavedOnScreen, InOrigin;
    ParserKeeps(s, Command(s, c).parser);
  }

  lemma EscapeKeeps(t: Tables, s: State, c: Byte)
    requires Steady(s) && s.parser.escape
    ensures Keeps(s, Escape(t, s, c))
  {
    hide OnScreen, SavedOnScreen, InOrigin, AfterEscape, Sequence;
    var a := Advanced(s, s.parser.offset + 1);
    AdvancedKeeps(s, s.parser.offset + 1);
    if s.parser.osc {
      CommandKeeps(a, c);
      if BreaksOff(s, c) {
        AdvancedKeeps(Command(a, c), 1);
        AfterEscapeKeeps(t, Advanced(Command(a, c), 1), c);
      }
    } else if s.parser.csi {
      SequenceKeeps(t, a, c);
    } else {
      AfterEscapeKeeps(t, a, c);
    }
  }

  lemma AbandonedKeeps(s: State)
    requires Steady(s)
    ensures Keeps(s, Abandoned(s))
  {
    hide Shows;
  }

  lemma PlainKeeps(s: State, c: Byte)
    requires Steady(s) && !s.parser.csi && !s.parser.osc
    ensures Keeps(s, Plain(s, c))
  {
    hide Shows, ControlChar, Graphic, GlyphOfByte;
    if c == 0x1b {
      ParserKeeps(s, Plain(s, c).parser);
    } else if c < 0x20 && c != 0 {
      ControlCharKeeps(Forgotten(s), c);
    } else if c >= 0x20 && c != 0x7f {
      GraphicKeeps(s, GlyphOfByte(s.modes, c), 1);
    }
  }

  lemma RenamedMargins(m: Modes, g: nat, c: Byte)
    ensures ModesOk(m) ==> ModesOk(Renamed(m, g, c))
    ensures Renamed(m, g, c) == m.(charsets := Renamed(m, g, c).charsets)
  {
  }

  lemma DesignatedKeeps(s: State, c: Byte)
    requires Steady(s)
    ensures Keeps(s, Designated(s, c))
  {
    hide Renamed;
    RenamedMargins(s.modes, s.parser.gSelect, c);
  }

  lemma SingleKeeps(t: Tables, s: State, c: Byte)
    requires Steady(s)
    ensures Keeps(s, Single(t, s, c))
  {
    hide OnScreen, SavedOnScreen, InOrigin, Escape, Designated, Plain;
    if s.parser.escape {
      EscapeKeeps(t, s, c);
    } else if s.parser.gSelect != 0 && !IsControl(c) {
      DesignatedKeeps(s, c);
    } else {
      ParserKeeps(s, s.parser.(gSelect := 0));
      PlainKeeps(s.(parser := s.parser.(gSelect := 0)), c);
    }
  }

  lemma DecodedKeeps(s: State, c: Byte)
    requires Steady(s)
    ensures Keeps(s, Decoded(s, c))
  {
    hide Shows, Step, Glyph;
    GlyphKeeps(s, 0xfe, 1);
    GlyphParser(s, 0xfe, 1);
    StepAligned(s.decoder, c);
  }

  lemma CodingKeeps(s: State, d: Decoder, g: nat)
    requires Steady(s) && Aligned(d) && g <= 2
    ensures Keeps(s, s.(decoder := d, parser := s.parser.(gSelect := g)))
  {
    hide Shows;
  }

  lemma GlyphParser(s: State, c: nat, width: nat)
    ensures Glyph(s, c, width).parser == s.parser && Glyph(s, c, width).decoder == s.decoder
  {
  }

  /** Every byte in every state keeps the parser, margins, cursor and origin invariants. */
  lemma NextKeeps(t: Tables, s: State, c: Byte)
    requires Steady(s)
    ensures Keeps(s, Next(t, s, c))
  {
    hide Steady, Safe, Single, Decoded, CodePoint, Abandoned, Step;
    AbandonedKeeps(s);
    DecodedKeeps(s, c);
    SingleKeeps(t, Decoded(s, c), c);
    match Step(s.decoder, c).1
    case Emitted(cp) => CodePointKeeps(t, Decoded(s, c), cp);
    case _ =>
  }

  /** Safety over every stream of bytes. */
  lemma {:induction false} AfterKeeps(t: Tables, s: State, bytes: seq<Byte>)
    requires Steady(s)
    ensures Keeps(s, After(t, s, bytes))
  {
    hide Steady, Safe, Next;
    if bytes != [] {
      AfterKeeps(t, s, bytes[..|bytes| - 1]);
      NextKeeps(t, After(t, s, bytes[..|bytes| - 1]), bytes[|bytes| - 1]);
    }
  }

  // ----- leaving the region

  /** Does the byte end an ordinary control sequence CSI u that takes the cursor out of the region? */
  predicate LeavesRegion(s: State, c: Byte) {
    s.parser.csi && !s.parser.discard && !s.parser.private && !s.parser.unhandled && c == 'u' as Byte && Outside(s)
  }

  /** Does the byte complete ESC c? */
  predicate Resets(s: State, c: Byte) {
    s.parser.escape && !s.parser.csi && (s.parser.osc ==> s.parser.oscEscape) && !s.parser.discard && c == 'c' as Byte
  }

  lemma {:induction false} DecModesStray(s: State, values: seq<Word32>, on: bool)
    ensures DecModes(s, values, on).options.strayed == s.options.strayed
  {
    if values != [] {
      DecModesStray(s, values[..|values| - 1], on);
    }
  }

  lemma ControlStrays(t: Tables, s: State, c: char, n: nat, q: nat)
    requires s.look.cols > 0 && s.look.rows > 0
    ensures Control(t, s, c, n, q).options.strayed == (s.options.strayed || (c == 'u' && Outside(s)))
  {
    hide AfterControl, Margins, Repeated, Shows;
  }

  lemma CompleteStrays(t: Tables, s: State, c: Byte)
    requires s.look.cols > 0 && s.look.rows > 0 && c != ';' as Byte && !IsDigit(c)
    ensures Complete(t, s, c).options.strayed
              == (s.options.strayed || (!s.parser.private && !s.parser.unhandled && c == 'u' as Byte && Outside(s)))
  {
    hide Control, Defaulted, DefaultOf, Shows, DecModes;
    var f := s.(parser := s.parser.(values := Defaulted(s.parser.values, s.parser.count, DefaultOf(c as char))));
    DecModesStray(f.(parser := f.parser.(private := false)), Given(f.parser.values, f.parser.count), c == 'h' as Byte);
    ControlStrays(t, f, c as char, Parameter(f, 0), Parameter(f, 1));
  }

  lemma SequenceStrays(t: Tables, s: State, c: Byte)
    requires s.look.cols > 0 && s.look.rows > 0
    ensures Sequence(t, s, c).options.strayed
              == (s.options.strayed || (!s.parser.private && !s.parser.unhandled && c == 'u' as Byte && Outside(s)))
  {
    hide Complete, AfterC0, AppendDigit, Shows, Stored;
    if c != ';' as Byte && !IsDigit(c) {
      CompleteStrays(t, s.(parser := Closed(s.parser)), c);
    }
  }

  lemma HasSize(s: State)
    requires Steady(s)
    ensures s.look.cols > 0 && s.look.rows > 0
  {
  }

  lemma EscapeStrays(t: Tables, s: State, c: Byte)
    requires Steady(s) && s.parser.escape && !s.parser.discard
    ensures Escape(t, s, c).options.strayed == (LeavesRegion(s, c) || (s.options.strayed && !Resets(s, c)))
  {
    hide Sequence, LineFeed, ReverseLineFeed, Shows, Zeros;
    HasSize(s);
    if s.parser.csi {
      SequenceStrays(t, Advanced(s, s.parser.offset + 1), c);
    }
  }

  lemma DecodedStrays(s: State, c: Byte)
    ensures Decoded(s, c).options == s.options && Decoded(s, c).modes == s.modes
            && Decoded(s, c).look.rows == s.look.rows
    ensures !(Step(s.decoder, c).1 == Consumed) ==> Decoded(s, c).parser == s.parser
  {
    hide Step, Printed, Shows;
  }

  lemma CodePointStrays(t: Tables, s: State, cp: nat)
    ensures CodePoint(t, s, cp).options.strayed == s.options.strayed
  {
    hide Printed, Shows, Repeated;
  }

  /** What a control character leaves alone. */
  lemma ControlCharLeaves(s: State, c: Byte)
    ensures var r := ControlChar(s, c);
            && r.options == s.options && r.parser == s.parser && r.decoder == s.decoder && r.saved == s.saved
            && r.look.(pic := s.look.pic) == s.look
  {
    hide AfterC0, Shows;
  }

  /** What a graphic character leaves alone. */
  lemma GraphicLeaves(s: State, c: nat, width: nat)
    ensures var r := Graphic(s, c, width);
            && r.options.strayed == s.options.strayed && r.parser == s.parser && r.decoder == s.decoder
            && r.saved == s.saved
            && r.look.(pic := s.look.pic) == s.look
  {
    hide Printed, Shows;
  }

  lemma GroundStrays(s: State, c: Byte)
    ensures Ground(s, c).options.strayed == s.options.strayed && Ground(s, c).decoder == s.decoder
  {
    hide ControlChar, Graphic, Renamed, GlyphOfByte;
    var p := s.(parser := s.parser.(gSelect := 0));
    ControlCharLeaves(Forgotten(p), c);
    GraphicLeaves(p, GlyphOfByte(p.modes, c), 1);
  }

  lemma LowBytesPass(d: Decoder, c: Byte)
    ensures c < 0x80 ==> Step(d, c).1 == Passed
  {
  }

  /** The flag is set by a CSI u that takes the cursor out of the region and by nothing else; ESC c clears it. */
  lemma StraysExactly(t: Tables, s: State, c: Byte)
    requires Steady(s)
    ensures Next(t, s, c).options.strayed == (LeavesRegion(s, c) || (s.options.strayed && !Resets(s, c)))
  {
    hide SavedOnScreen, InOrigin, OnScreen, Decoded, Escape, Ground, CodePoint, Step;
    LowBytesPass(s.decoder, c);
    DecodedStrays(s, c);
    DecodedKeeps(s, c);
    match Step(s.decoder, c).1
    case Consumed =>
    case Emitted(cp) => CodePointStrays(t, Decoded(s, c), cp);
    case Passed =>
      if !s.parser.discard && s.parser.escape {
        EscapeStrays(t, Decoded(s, c), c);
      } else {
        GroundStrays(Decoded(s, c), c);
      }
  }

  /** An executed CSI u puts the cursor on the stored row. */
  lemma SequenceRestores(t: Tables, s: State)
    requires s.look.cols > 0 && s.look.rows > 0 && !s.parser.private && !s.parser.unhandled
    ensures var r := Sequence(t, s, 'u' as Byte);
            r.modes == s.modes && r.look.rows == s.look.rows && r.look.pic.y == Clamp(s.options.scoY, s.look.rows)
  {
    hide Defaulted, DefaultOf;
  }

  /** After a byte that takes the cursor out of the region it is out of the region. */
  lemma LeavesAndIsOut(t: Tables, s: State, c: Byte)
    requires Steady(s) && LeavesRegion(s, c)
    ensures !InOrigin(Next(t, s, c))
  {
    hide OnScreen, SavedOnScreen, ModesOk, Decoded, Step, Sequence, Clamp;
    HasSize(s);
    LowBytesPass(s.decoder, c);
    DecodedStrays(s, c);
    DecodedKeeps(s, c);
    HasSize(Decoded(s, c));
    SequenceRestores(t, Advanced(Decoded(s, c), s.parser.offset + 1));
  }
}
