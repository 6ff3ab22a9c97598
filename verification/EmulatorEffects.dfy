/** What single bytes and short sequences do to the screen, told without the machine that does it (flanterm.c). */
module EmulatorEffects {
  import opened Arithmetic
  import opened Cells
  import opened Pages
  import opened Typing
  import opened Edits
  import opened Controls
  import opened ControlLaws
  import opened Screens
  import opened Utf8
  import opened Emulators
  import opened EmulatorLaws
  import opened EmulatorRuns
  import opened EmulatorText

  /** Between sequences, in order. */
  predicate AtRest(s: State) {
    Steady(s) && Idle(s)
  }

  /** Equal but for the picture, the parser, and what is remembered for REP. */
  predicate SameSettings(s: State, r: State) {
    && r.modes == s.modes && r.saved == s.saved && r.look.(pic := s.look.pic) == s.look
    && r.options.(lastChar := s.options.lastChar, graphic := s.options.graphic) == s.options
  }

  // ----- characters

  /** A byte that stands for itself: printable ASCII in the default character set. */
  predicate StandsForItself(s: State, c: Byte) {
    0x20 <= c < 0x7f && s.modes.charset < |s.modes.charsets| && s.modes.charsets[s.modes.charset] == Default
  }

  lemma GlyphStays(s: State, c: nat)
    requires Steady(s)
    ensures var p, r := s.look.pic, Graphic(s, c, 1);
            var ink := Cell(c, s.look.fg, s.look.bg);
            && OnScreen(s) && SameSettings(s, r) && r.options.lastChar == c && r.options.graphic
            && r.parser == s.parser && r.decoder == s.decoder
            && Fits(p, SetupOf(s))
            && r.look.pic == Printed(p, SetupOf(s), s.options.insert, 1, ink, BlankOf(s))
  {
    hide Printed;
  }

  /** Wherever the character goes, it stands left of the cursor, in the colours of the text; inside a row it pushes the
      rest right in insert mode and replaces one cell otherwise. */
  predicate ShowsGlyph(s: State, r: State, c: nat) {
    var p, q, cols := s.look.pic, r.look.pic, s.look.cols;
    var at, e, ink := p.y * cols + p.x, p.y * cols + cols, Cell(c, s.look.fg, s.look.bg);
    && q.x >= 1 && 0 <= q.y * cols + q.x - 1 < |q.page| && q.page[q.y * cols + q.x - 1] == ink
    && (p.x < cols ==>
          && q.x == p.x + 1 && q.y == p.y && e <= |p.page|
          && q.page == if s.options.insert then p.page[..at] + [ink] + p.page[at..e - 1] + p.page[e..]
                       else p.page[..at] + [ink] + p.page[at + 1..])
  }

  lemma GlyphIsShown(s: State, c: nat)
    requires Steady(s)
    ensures ShowsGlyph(s, Graphic(s, c, 1), c)
  {
    hide SavedOnScreen, ParserOk, ModesOk, Graphic, Typed, SameSettings;
    var p, setup, ink := s.look.pic, SetupOf(s), Cell(c, s.look.fg, s.look.bg);
    GlyphStays(s, c);
    if p.x < setup.cols {
      PrintedPushes(p, setup, ink, BlankOf(s));
    }
    PrintedIsShown(p, setup, s.options.insert, ink, BlankOf(s));
  }

  lemma PrintedIsShown(p: Picture, s: Setup, insert: bool, ink: Cell, blank: Cell)
    requires Fits(p, s)
    ensures var r := Printed(p, s, insert, 1, ink, blank);
            r.x >= 1 && 0 <= r.y * s.cols + r.x - 1 < |r.page| && r.page[r.y * s.cols + r.x - 1] == ink
  {
    hide Typed;
    LineFits(p, s);
    TypedIsShown(if insert then p.(page := Opened(p.page, s.cols, Min(p.x, s.cols - 1), p.y, 1)) else p, s, ink, blank);
  }

  /** Between sequences, a printable byte shows itself. */
  lemma ByteIsShown(t: Tables, s: State, c: Byte)
    requires AtRest(s) && StandsForItself(s, c)
    ensures ShowsGlyph(s, Next(t, s, c), c as nat) && SameSettings(s, Next(t, s, c)) && Idle(Next(t, s, c))
  {
    hide Steady, Next, Graphic, ShowsGlyph, SameSettings;
    SingleStep(t, s, c);
    assert s.(parser := s.parser.(gSelect := 0)) == s;
    GlyphStays(s, c as nat);
    GlyphIsShown(s, c as nat);
  }

  /** In the line-drawing set, a byte that has a drawing shows it. */
  lemma DrawingIsShown(t: Tables, s: State, c: Byte)
    requires AtRest(s) && 0x20 <= c < 0x7f && s.modes.charsets[s.modes.charset] == DecSpecial
    ensures ShowsGlyph(s, Next(t, s, c), if SpecialGlyph(c as char) >= 0 then SpecialGlyph(c as char) else c as nat)
    ensures SameSettings(s, Next(t, s, c)) && Idle(Next(t, s, c))
  {
    hide OnScreen, SavedOnScreen, ParserOk, Next, Graphic, ShowsGlyph, SameSettings, SpecialGlyph;
    SingleStep(t, s, c);
    assert s.(parser := s.parser.(gSelect := 0)) == s;
    GlyphStays(s, GlyphOfByte(s.modes, c));
    GlyphIsShown(s, GlyphOfByte(s.modes, c));
  }

  /** A decoded code point with a glyph shows it. */
  lemma CodePointIsShown(t: Tables, s: State, cp: nat)
    requires Steady(s) && t.glyphOf(cp) != -1
    ensures ShowsGlyph(s, CodePoint(t, s, cp), t.glyphOf(cp) % 0x100)
  {
    hide Steady, Graphic, ShowsGlyph;
    GlyphIsShown(s, t.glyphOf(cp) % 0x100);
  }

  /** One without a glyph shows a mark and takes as many columns as it is wide, where they fit; without width
      nothing. */
  lemma WideMark(t: Tables, s: State, cp: nat)
    requires Steady(s) && t.glyphOf(cp) == -1 && !s.options.insert
    ensures t.widthOf(cp) <= 0 ==> CodePoint(t, s, cp) == s
    ensures var w, p, r, cols := t.widthOf(cp), s.look.pic, CodePoint(t, s, cp).look.pic, s.look.cols;
            var at := p.y * cols + p.x;
            0 < w && p.x + w <= cols ==>
              && at + w <= |p.page|
              && r == Picture(p.page[..at] + [Cell(0xfe, s.look.fg, s.look.bg)] + Blanks(w - 1, BlankOf(s))
                              + p.page[at + w..], p.x + w, p.y)
  {
    hide Printed, Repeated, SavedOnScreen, ParserOk, ModesOk;
    var w, p, setup := t.widthOf(cp), s.look.pic, SetupOf(s);
    if 0 < w && p.x + w <= s.look.cols {
      var ink := Cell(0xfe, s.look.fg, s.look.bg);
      PrintedStays(p, setup, false, w, ink, BlankOf(s));
      PaddedInRow(p, setup, w, ink, BlankOf(s));
    }
  }

  /** A mark and the blanks behind it, where the row has room. */
  lemma PaddedInRow(p: Picture, s: Setup, w: nat, ink: Cell, blank: Cell)
    requires Fits(p, s) && 0 < w && p.x + w <= s.cols && Fits(Printed(p, s, false, w, ink, blank), s)
    ensures var at := p.y * s.cols + p.x;
            && at + w <= |p.page|
            && Repeated(Printed(p, s, false, w, ink, blank), s, false, w - 1, blank, blank)
               == Picture(p.page[..at] + [ink] + Blanks(w - 1, blank) + p.page[at + w..], p.x + w, p.y)
  {
    hide Printed, Repeated, Copies, Fits, Blanks;
    LineFits(p, s);
    WidthIsNoMatter(p, s, w, ink, blank);
    PrintedPushes(p, s, ink, blank);
    var at := p.y * s.cols + p.x;
    BlanksFollow(p.page[..at] + [ink] + p.page[at + 1..], p, s, at, w, blank);
    OneAndBlanks(p.page, at, w - 1, ink, blank);
  }

  lemma BlanksFollow(v: seq<Cell>, p: Picture, s: Setup, at: nat, w: nat, blank: Cell)
    requires Fits(Picture(v, p.x + 1, p.y), s) && 0 < w && p.x + w <= s.cols && at == p.y * s.cols + p.x
    ensures at + w <= |v|
    ensures Repeated(Picture(v, p.x + 1, p.y), s, false, w - 1, blank, blank)
              == Picture(Copies(v, at + 1, w - 1, blank), p.x + w, p.y)
  {
    hide Printed, Repeated, Copies, Fits;
    RepeatedInRow(Picture(v, p.x + 1, p.y), s, w - 1, blank, blank);
  }

  lemma OneAndBlanks(v: seq<Cell>, at: nat, m: nat, ink: Cell, blank: Cell)
    requires at + 1 + m <= |v|
    ensures var w := v[..at] + [ink] + v[at + 1..];
            |w| == |v| && Copies(w, at + 1, m, blank) == v[..at] + [ink] + Blanks(m, blank) + v[at + 1 + m..]
  {
  }

  lemma WidthIsNoMatter(p: Picture, s: Setup, w: nat, ink: Cell, blank: Cell)
    requires Fits(p, s)
    ensures Printed(p, s, false, w, ink, blank) == Printed(p, s, false, 1, ink, blank)
  {
    hide Typed;
  }

  /** A byte above ASCII that opens no sequence of code points shows the mark, in every character set. */
  lemma StrayByte(t: Tables, s: State, c: Byte)
    requires AtRest(s) && c >= 0x80 && !IsLead(c)
    ensures ShowsGlyph(s, Next(t, s, c), 0xfe) && SameSettings(s, Next(t, s, c)) && Idle(Next(t, s, c))
  {
    hide Steady, Graphic, ShowsGlyph, SameSettings, Step, Decoded, SpecialGlyph;
    StrayStep(s, c);
    assert s.(parser := s.parser.(gSelect := 0)) == s;
    GlyphStays(s, 0xfe);
    GlyphIsShown(s, 0xfe);
  }

  lemma StrayStep(s: State, c: Byte)
    requires s.decoder.remaining == 0 && c >= 0x80 && !IsLead(c)
    ensures Step(s.decoder, c).1 == Passed && Decoded(s, c) == s && SpecialGlyph(c as char) == -1
  {
  }

  /** A sequence of code points that breaks off shows the mark before the byte that breaks it off has its own effect. */
  lemma BrokenSequence(t: Tables, s: State, c: Byte)
    requires Steady(s) && s.decoder.remaining != 0 && !IsTail(c) && !s.parser.discard && c != 0x18 && c != 0x1a
    ensures ShowsGlyph(s, Decoded(s, c), 0xfe) && Decoded(s, c).modes == s.modes
    ensures Next(t, s, c) == if IsLead(c) then Decoded(s, c) else Single(t, Decoded(s, c), c)
  {
    hide Steady, Printed, ShowsGlyph, Single;
    GlyphIsShown(s, 0xfe);
    SameMark(s);
    ShowsSame(s, Graphic(s, 0xfe, 1), Decoded(s, c), 0xfe);
  }

  lemma SameMark(s: State)
    ensures Glyph(s, 0xfe, 1).look == Graphic(s, 0xfe, 1).look && Glyph(s, 0xfe, 1).modes == s.modes
  {
  }

  lemma ShowsSame(s: State, r: State, q: State, c: nat)
    requires ShowsGlyph(s, r, c) && q.look == r.look
    ensures ShowsGlyph(s, q, c)
  {
  }

  // ----- what REP repeats

  /** After a control character there is nothing to repeat; NUL, BEL, CAN, SUB and DEL change nothing else. */
  lemma ControlForgets(t: Tables, s: State, c: Byte)
    requires AtRest(s) && ((c < 0x20 && c != 0x1b && c != 14 && c != 15) || c == 0x7f)
    ensures !Next(t, s, c).options.graphic && Idle(Next(t, s, c)) && SameSettings(s, Next(t, s, c))
    ensures c in {0, 7, 0x18, 0x1a, 0x7f} ==> Next(t, s, c).look == s.look
  {
    hide Next, Shows;
    if c != 0x18 && c != 0x1a {
      SingleStep(t, s, c);
    } else {
      CancelEnds(t, s, c);
      CancelForgets(t, s, c);
    }
  }

  lemma CancelForgets(t: Tables, s: State, c: Byte)
    requires c == 0x18 || c == 0x1a
    ensures !Next(t, s, c).options.graphic && SameSettings(s, Next(t, s, c)) && Next(t, s, c).look == s.look
  {
  }

  /** Then REP does nothing. */
  lemma NothingToRepeat(t: Tables, s: State, ds: seq<Word32>)
    requires AtRest(s) && !s.parser.private && !s.options.graphic && forall i :: 0 <= i < |ds| ==> ds[i] < 10
    ensures After(t, s, [ESC, '[' as Byte] + (Spelled([ds]) + ['b' as Byte])).look == s.look
  {
    hide Steady, After, Meant, Spelled;
    ControlSequenceRuns(t, s, [ds], 'b' as Byte);
  }

  /** From picture p to q, n copies of a cell stand in the row from the cursor on, if they fit there. */
  predicate CopiesInRow(p: Picture, q: Picture, cols: nat, n: nat, ink: Cell) {
    var at := p.y * cols + p.x;
    p.x + n <= cols ==>
      at + n <= |p.page| && q == Picture(Copies(p.page, at, n, ink), p.x + n, p.y)
  }

  lemma CopiesFit(p: Picture, s: Setup, m: nat, ink: Cell, blank: Cell)
    requires Fits(p, s) && Fits(Printed(p, s, false, 1, ink, blank), s)
    ensures CopiesInRow(p, Repeated(Printed(p, s, false, 1, ink, blank), s, false, m, ink, blank), s.cols, m + 1, ink)
  {
    hide Printed, Repeated, Copies, Fits;
    LineFits(p, s);
    if p.x + m + 1 <= s.cols {
      PrintedPushes(p, s, ink, blank);
      RepeatedInRow(Printed(p, s, false, 1, ink, blank), s, m, ink, blank);
      OneAndMore(p.page, p.y * s.cols + p.x, m, ink);
    }
  }

  /** What the parameter of REP asks for. */
  function Times(ds: seq<Word32>): nat
    requires forall i :: 0 <= i < |ds| ==> ds[i] < 10
  {
    Min(if ReadDigits(ds) == 0 then 1 else ReadDigits(ds) as nat, 65535)
  }

  /** In a row with room, and without insert mode, a byte and REP show it 1 + min(n, 65535) times, n being at least
      1. */
  lemma RepeatsInRow(t: Tables, s: State, c: Byte, ds: seq<Word32>)
    requires AtRest(s) && !s.parser.private && StandsForItself(s, c) && !s.options.insert
    requires forall i :: 0 <= i < |ds| ==> ds[i] < 10
    ensures CopiesInRow(s.look.pic, After(t, s, [c] + ([ESC, '[' as Byte] + (Spelled([ds]) + ['b' as Byte]))).look.pic,
                        s.look.cols, Times(ds) + 1, Cell(c as nat, s.look.fg, s.look.bg))
  {
    hide After, Spelled, ReadDigits, Printed, Repeated, SavedOnScreen, ParserOk, ModesOk, Graphic, CopiesInRow;
    RepeatsLast(t, s, c, ds);
    GlyphStays(s, c as nat);
    GlyphKeepsIt(s, c as nat);
    CopiesFit(s.look.pic, SetupOf(s), Times(ds), Cell(c as nat, s.look.fg, s.look.bg), BlankOf(s));
  }

  lemma GlyphKeepsIt(s: State, c: nat)
    requires Steady(s)
    ensures OnScreen(Graphic(s, c, 1))
  {
    hide Graphic, SavedOnScreen, ParserOk, ModesOk;
    GraphicKeeps(s, c, 1);
  }

  lemma OneAndMore(v: seq<Cell>, at: nat, m: nat, ink: Cell)
    requires at + 1 + m <= |v|
    ensures var w := v[..at] + [ink] + v[at + 1..];
            Copies(w, at + 1, m, ink) == Copies(v, at, m + 1, ink)
  {
  }

  // ----- control characters and line escapes

  /** A control character between sequences acts on the picture alone. */
  lemma ControlByte(t: Tables, s: State, c: Byte)
    requires AtRest(s) && 0 < c < 0x20 && c !in {14, 15, 0x18, 0x1a, 0x1b}
    ensures OnScreen(s) && SameSettings(s, Next(t, s, c)) && Idle(Next(t, s, c))
    ensures Next(t, s, c).look.pic == AfterC0(c as int, s.look.pic, RegionOf(s), BlankOf(s))
  {
    hide Next, AfterC0, Shows;
    SingleStep(t, s, c);
  }

  /** LF, VT and FF between sequences feed one line. */
  lemma FeedByte(t: Tables, s: State, c: Byte)
    requires AtRest(s) && c in {10, 11, 12}
    ensures FeedsDown(s.look.pic, Next(t, s, c).look.pic, RegionOf(s), BlankOf(s))
    ensures s.look.pic.y + 1 < s.look.rows ==> Next(t, s, c).look.pic.x == Min(s.look.pic.x, s.look.cols - 1)
  {
    hide Next, AfterC0, FeedsDown;
    ControlByte(t, s, c);
    C0Means(c as int, s.look.pic, RegionOf(s), BlankOf(s));
  }

  /** ESC D and ESC E feed one line, ESC E to its start; ESC M feeds back. */
  lemma FeedEscapes(t: Tables, s: State)
    requires AtRest(s)
    ensures FeedsDown(s.look.pic, After(t, s, [ESC, 'D' as Byte]).look.pic, RegionOf(s), BlankOf(s))
    ensures FeedsDown(s.look.pic, After(t, s, [ESC, 'E' as Byte]).look.pic, RegionOf(s), BlankOf(s))
    ensures After(t, s, [ESC, 'E' as Byte]).look.pic.x == 0
    ensures FeedsUp(s.look.pic, After(t, s, [ESC, 'M' as Byte]).look.pic, RegionOf(s), BlankOf(s))
  {
    hide After, LineFeed, ReverseLineFeed, FeedsDown, FeedsUp, SavedOnScreen, ParserOk, ModesOk;
    EscapeRuns(t, s, 'D' as Byte);
    EscapeRuns(t, s, 'E' as Byte);
    EscapeRuns(t, s, 'M' as Byte);
    var p, g, blank := s.look.pic, RegionOf(s), BlankOf(s);
    LineFeedMeans(p, g, Column(p, g), blank);
    LineFeedMeans(p, g, 0, blank);
    FeedIgnoresColumn(p, LineFeed(p, g, 0, blank), g, blank);
    ReverseMeans(p, g, blank);
  }

  lemma FeedIgnoresColumn(p: Picture, q: Picture, g: Geometry, blank: Cell)
    ensures FeedsDown(p, q.(x := 0), g, blank) == FeedsDown(p, q, g, blank)
  {
  }

  // ----- character sets

  /** ESC ( and ESC ) name the set 0 or 1, 0 the line-drawing one and B the default one; nothing else changes. */
  lemma Designates(t: Tables, s: State, k: nat, c: Byte)
    requires AtRest(s) && k < 2 && (c == '0' as Byte || c == 'B' as Byte)
    ensures var r := After(t, s, [ESC, if k == 0 then '(' as Byte else ')' as Byte] + [c]);
            && Idle(r) && r.look == s.look && r.options == s.options && r.saved == s.saved
            && r.modes == s.modes.(charsets := s.modes.charsets[k := if c == '0' as Byte then DecSpecial else Default])
  {
    hide OnScreen, SavedOnScreen, Next;
    var open := if k == 0 then '(' as Byte else ')' as Byte;
    EscapeRuns(t, s, open);
    AfterBoth(t, s, [ESC, open], [c]);
    var e := After(t, s, [ESC, open]);
    AfterOne(t, e, c);
    SingleStep(t, e, c);
  }

  /** SO puts set 1 into use, SI set 0. */
  lemma ShiftsSet(t: Tables, s: State, c: Byte)
    requires AtRest(s) && (c == 14 || c == 15)
    ensures var r := Next(t, s, c);
            Idle(r) && r.modes == s.modes.(charset := if c == 14 then 1 else 0) && r.look == s.look
            && r.saved == s.saved
  {
    hide Next, OnScreen, SavedOnScreen;
    SingleStep(t, s, c);
  }

  // ----- whole control sequences

  /** A movement sequence with its parameters spelled out moves the cursor and nothing else. */
  lemma MoveRuns(t: Tables, s: State, parameters: seq<seq<Word32>>, c: Byte)
    requires AtRest(s) && !s.parser.private && AllDigits(parameters) && 1 <= |parameters| <= MAX_VALUES
    requires IsFinal(c) && IsMove(c as char)
    ensures var r, n := After(t, s, [ESC, '[' as Byte] + (Spelled(parameters) + [c])), Meant(parameters, c as char);
            OnScreen(s) && Idle(r) && SameSettings(s, r)
            && Moves(c as char, s.look.pic, r.look.pic, RegionOf(s), n[0] as nat, n[1] as nat)
  {
    hide Steady, After, AfterControl, Meant, Spelled, Moves;
    PlainSequenceRuns(t, s, parameters, c);
    var n := Meant(parameters, c as char);
    MoveMeans(c as char, s.look.pic, RegionOf(s), n[0] as nat, n[1] as nat, BlankOf(s));
  }

  /** The space character in the colours of the text. */
  function Space(s: State): Cell {
    Cell(' ' as nat, s.look.fg, s.look.bg)
  }

  /** EL, ED and ECH with their parameters spelled out blank exactly the cells they name. */
  lemma EraseRuns(t: Tables, s: State, parameters: seq<seq<Word32>>, c: Byte, a: nat, b: nat)
    requires AtRest(s) && !s.parser.private && AllDigits(parameters) && 1 <= |parameters| <= MAX_VALUES
    requires c as char in "KJX" && IsFinal(c) && a < s.look.rows && b < s.look.cols
    ensures var r, n := After(t, s, [ESC, '[' as Byte] + (Spelled(parameters) + [c])), Meant(parameters, c as char)[0];
            var p, j := s.look.pic, a * s.look.cols + b;
            && j < |r.look.pic.page| == |p.page|
            && r.look.pic.page[j] == if Erases(c as char, n as nat, Min(p.x, s.look.cols - 1), p.y, a, b)
                                     then Space(s)
                                     else p.page[j]
  {
    hide After, AfterControl, Meant, Spelled, SavedOnScreen, ParserOk, ModesOk, Erases;
    PlainSequenceRuns(t, s, parameters, c);
    var n := Meant(parameters, c as char);
    EraseMeans(c as char, s.look.pic, RegionOf(s), n[0] as nat, n[1] as nat, BlankOf(s), a, b);
  }

  /** A sequence without parameters: EL and ED erase from the cursor on, the other functions count one. */
  lemma BareSequence(t: Tables, s: State, c: Byte)
    requires AtRest(s) && !s.parser.private && IsFinal(c) && c != '[' as Byte && c != 'b' as Byte
             && !IsSetting(c as char)
    ensures var r, n := After(t, s, [ESC, '[' as Byte] + [c]), if c as char in "JKqmc]" then 0 else 1;
            OnScreen(s) && Idle(r) && SameSettings(s, r)
            && r.look.pic == AfterControl(c as char, s.look.pic, RegionOf(s), n, n, BlankOf(s))
  {
    hide Steady, After, AfterControl, Meant;
    NoParameters(c);
    PlainSequenceRuns(t, s, [[]], c);
    MeantAt([[]], c as char, 0);
    MeantAt([[]], c as char, 1);
  }

  lemma NoParameters(c: Byte)
    ensures Spelled([[]]) + [c] == [c]
  {
  }

  /** ESC [ K and ESC [ J: blank from the cursor to the end of the line, or of the screen. */
  lemma BareErase(t: Tables, s: State, a: nat, b: nat)
    requires AtRest(s) && !s.parser.private && a < s.look.rows && b < s.look.cols
    ensures var p, j := s.look.pic, a * s.look.cols + b;
            var x := Min(p.x, s.look.cols - 1);
            var line := After(t, s, [ESC, '[' as Byte] + ['K' as Byte]).look.pic.page;
            var page := After(t, s, [ESC, '[' as Byte] + ['J' as Byte]).look.pic.page;
            && j < |p.page| == |line| == |page|
            && line[j] == (if a == p.y && b >= x then Space(s) else p.page[j])
            && page[j] == (if a > p.y || (a == p.y && b >= x) then Space(s) else p.page[j])
  {
    hide After, AfterControl, SavedOnScreen, ParserOk, ModesOk;
    BareSequence(t, s, 'K' as Byte);
    BareSequence(t, s, 'J' as Byte);
    EraseMeans('K', s.look.pic, RegionOf(s), 0, 0, BlankOf(s), a, b);
    EraseMeans('J', s.look.pic, RegionOf(s), 0, 0, BlankOf(s), a, b);
  }

  /** SGR: colours and style are those that the table of the terminal gives for the parameters; all else stays. */
  lemma PenFromParameters(t: Tables, s: State, parameters: seq<seq<Word32>>)
    requires AtRest(s) && !s.parser.private && AllDigits(parameters) && 1 <= |parameters| <= MAX_VALUES
    ensures var r := After(t, s, [ESC, '[' as Byte] + (Spelled(parameters) + ['m' as Byte]));
            && PenOf(r) == t.sgr(PenOf(s), Meant(parameters, 'm'), GivenCount(parameters))
            && r.look.pic == s.look.pic && r.options == s.options && r.saved == s.saved
            && r.modes.(style := s.modes.style) == s.modes && Idle(r)
  {
    hide Steady, After, Meant, Spelled, GivenCount;
    ControlSequenceRuns(t, s, parameters, 'm' as Byte);
  }

  /** SM and RM with parameter 4 switch insert mode. */
  lemma InsertSwitch(t: Tables, s: State, on: bool)
    requires AtRest(s) && !s.parser.private
    ensures var r := After(t, s, [ESC, '[' as Byte] + (Spelled([[4]]) + [if on then 'h' as Byte else 'l' as Byte]));
            Idle(r) && r.look == s.look && r.modes == s.modes && r.saved == s.saved
            && r.options == s.options.(insert := on)
  {
    hide Steady, After, Meant, Spelled;
    var c := if on then 'h' as Byte else 'l' as Byte;
    ControlSequenceRuns(t, s, [[4]], c);
    MeantAt([[4]], c as char, 0);
    FourIsRead();
  }

  lemma FourIsRead()
    ensures ReadDigits([4]) == 4
  {
    assert [4 as Word32][..0] == [];
  }

  /** DECSTBM: the margins become the lines given, or the whole screen, and the cursor goes to the first position. */
  lemma MarginsSwitch(t: Tables, s: State, parameters: seq<seq<Word32>>)
    requires AtRest(s) && !s.parser.private && AllDigits(parameters) && 1 <= |parameters| <= MAX_VALUES
    ensures var r := After(t, s, [ESC, '[' as Byte] + (Spelled(parameters) + ['r' as Byte]));
            var n := Meant(parameters, 'r');
            var first := if GivenCount(parameters) > 0 then n[0] as nat else 1;
            var last := if GivenCount(parameters) > 1 then n[1] as nat else s.look.rows;
            && (if first < last <= s.look.rows then r.modes.top + 1 == first && r.modes.bottom == last
                else r.modes.top == 0 && r.modes.bottom == s.look.rows)
            && r.look.pic == s.look.pic.(x := 0, y := if s.modes.origin then r.modes.top else 0)
  {
    hide Steady, After, Meant, Spelled, Margins, GivenCount;
    ControlSequenceRuns(t, s, parameters, 'r' as Byte);
    MeantAt(parameters, 'r', 0);
    MarginsMean(s.look.rows, GivenCount(parameters), Meant(parameters, 'r')[0] as nat,
                Meant(parameters, 'r')[1] as nat);
  }

  // ----- sequences that are not understood

  /** Inside an ordinary control sequence of which a byte was not understood. */
  predicate Skipping(s: State) {
    InSequence(s) && s.parser.unhandled && !s.parser.private && s.parser.gSelect == 0 && s.parser.offset >= 2
  }

  /** Nothing but the parser has changed. */
  predicate Untouched(s: State, r: State) {
    r == s.(parser := r.parser)
  }

  /** Bytes that cannot end a control sequence. */
  predicate Inner(w: seq<Byte>) {
    |w| < 0x1_0000_0000 && forall i :: 0 <= i < |w| ==> 0x20 <= w[i] < 0x40
  }

  lemma SkippingStep(t: Tables, s: State, c: Byte)
    requires Skipping(s) && 0x20 <= c < 0x40 && s.parser.offset + 1 < 0x1_0000_0000_0000_0000
    ensures var r := Next(t, s, c);
            Skipping(r) && Untouched(s, r) && r.parser.offset == s.parser.offset + 1
  {
    hide Next, AppendDigit, Defaulted, DefaultOf;
    SequenceStep(t, s, c);
  }

  lemma {:induction false} SkippingRuns(t: Tables, s: State, w: seq<Byte>)
    requires Skipping(s) && Inner(w) && s.parser.offset + |w| < 0x1_0000_0000_0000_0000
    ensures var r := After(t, s, w);
            Skipping(r) && Untouched(s, r) && r.parser.offset == s.parser.offset + |w|
    decreases |w|
  {
    hide Next, Skipping;
    if w != [] {
      SkippingRuns(t, s, w[..|w| - 1]);
      SkippingStep(t, After(t, s, w[..|w| - 1]), w[|w| - 1]);
    }
  }

  lemma SkippingEnds(t: Tables, s: State, c: Byte)
    requires Skipping(s) && IsFinal(c) && s.parser.offset + 1 < 0x1_0000_0000_0000_0000
    ensures Idle(Next(t, s, c)) && Untouched(s, Next(t, s, c))
  {
    hide Next, Defaulted, DefaultOf;
    SequenceStep(t, s, c);
  }

  lemma SkippingBegins(t: Tables, s: State, u: Byte)
    requires AtRest(s) && !s.parser.private && 0x20 <= u < 0x40 && !IsDigit(u) && u != ';' as Byte && u != '?' as Byte
    ensures var r := After(t, s, [ESC, '[' as Byte] + [u]);
            Skipping(r) && Untouched(s, r) && r.parser.offset == 2
  {
    hide Steady, Next, Zeros, Defaulted, DefaultOf;
    EscapeRuns(t, s, '[' as Byte);
    var b := After(t, s, [ESC, '[' as Byte]);
    AfterBoth(t, s, [ESC, '[' as Byte], [u]);
    AfterOne(t, b, u);
    SequenceStep(t, b, u);
  }

  /** ESC [ and a byte that means nothing there: everything up to the final byte is skipped, without any effect. */
  lemma UnknownIsSkipped(t: Tables, s: State, u: Byte, w: seq<Byte>, c: Byte)
    requires AtRest(s) && !s.parser.private && 0x20 <= u < 0x40 && !IsDigit(u) && u != ';' as Byte && u != '?' as Byte
    requires Inner(w) && IsFinal(c)
    ensures var r := After(t, s, [ESC, '[' as Byte] + [u] + w + [c]); Idle(r) && Untouched(s, r)
  {
    hide AtRest, Next, After, Skipping, Idle;
    var head := [ESC, '[' as Byte] + [u];
    SkippingBegins(t, s, u);
    AfterBoth(t, s, head, w);
    SkippingRuns(t, After(t, s, head), w);
    AfterBoth(t, s, head + w, [c]);
    AfterOne(t, After(t, s, head + w), c);
    SkippingEnds(t, After(t, s, head + w), c);
  }

  // ----- sequences that start over

  /** ESC twice is ESC. */
  lemma EscapeTwice(t: Tables, s: State)
    requires AtRest(s)
    ensures After(t, s, [ESC, ESC]) == After(t, s, [ESC])
  {
    hide Steady, Next;
    EscapeRuns(t, s, ESC);
    AfterOne(t, s, ESC);
    SingleStep(t, s, ESC);
  }

  /** Equal but for the parameter buffer. */
  predicate SameButBuffer(s: State, r: State) {
    r == s.(parser := s.parser.(values := r.parser.values, count := r.parser.count, inside := r.parser.inside,
                                unhandled := r.parser.unhandled))
  }

  /** ESC inside a control sequence gives it up, wherever its parameters have got to, and starts over. */
  lemma EscapeRestarts(t: Tables, s: State, parameters: seq<seq<Word32>>)
    requires AtRest(s) && !s.parser.private && AllDigits(parameters) && 1 <= |parameters| <= MAX_VALUES
    ensures SameButBuffer(After(t, s, [ESC]), After(t, s, [ESC, '[' as Byte] + (Spelled(parameters) + [ESC])))
  {
    hide Steady, Next, Spelled, Zeros, Sent, Defaulted, DefaultOf, After, Reading;
    AfterOne(t, s, ESC);
    SingleStep(t, s, ESC);
    EscapeRuns(t, s, '[' as Byte);
    var b := After(t, s, [ESC, '[' as Byte]);
    AfterBoth(t, s, [ESC, '[' as Byte], Spelled(parameters) + [ESC]);
    ParametersRun(t, b, parameters);
    AfterBoth(t, b, Spelled(parameters), [ESC]);
    var r := After(t, b, Spelled(parameters));
    ReadingIs(b, parameters);
    AfterOne(t, r, ESC);
    SequenceStep(t, r, ESC);
  }

  lemma ReadingIs(s: State, parameters: seq<seq<Word32>>)
    requires AllDigits(parameters) && parameters != []
    ensures var r := Reading(s, parameters);
            SameButBuffer(s, r) && r.parser.unhandled == s.parser.unhandled && |r.parser.values| == MAX_VALUES
  {
  }

  // ----- operating system commands

  /** Inside an operating system command. */
  predicate InCommand(s: State) {
    s.decoder.remaining == 0 && !s.parser.discard && s.parser.escape && s.parser.osc && !s.parser.oscEscape
    && !s.parser.csi && s.parser.gSelect == 0
  }

  /** ASCII bytes that neither end nor cancel a command. */
  predicate CommandText(w: seq<Byte>) {
    forall i :: 0 <= i < |w| ==> w[i] < 0x80 && w[i] !in {7, 0x18, 0x1a, 0x1b}
  }

  lemma CommandStep(t: Tables, s: State, c: Byte)
    requires InCommand(s) && c < 0x80 && c != 0x18 && c != 0x1a
    ensures Next(t, s, c) == Command(Advanced(s, s.parser.offset + 1), c)
  {
    hide Next;
    SingleStep(t, s, c);
  }

  lemma {:induction false} CommandRuns(t: Tables, s: State, w: seq<Byte>)
    requires InCommand(s) && CommandText(w)
    ensures InCommand(After(t, s, w)) && Untouched(s, After(t, s, w))
    decreases |w|
  {
    hide Next;
    if w != [] {
      CommandRuns(t, s, w[..|w| - 1]);
      CommandStep(t, After(t, s, w[..|w| - 1]), w[|w| - 1]);
    }
  }

  lemma CommandEnds(t: Tables, s: State)
    requires InCommand(s)
    ensures Idle(After(t, s, [7])) && Untouched(s, After(t, s, [7]))
    ensures Idle(After(t, s, [ESC, '\\' as Byte])) && Untouched(s, After(t, s, [ESC, '\\' as Byte]))
  {
    hide Next;
    AfterOne(t, s, 7);
    CommandStep(t, s, 7);
    assert [ESC, '\\' as Byte] == [ESC] + ['\\' as Byte];
    AfterBoth(t, s, [ESC], ['\\' as Byte]);
    AfterOne(t, s, ESC);
    CommandStep(t, s, ESC);
    var e := After(t, s, [ESC]);
    AfterOne(t, e, '\\' as Byte);
    SingleStep(t, e, '\\' as Byte);
  }

  /** ESC ], any text in ASCII, and BEL or ESC \: without any effect on the terminal itself. */
  lemma CommandIsSilent(t: Tables, s: State, w: seq<Byte>, end: seq<Byte>)
    requires AtRest(s) && CommandText(w) && (end == [7] || end == [ESC, '\\' as Byte])
    ensures var r := After(t, s, [ESC, ']' as Byte] + w + end); Idle(r) && Untouched(s, r)
  {
    hide Steady, Next, After;
    EscapeRuns(t, s, ']' as Byte);
    AfterBoth(t, s, [ESC, ']' as Byte], w);
    CommandRuns(t, After(t, s, [ESC, ']' as Byte]), w);
    AfterBoth(t, s, [ESC, ']' as Byte] + w, end);
    CommandEnds(t, After(t, s, [ESC, ']' as Byte] + w));
  }

  // ----- private modes

  /** ESC [ ? n h and ESC [ ? n l for one mode. */
  lemma PrivateSwitch(t: Tables, s: State, ds: seq<Word32>, on: bool)
    requires AtRest(s) && ds != [] && (forall i :: 0 <= i < |ds| ==> ds[i] < 10) && ReadDigits(ds) != 0
    ensures var r := After(t, s, PrivateBytes(ds, on));
            Idle(r) && !r.parser.private && r == DecMode(s, ReadDigits(ds), on).(parser := r.parser)
  {
    hide Steady, After, Meant, Spelled, DecMode, DecModes, ReadDigits;
    var c := if on then 'h' as Byte else 'l' as Byte;
    PrivateSequenceRuns(t, s, [ds], c);
    MeantAt([ds], c as char, 0);
    assert Meant([ds], c as char)[..1] == [ReadDigits(ds)];
    OneMode(s, ReadDigits(ds), on);
  }

  function PrivateBytes(ds: seq<Word32>, on: bool): seq<Byte>
    requires AllDigits([ds])
  {
    [ESC, '[' as Byte] + [('?' as Byte)] + (Spelled([ds]) + [if on then 'h' as Byte else 'l' as Byte])
  }

  /** Mode 6: positions count from the region, and the cursor goes to its first one; off, to that of the screen. */
  lemma OriginSwitch(t: Tables, s: State, on: bool)
    requires AtRest(s)
    ensures var r := After(t, s, PrivateBytes([6], on));
            && r.modes == s.modes.(origin := on) && r.saved == s.saved && r.options == s.options
            && r.look == s.look.(pic := s.look.pic.(x := 0, y := if on then s.modes.top else 0))
  {
    hide Steady, After, PrivateBytes, ReadDigits;
    SixIsRead();
    PrivateSwitch(t, s, [6], on);
  }

  /** Mode 7: wrapping at the end of a row. */
  lemma WrapSwitch(t: Tables, s: State, on: bool)
    requires AtRest(s)
    ensures var r := After(t, s, PrivateBytes([7], on));
            r.modes == s.modes.(wrap := on) && r.look == s.look && r.saved == s.saved && r.options == s.options
  {
    hide Steady, After, PrivateBytes, ReadDigits;
    SevenIsRead();
    PrivateSwitch(t, s, [7], on);
  }

  /** Mode 25: the cursor is shown. */
  lemma CursorSwitch(t: Tables, s: State, on: bool)
    requires AtRest(s)
    ensures var r := After(t, s, PrivateBytes([2, 5], on));
            r.options == s.options.(cursorOn := on) && r.look == s.look && r.modes == s.modes && r.saved == s.saved
  {
    hide Steady, After, PrivateBytes, ReadDigits;
    TwentyFiveIsRead();
    PrivateSwitch(t, s, [2, 5], on);
  }

  lemma SevenIsRead()
    ensures ReadDigits([7]) == 7
  {
    assert [7 as Word32][..0] == [];
  }

  lemma TwentyFiveIsRead()
    ensures ReadDigits([2, 5]) == 25
  {
    assert [2 as Word32, 5][..1] == [2] && [2 as Word32][..0] == [];
  }

  lemma ScreenModeIsRead()
    ensures ReadDigits([1, 0, 4, 9]) == 1049
  {
    assert [1 as Word32, 0, 4, 9][..3] == [1, 0, 4] && [1 as Word32, 0, 4][..2] == [1, 0];
    assert [1 as Word32, 0][..1] == [1] && [1 as Word32][..0] == [];
  }

  /**
   Mode 1049, the alternate screen: switching it on shows a blank screen; whatever is done there short of saving the
   state again, switching it off brings back cursor, colours and modes of before, on a blank screen.
   */
  lemma AlternateScreen(t: Tables, s: State, bytes: seq<Byte>)
    requires AtRest(s)
    requires var a := After(t, s, PrivateBytes([1, 0, 4, 9], true)); NoSave(t, a, bytes) && Idle(After(t, a, bytes))
    ensures var a := After(t, s, PrivateBytes([1, 0, 4, 9], true));
            a.look.pic == Picture(Blanks(s.look.rows * s.look.cols, BlankOf(s)), 0, 0)
            && a.modes == s.modes.(top := 0, bottom := s.look.rows)
    ensures var m := After(t, s, PrivateBytes([1, 0, 4, 9], true) + bytes);
            var r := After(t, s, PrivateBytes([1, 0, 4, 9], true) + bytes + PrivateBytes([1, 0, 4, 9], false));
            && Idle(r) && r.modes == s.modes && r.look.fg == s.look.fg && r.look.bg == s.look.bg
            && r.look.pic == Picture(Blanks(m.look.rows * m.look.cols, BlankOf(m)), s.look.pic.x, s.look.pic.y)
  {
    hide Steady, Safe, After, NoSave, PrivateBytes, ReadDigits, Blanks;
    var enter, leave := PrivateBytes([1, 0, 4, 9], true), PrivateBytes([1, 0, 4, 9], false);
    ScreenModeIsRead();
    PrivateSwitch(t, s, [1, 0, 4, 9], true);
    AfterKeeps(t, s, enter);
    var a := After(t, s, enter);
    RunKeepsSaved(t, a, bytes);
    AfterKeeps(t, a, bytes);
    PrivateSwitch(t, After(t, a, bytes), [1, 0, 4, 9], false);
    AfterBoth(t, s, enter, bytes);
    AfterBoth(t, s, enter + bytes, leave);
  }

  // ----- reset

  /** Blank, with the cursor at home and all modes as at the start, for the saved state too. */
  predicate IsFresh(r: State) {
    && r.look.pic == Picture(Blanks(r.look.rows * r.look.cols, Space(r)), 0, 0)
    && !r.modes.origin && r.modes.wrap && r.modes.charset == 0 && r.modes.charsets == [Default, DecSpecial]
    && r.modes.top == 0 && r.modes.bottom == r.look.rows && r.saved == r.modes
    && r.options.scrolling && r.options.cursorOn && !r.options.insert && !r.options.graphic
  }

  /** Equal between sequences, but for the parameter buffer and the bits of an unfinished code point. */
  predicate Alike(r: State, w: State) {
    && Idle(r) && Idle(w) && r.look == w.look && r.modes == w.modes && r.saved == w.saved && r.options == w.options
    && r.parser.(values := w.parser.values) == w.parser
  }

  /** RIS forgets: terminals of one size and one pen are alike after the reset, and fresh. */
  lemma ResetForgets(t: Tables, s: State, u: State)
    requires AtRest(s) && AtRest(u) && s.look.cols == u.look.cols && s.look.rows == u.look.rows
    requires t.reset(PenOf(s)) == t.reset(PenOf(u))
    ensures Alike(After(t, s, [ESC, 'c' as Byte]), After(t, u, [ESC, 'c' as Byte]))
    ensures IsFresh(After(t, s, [ESC, 'c' as Byte]))
  {
    hide Steady, After, Blanks;
    EscapeRuns(t, s, 'c' as Byte);
    EscapeRuns(t, u, 'c' as Byte);
  }

  // ----- the stored position

  /** Does the byte end CSI s, or complete ESC c? */
  predicate StoresPosition(s: State, c: Byte) {
    || (s.parser.csi && !s.parser.discard && !s.parser.private && !s.parser.unhandled && c == 's' as Byte)
    || Resets(s, c)
  }

  predicate SameStored(s: State, r: State) {
    && r.options.scoX == s.options.scoX && r.options.scoY == s.options.scoY
    && r.look.cols == s.look.cols && r.look.rows == s.look.rows
  }

  lemma {:induction false} DecModesStored(s: State, values: seq<Word32>, on: bool)
    ensures SameStored(s, DecModes(s, values, on))
  {
    if values != [] {
      DecModesStored(s, values[..|values| - 1], on);
    }
  }

  lemma ControlStored(t: Tables, s: State, c: char, n: nat, q: nat)
    requires c != 's'
    ensures SameStored(s, Control(t, s, c, n, q))
  {
    hide AfterControl, Margins, Repeated, Shows, Clamp;
  }

  lemma CompleteStored(t: Tables, s: State, c: Byte)
    requires c == 's' as Byte ==> s.parser.private || s.parser.unhandled
    ensures SameStored(s, Complete(t, s, c))
  {
    hide Control, Defaulted, DefaultOf, Shows, DecModes;
    var f := s.(parser := s.parser.(values := Defaulted(s.parser.values, s.parser.count, DefaultOf(c as char))));
    DecModesStored(f.(parser := f.parser.(private := false)), Given(f.parser.values, f.parser.count), c == 'h' as Byte);
    if c != 's' as Byte {
      ControlStored(t, f, c as char, Parameter(f, 0), Parameter(f, 1));
    }
  }

  lemma SequenceStored(t: Tables, s: State, c: Byte)
    requires c == 's' as Byte ==> s.parser.private || s.parser.unhandled
    ensures SameStored(s, Sequence(t, s, c))
  {
    hide Complete, AfterC0, AppendDigit, Shows, Stored;
    if c != ';' as Byte && !IsDigit(c) {
      CompleteStored(t, s.(parser := Closed(s.parser)), c);
    }
  }

  lemma EscapeStored(t: Tables, s: State, c: Byte)
    requires ParserOk(s.parser) && s.parser.escape && !s.parser.discard && !StoresPosition(s, c)
    ensures SameStored(s, Escape(t, s, c))
  {
    hide Sequence, LineFeed, ReverseLineFeed, Shows, Zeros;
    if s.parser.csi && !s.parser.osc {
      SequenceStored(t, Advanced(s, s.parser.offset + 1), c);
    }
  }

  lemma GroundStored(s: State, c: Byte)
    ensures SameStored(s, Ground(s, c))
  {
    hide ControlChar, Graphic, Renamed, GlyphOfByte;
    var p := s.(parser := s.parser.(gSelect := 0));
    ControlCharLeaves(Forgotten(p), c);
    GraphicStored(p, GlyphOfByte(p.modes, c), 1);
  }

  lemma GraphicStored(s: State, c: nat, width: nat)
    ensures SameStored(s, Graphic(s, c, width))
  {
    hide Printed, Shows;
  }

  lemma DecodedStored(s: State, c: Byte)
    ensures SameStored(s, Decoded(s, c))
  {
    hide Step, Printed, Shows;
  }

  lemma CodePointStored(t: Tables, s: State, cp: nat)
    ensures SameStored(s, CodePoint(t, s, cp))
  {
    hide Printed, Shows, Repeated;
  }

  lemma NextStored(t: Tables, s: State, c: Byte)
    requires Steady(s) && !StoresPosition(s, c)
    ensures SameStored(s, Next(t, s, c))
  {
    hide OnScreen, SavedOnScreen, InOrigin, ModesOk, Decoded, Escape, Ground, CodePoint, Step;
    LowBytesPass(s.decoder, c);
    DecodedStored(s, c);
    DecodedStrays(s, c);
    DecodedKeeps(s, c);
    match Step(s.decoder, c).1
    case Consumed =>
    case Emitted(cp) => CodePointStored(t, Decoded(s, c), cp);
    case Passed =>
      if !s.parser.discard && s.parser.escape {
        EscapeStored(t, Decoded(s, c), c);
      } else {
        GroundStored(Decoded(s, c), c);
      }
  }

  predicate NoStore(t: Tables, s: State, bytes: seq<Byte>) {
    forall j :: 0 <= j < |bytes| ==> !StoresPosition(After(t, s, bytes[..j]), bytes[j])
  }

  lemma {:induction false} RunKeepsStored(t: Tables, s: State, bytes: seq<Byte>)
    requires Steady(s) && NoStore(t, s, bytes)
    ensures SameStored(s, After(t, s, bytes))
  {
    hide Steady, Safe, Next, StoresPosition;
    if bytes != [] {
      var init := bytes[..|bytes| - 1];
      assert forall j :: 0 <= j < |init| ==> init[..j] == bytes[..j] && init[j] == bytes[j];
      RunKeepsStored(t, s, init);
      AfterKeeps(t, s, init);
      NextStored(t, After(t, s, init), bytes[|bytes| - 1]);
    }
  }

  /** ESC [ s, any bytes that do not store the position again, and ESC [ u: the cursor is where it was, a cursor past
      the end of its row in the last column. */
  lemma StoreBrackets(t: Tables, s: State, bytes: seq<Byte>)
    requires AtRest(s) && !s.parser.private
    requires var a := After(t, s, StoreBytes());
             NoStore(t, a, bytes) && Idle(After(t, a, bytes)) && !After(t, a, bytes).parser.private
    ensures var r := After(t, s, StoreBytes() + bytes + RestoreBytes());
            Idle(r) && r.look.pic.x == Min(s.look.pic.x, s.look.cols - 1) && r.look.pic.y == s.look.pic.y
  {
    hide Safe, After, NoStore, Steady, Meant, Spelled, Idle;
    var a := After(t, s, StoreBytes());
    ControlSequenceRuns(t, s, [[]], 's' as Byte);
    AfterKeeps(t, s, StoreBytes());
    RunKeepsStored(t, a, bytes);
    AfterKeeps(t, a, bytes);
    var b := After(t, a, bytes);
    ControlSequenceRuns(t, b, [[]], 'u' as Byte);
    AfterBoth(t, s, StoreBytes(), bytes);
    AfterBoth(t, s, StoreBytes() + bytes, RestoreBytes());
    InSize(s);
    HasSize(b);
  }

  lemma InSize(s: State)
    requires Steady(s)
    ensures s.look.pic.y < s.look.rows && s.look.cols > 0
  {
  }

  // ----- the line-drawing set

  /** The directions in which a line of a box reaches, clockwise from the top. */
  datatype Arms = Arms(up: bool, right: bool, down: bool, left: bool)

  /** The line drawings of code page 437. */
  function ArmsOfGlyph(glyph: int): Arms {
    match glyph
    case 0xc4 => Arms(false, true, false, true)
    case 0xb3 => Arms(true, false, true, false)
    case 0xda => Arms(false, true, true, false)
    case 0xbf => Arms(false, false, true, true)
    case 0xc0 => Arms(true, true, false, false)
    case 0xd9 => Arms(true, false, false, true)
    case 0xc3 => Arms(true, true, true, false)
    case 0xb4 => Arms(true, false, true, true)
    case 0xc2 => Arms(false, true, true, true)
    case 0xc1 => Arms(true, true, false, true)
    case 0xc5 => Arms(true, true, true, true)
    case _ => Arms(false, false, false, false)
  }

  /** The letters j to x of the DEC special graphics set: corners clockwise from the lower right, the cross, lines,
      tees. */
  lemma BoxesMeet()
    ensures ArmsOfGlyph(SpecialGlyph('j')) == Arms(true, false, false, true)
         && ArmsOfGlyph(SpecialGlyph('k')) == Arms(false, false, true, true)
         && ArmsOfGlyph(SpecialGlyph('l')) == Arms(false, true, true, false)
         && ArmsOfGlyph(SpecialGlyph('m')) == Arms(true, true, false, false)
         && ArmsOfGlyph(SpecialGlyph('n')) == Arms(true, true, true, true)
         && ArmsOfGlyph(SpecialGlyph('q')) == Arms(false, true, false, true)
         && ArmsOfGlyph(SpecialGlyph('t')) == Arms(true, true, true, false)
         && ArmsOfGlyph(SpecialGlyph('u')) == Arms(true, false, true, true)
         && ArmsOfGlyph(SpecialGlyph('v')) == Arms(true, true, false, true)
         && ArmsOfGlyph(SpecialGlyph('w')) == Arms(false, true, true, true)
         && ArmsOfGlyph(SpecialGlyph('x')) == Arms(true, false, true, false)
  {
  }
}
