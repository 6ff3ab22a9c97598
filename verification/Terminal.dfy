/** The terminal emulator: a class over bytes that drives the screen, against the machine of Emulators (flanterm.c). */
module Terminals {
  import opened Arithmetic
  import opened Cells
  import opened Pages
  import opened Typing
  import opened Edits
  import opened Controls
  import opened Screens
  import opened Commands
  import opened Utf8
  import opened Emulators
  import opened EmulatorLaws
  import opened EmulatorRuns

  const OSC_SIZE: nat := 256

  class Terminal {
    const screen: Screen
    const tables: Tables

    // modes
    var autoflush: bool
    var cursorEnabled: bool
    var scrollEnabled: bool
    var wrapEnabled: bool
    var originMode: bool
    var insertMode: bool
    var topMargin: nat
    var bottomMargin: nat
    /** Bold, reverse video and the colour numbers of SGR. */
    var style: nat
    // parser
    var escape: bool
    var controlSequence: bool
    var osc: bool
    var oscEscape: bool
    var rrr: bool
    var discardNext: bool
    var decPrivate: bool
    var csiUnhandled: bool
    var escapeOffset: nat
    const escValues: array<Word32>
    var escValuesI: nat
    const oscBuf: array<Byte>
    var oscBufI: nat
    var unicodeRemaining: nat
    var codePoint: nat
    // character sets
    var gSelect: nat
    var charsets: seq<Charset>
    var currentCharset: nat
    var lastPrintedChar: nat
    var lastWasGraphic: bool
    // saved state
    var savedCursorX: nat
    var savedCursorY: nat
    var savedOriginMode: bool
    var savedWrapEnabled: bool
    var savedCharset: nat
    var savedCharsets: seq<Charset>
    var savedTopMargin: nat
    var savedBottomMargin: nat
    var savedStyle: nat
    /** CSI u has taken the cursor out of the region since the last reset. */
    ghost var strayed: bool

    // ----- the state as a value

    ghost function LookNow(): Look
      reads screen, screen.grid, screen.queue, screen.slots, screen.shown
    {
      Look(screen.cols, screen.rows, if screen.Valid() then screen.Pic() else Picture([], 0, 0), screen.textFg,
           screen.textBg,
           screen.savedCursorX, screen.savedCursorY, screen.savedFg, screen.savedBg)
    }

    function ModesNow(): Modes
      reads `originMode, `wrapEnabled, `currentCharset, `charsets, `topMargin, `bottomMargin, `style
    {
      Modes(originMode, wrapEnabled, currentCharset, charsets, topMargin, bottomMargin, style)
    }

    function ModesKept(): Modes
      reads `savedOriginMode, `savedWrapEnabled, `savedCharset, `savedCharsets, `savedTopMargin, `savedBottomMargin,
            `savedStyle
    {
      Modes(savedOriginMode, savedWrapEnabled, savedCharset, savedCharsets, savedTopMargin, savedBottomMargin,
            savedStyle)
    }

    function ParserNow(): Parser
      reads `discardNext, `escape, `controlSequence, `osc, `oscEscape, `decPrivate, `csiUnhandled, `rrr, `escapeOffset,
            `gSelect, `escValuesI
      reads escValues
    {
      Parser(discardNext, escape, controlSequence, osc, oscEscape, decPrivate, csiUnhandled, rrr, escapeOffset, gSelect,
             escValues[..], escValuesI)
    }

    ghost function OptionsNow(): Options
      reads `autoflush, `cursorEnabled, `scrollEnabled, `insertMode, `lastPrintedChar, `lastWasGraphic, `savedCursorX,
            `savedCursorY, `strayed
    {
      Options(autoflush, cursorEnabled, scrollEnabled, insertMode, lastPrintedChar, lastWasGraphic, savedCursorX,
              savedCursorY, strayed)
    }

    function DecoderNow(): Decoder
      reads `unicodeRemaining, `codePoint
    {
      Decoder(unicodeRemaining, codePoint)
    }

    ghost function Now(): State
      reads this, escValues, screen, screen.grid, screen.queue, screen.slots, screen.shown
    {
      State(LookNow(), ModesNow(), ModesKept(), DecoderNow(), ParserNow(), OptionsNow())
    }

    predicate Buffers()
      reads `oscBufI
    {
      escValues.Length == MAX_VALUES && oscBuf.Length == OSC_SIZE && oscBufI <= OSC_SIZE
    }

    /** What the code relies on between its steps. */
    ghost predicate Ready()
      reads this, escValues, screen, screen.grid, screen.queue, screen.slots, screen.shown
    {
      screen.Valid() && Buffers() && Steady(Now())
    }

    /** What holds between bytes. */
    ghost predicate Valid()
      reads this, escValues, screen, screen.grid, screen.queue, screen.slots, screen.shown
    {
      screen.Valid() && Buffers() && Safe(Now())
    }

    function Region(): Geometry
      reads this
    {
      Geometry(screen.cols, screen.rows, topMargin, bottomMargin, originMode)
    }

    function Mode(): Setup
      reads this
    {
      Setup(screen.cols, screen.rows, topMargin, bottomMargin, wrapEnabled, scrollEnabled)
    }

    function Ink(c: nat): Cell
      reads this, screen
    {
      Cell(c, screen.textFg, screen.textBg)
    }

    lemma ReadyShows()
      requires Ready()
      ensures screen.Valid() && screen.Shaped() && screen.CursorOk() && Shows(screen.Pic(), Region())
              && Fits(screen.Pic(), Mode())
      ensures Now().look.pic == screen.Pic() && RegionOf(Now()) == Region() && SetupOf(Now()) == Mode()
      ensures Buffers() && BlankOf(Now()) == screen.Blank() && (forall c: nat :: InkOf(Now(), c) == Ink(c))
              && OnScreen(Now())
    {
    }

    lemma ReadyParts()
      requires Ready()
      ensures ParserOk(ParserNow()) && ModesOk(ModesNow()) && ModesOk(ModesKept()) && Aligned(DecoderNow())
    {
    }

    lemma SafeIsReady()
      requires Valid()
      ensures Ready()
    {
    }

    /** A step that changes no more than the picture. */
    twostate lemma Redrawn()
      requires old(Ready()) && screen.Valid() && Shows(screen.Pic(), Region()) && Buffers()
      requires ModesNow() == old(ModesNow()) && ModesKept() == old(ModesKept()) && DecoderNow() == old(DecoderNow())
      requires ParserNow() == old(ParserNow()) && OptionsNow() == old(OptionsNow())
      requires LookNow() == old(LookNow()).(pic := screen.Pic())
      ensures Ready() && Now() == Drawn(old(Now()), screen.Pic())
    {
      hide screen.Valid, Shows;
    }

    constructor (s: Screen, t: Tables)
      requires s.Valid() && s.CursorOk() && s.savedCursorX <= s.cols && s.savedCursorY < s.rows
      ensures screen == s && tables == t && Valid() && !strayed && !originMode
      ensures fresh(escValues) && fresh(oscBuf)
    {
      hide s.Valid;
      ShapedIs(s);
      screen, tables := s, t;
      escValues := new Word32[MAX_VALUES];
      oscBuf := new Byte[OSC_SIZE];
      autoflush, cursorEnabled, scrollEnabled, wrapEnabled := true, true, true, true;
      originMode, insertMode, escape, controlSequence, osc, oscEscape := false, false, false, false, false, false;
      rrr, discardNext, decPrivate, csiUnhandled := false, false, false, false;
      escapeOffset, escValuesI, oscBufI, unicodeRemaining, codePoint, gSelect := 0, 0, 0, 0, 0, 0;
      charsets, currentCharset, savedCharsets, savedCharset := PLAIN_SETS, 0, PLAIN_SETS, 0;
      lastPrintedChar, lastWasGraphic, style, savedStyle := ' ' as nat, false, 0, 0;
      savedCursorX, savedCursorY, savedOriginMode, savedWrapEnabled := 0, 0, false, true;
      topMargin, bottomMargin, savedTopMargin, savedBottomMargin := 0, s.rows, 0, s.rows;
      strayed := false;
    }

    /** set_cursor_pos with a position inside the screen. */
    method MoveTo(x: nat, y: nat)
      requires Ready() && x < screen.cols && y < screen.rows
      modifies screen`cursorX, screen`cursorY
      ensures Ready() && screen.Pic() == Picture(old(screen.Visible()), x, y) && Now() == At(old(Now()), x, y)
    {
      hide screen.Valid;
      ReadyShows();
      screen.SetCursorPos(x, y);
      Redrawn();
    }

    method RawPutchar(c: nat)
      requires Ready()
      modifies screen`used, screen`cursorX, screen`cursorY, screen.queue, screen.slots
      ensures Ready() && Fits(old(screen.Pic()), Mode())
      ensures screen.Pic() == Typed(old(screen.Pic()), Mode(), Ink(c), screen.Blank())
              && Now() == Drawn(old(Now()), screen.Pic())
    {
      hide screen.Valid, Typed;
      ReadyShows();
      TypedStays(screen.Pic(), Mode(), Ink(c), screen.Blank());
      screen.RawPutchar(c, wrapEnabled, scrollEnabled, topMargin, bottomMargin);
      Redrawn();
    }

    /** insert_shift followed by raw_putchar. */
    method PutGlyph(c: nat, width: nat)
      requires Ready()
      modifies screen`used, screen`cursorX, screen`cursorY, screen.queue, screen.slots
      ensures Ready() && Now() == Glyph(old(Now()), c, width)
    {
      hide screen.Valid, Typed, Opened;
      ReadyShows();
      GlyphKeeps(Now(), c, width);
      InsertShift(screen, insertMode, width);
      RawPutchar(c);
    }

    /** scroll and revscroll, with the margins of the terminal. */
    method Scroll()
      requires Ready()
      modifies screen`used, screen.queue, screen.slots
      ensures Ready() && bottomMargin * screen.cols <= |screen.Visible()|
      ensures screen.Visible()
                == ScrollUp(old(screen.Visible()), screen.cols, topMargin, bottomMargin, 1, screen.Blank())
      ensures Now() == Drawn(old(Now()), screen.Pic())
    {
      hide screen.Valid, ScrollUp;
      ReadyShows();
      screen.Scroll(topMargin, bottomMargin);
      Redrawn();
    }

    method RevScroll()
      requires Ready()
      modifies screen`used, screen.queue, screen.slots
      ensures Ready() && bottomMargin * screen.cols <= |screen.Visible()|
      ensures screen.Visible()
                == ScrollDown(old(screen.Visible()), screen.cols, topMargin, bottomMargin, 1, screen.Blank())
      ensures Now() == Drawn(old(Now()), screen.Pic())
    {
      hide screen.Valid, ScrollDown;
      ReadyShows();
      screen.RevScroll(topMargin, bottomMargin);
      Redrawn();
    }

    /** LF and IND; NEL when the column is 0. */
    method Index(x: nat, nextLine: bool)
      requires Ready() && Shows(screen.Pic(), Region()) && x < screen.cols
      modifies screen`used, screen`cursorX, screen`cursorY, screen.queue, screen.slots
      ensures Ready() && Shows(old(screen.Pic()), Region())
      ensures screen.Pic() == var q := LineFeed(old(screen.Pic()), Region(), x, screen.Blank());
              if nextLine && old(screen.cursorY) == screen.rows - 1 then q.(x := x) else q
      ensures Now() == Drawn(old(Now()), screen.Pic())
    {
      hide Ready, Now, ScrollUp;
      ReadyShows();
      var y := screen.CursorPos().1;
      if y == bottomMargin - 1 {
        Scroll();
        MoveTo(x, y);
      } else if y < screen.rows - 1 {
        MoveTo(x, y + 1);
      } else if nextLine {
        MoveTo(x, y);
      }
    }

    /** RI. */
    method ReverseIndex()
      requires Ready() && Shows(screen.Pic(), Region())
      modifies screen`used, screen`cursorX, screen`cursorY, screen.queue, screen.slots
      ensures Ready() && Shows(old(screen.Pic()), Region())
      ensures screen.Pic() == ReverseLineFeed(old(screen.Pic()), Region(), screen.Blank())
      ensures Now() == Drawn(old(Now()), screen.Pic())
    {
      hide Ready, Now, ScrollDown;
      ReadyShows();
      var (x, y) := screen.CursorPos();
      if y == topMargin {
        RevScroll();
        MoveTo(x, y);
      } else if y > 0 {
        MoveTo(x, y - 1);
      }
    }

    method SelectCharset(n: nat)
      requires Ready() && n < 2
      modifies this`currentCharset
      ensures Ready() && Now() == old(Now()).(modes := old(Now()).modes.(charset := n))
    {
      hide screen.Valid, LookNow, ModesKept, ParserNow, OptionsNow, DecoderNow, Steady;
      ReadyParts();
      ModesKeep(Now(), Now().modes.(charset := n));
      currentCharset := n;
    }

    method ExecuteC0(c: Byte)
      requires Ready()
      modifies this`currentCharset, screen`used, screen`cursorX, screen`cursorY, screen.queue, screen.slots
      ensures Ready() && Now() == ControlChar(old(Now()), c)
    {
      hide Ready, Now, LineFeed;
      ReadyShows();
      var (x, y) := screen.CursorPos();
      if c == 8 {
        if x > 0 {
          MoveTo(x - 1, y);
        }
      } else if c == 9 {
        MoveTo(NextTab(screen.cols, x), y);
      } else if c == 10 || c == 11 || c == 12 {
        Index(x, false);
      } else if c == 13 {
        MoveTo(0, y);
      } else if c == 14 {
        SelectCharset(1);
      } else if c == 15 {
        SelectCharset(0);
      }
    }

    /** IND, NEL and RI. */
    method LineFunction(c: Byte)
      requires Ready() && (c == 'D' as Byte || c == 'E' as Byte || c == 'M' as Byte)
      modifies screen`used, screen`cursorX, screen`cursorY, screen.queue, screen.slots
      ensures Ready() && Now() == LineEscape(old(Now()), c)
    {
      hide Ready, Now, LineFeed, ReverseLineFeed;
      ReadyShows();
      if c == 'D' as Byte {
        Index(screen.CursorPos().0, false);
      } else if c == 'E' as Byte {
        FeedColumn(screen.Pic(), Region(), screen.Blank());
        Index(0, true);
      } else {
        ReverseIndex();
      }
    }

    // ----- saved state

    method SaveModes()
      modifies `savedOriginMode, `savedWrapEnabled, `savedCharset, `savedCharsets, `savedTopMargin, `savedBottomMargin,
               `savedStyle
      ensures ModesKept() == ModesNow()
    {
      savedOriginMode, savedWrapEnabled, savedCharset, savedCharsets :=
        originMode, wrapEnabled, currentCharset, charsets;
      savedTopMargin, savedBottomMargin, savedStyle := topMargin, bottomMargin, style;
    }

    method RestoreModes()
      modifies `originMode, `wrapEnabled, `currentCharset, `charsets, `topMargin, `bottomMargin, `style
      ensures ModesNow() == ModesKept()
    {
      originMode, wrapEnabled, currentCharset, charsets :=
        savedOriginMode, savedWrapEnabled, savedCharset, savedCharsets;
      topMargin, bottomMargin, style := savedTopMargin, savedBottomMargin, savedStyle;
    }

    method SaveLook()
      requires screen.Valid()
      modifies screen`savedFg, screen`savedBg, screen`savedCursorX, screen`savedCursorY
      ensures screen.Valid()
      ensures var l := old(LookNow());
              LookNow() == l.(savedX := l.pic.x, savedY := l.pic.y, savedFg := l.fg, savedBg := l.bg)
    {
      hide screen.Valid;
      screen.SaveState();
    }

    method RestoreLook()
      requires screen.Valid()
      modifies screen`textFg, screen`textBg, screen`cursorX, screen`cursorY
      ensures screen.Valid()
      ensures var l := old(LookNow());
              LookNow() == l.(pic := l.pic.(x := l.savedX, y := l.savedY), fg := l.savedFg, bg := l.savedBg)
    {
      hide screen.Valid;
      screen.RestoreState();
    }

    method SaveState()
      requires Ready()
      modifies `savedOriginMode, `savedWrapEnabled, `savedCharset, `savedCharsets, `savedTopMargin, `savedBottomMargin,
               `savedStyle
      modifies screen`savedFg, screen`savedBg, screen`savedCursorX, screen`savedCursorY
      ensures Ready() && Now() == SaveAll(old(Now()))
    {
      hide screen.Valid, LookNow, ModesNow, ModesKept, ParserNow, OptionsNow, DecoderNow, Steady;
      SaveKeeps(Now());
      SaveLook();
      SaveModes();
    }

    method RestoreState()
      requires Ready()
      modifies `originMode, `wrapEnabled, `currentCharset, `charsets, `topMargin, `bottomMargin, `style
      modifies screen`textFg, screen`textBg, screen`cursorX, screen`cursorY
      ensures Ready() && Now() == RestoreAll(old(Now()))
    {
      hide screen.Valid, LookNow, ModesNow, ModesKept, ParserNow, OptionsNow, DecoderNow, Steady;
      RestoreKeeps(Now());
      RestoreModes();
      RestoreLook();
    }

    // ----- DEC private modes

    /** The clear function of the screen, with the cursor home. */
    method Clear()
      requires Ready()
      modifies screen`used, screen`cursorX, screen`cursorY, screen.queue, screen.slots
      ensures Ready() && Now() == Cleared(old(Now()))
    {
      hide screen.Valid, Blanks;
      ReadyShows();
      screen.Clear(true);
      Redrawn();
    }

    method PlaceMargins(top: nat, bottom: nat)
      requires Ready() && top < bottom <= screen.rows
      modifies `topMargin, `bottomMargin
      ensures Ready() && Now() == WithMargins(old(Now()), top, bottom)
    {
      hide screen.Valid, LookNow, ModesKept, ParserNow, OptionsNow, DecoderNow, Steady;
      ReadyShows();
      MarginsKeep(Now(), top, bottom);
      topMargin, bottomMargin := top, bottom;
    }

    method ChooseOrigin(on: bool)
      requires Ready()
      modifies `originMode
      ensures Ready() && Now() == old(Now()).(modes := old(Now()).modes.(origin := on))
    {
      hide screen.Valid, LookNow, ModesKept, ParserNow, OptionsNow, DecoderNow, Steady;
      ReadyParts();
      ModesKeep(Now(), Now().modes.(origin := on));
      originMode := on;
    }

    method ChooseWrap(on: bool)
      requires Ready()
      modifies `wrapEnabled
      ensures Ready() && Now() == old(Now()).(modes := old(Now()).modes.(wrap := on))
    {
      hide screen.Valid, LookNow, ModesKept, ParserNow, OptionsNow, DecoderNow, Steady;
      ReadyParts();
      ModesKeep(Now(), Now().modes.(wrap := on));
      wrapEnabled := on;
    }

    method ShowCursor(on: bool)
      requires Ready()
      modifies `cursorEnabled
      ensures Ready() && Now() == old(Now()).(options := old(Now()).options.(cursorOn := on))
    {
      hide screen.Valid, LookNow, ModesNow, ModesKept, ParserNow, DecoderNow, Steady;
      OptionsKeep(Now(), Now().options.(cursorOn := on));
      cursorEnabled := on;
    }

    method DecSwitch(value: Word32, on: bool)
      requires Ready()
      modifies this, screen, screen.queue, screen.slots
      ensures Ready() && Now() == DecMode(old(Now()), value, on)
    {
      hide Ready, LookNow, ModesKept, ParserNow, OptionsNow, DecoderNow, SaveAll, RestoreAll, Cleared;
      ReadyShows();
      if value == 6 {
        ChooseOrigin(on);
        MoveTo(0, if on then topMargin else 0);
      } else if value == 7 {
        ChooseWrap(on);
      } else if value == 25 {
        ShowCursor(on);
      } else if value == 1049 {
        if on {
          SaveState();
          PlaceMargins(0, screen.rows);
          Clear();
        } else {
          Clear();
          RestoreState();
        }
      }
    }

    method LeavePrivate()
      requires Ready()
      modifies `decPrivate
      ensures Ready() && Now() == old(Now()).(parser := old(Now()).parser.(private := false))
    {
      hide screen.Valid, LookNow, ModesNow, ModesKept, OptionsNow, DecoderNow, Steady;
      ReadyParts();
      PrivateParser(ParserNow());
      ParserKeeps(Now(), ParserNow().(private := false));
      decPrivate := false;
    }

    /** dec_private_parse: the modes of the given parameters, one after the other. */
    method DecPrivateParse(c: Byte)
      requires Ready()
      modifies this, screen, screen.queue, screen.slots
      ensures Ready() && Now() == PrivateFinal(old(Now()), c)
    {
      hide Ready, LookNow, ModesNow, ModesKept, OptionsNow, DecoderNow, DecMode;
      ReadyParts();
      LeavePrivate();
      if escValuesI == 0 || (c != 'h' as Byte && c != 'l' as Byte) {
        return;
      }
      ghost var s, given := Now(), escValues[..escValuesI];
      var on := c == 'h' as Byte;
      for i := 0 to escValuesI
        invariant Ready() && escValuesI == |given| <= escValues.Length && escValues[..escValuesI] == given
        invariant Now() == DecModes(s, given[..i], on)
      {
        assert given[..i + 1][..i] == given[..i];
        DecModesParser(s, given[..i + 1], on);
        DecSwitch(escValues[i], on);
      }
      assert given[..|given|] == given;
    }

    // ----- CSI functions

    /** CUU, CUD, CUF, CUB, CNL, CPL, CHA, CUP, VPA and their synonyms. */
    method MoveFunction(c: char, n: nat, q: nat)
      requires Ready() && IsMove(c)
      modifies screen`cursorX, screen`cursorY
      ensures Ready() && Shows(old(screen.Pic()), Region())
      ensures screen.Pic() == AfterControl(c, old(screen.Pic()), Region(), n, q, screen.Blank())
      ensures Now() == Drawn(old(Now()), screen.Pic())
    {
      hide MovedTo, Ready, Now;
      ReadyShows();
      var (x, y) := screen.CursorPos();
      MoveStaysOnScreen(c, Region(), x, y, n, q);
      var (u, w) := MovedTo(c, Region(), x, y, n, q);
      MoveTo(u, w);
    }

    /** ED, EL, ECH. Scrolling is off and wrapping on while it runs. */
    method EraseFunction(c: char, n: nat)
      requires Ready() && c in "JKX" && wrapEnabled && !scrollEnabled
      modifies screen`used, screen`cursorX, screen`cursorY, screen.queue, screen.slots
      ensures Ready() && Shows(old(screen.Pic()), Region())
      ensures screen.Pic() == AfterControl(c, old(screen.Pic()), Region(), n, 0, screen.Blank())
      ensures Now() == Drawn(old(Now()), screen.Pic())
    {
      hide Ready, Now, ModesNow, ModesKept, ParserNow, OptionsNow, DecoderNow, Steady, Buffers, screen.Valid;
      hide screen.Visible, Inserted, Deleted, Erased, PageErased, LineErased, ScrollUp, ScrollDown;
      ReadyShows();
      var (x, y) := screen.CursorPos();
      match c {
        case 'J' => ErasePage(screen, n, x, y, topMargin, bottomMargin);
        case 'K' => EraseLine(screen, n, x, y, topMargin, bottomMargin);
        case _ => EraseCells(screen, n, x, y, topMargin, bottomMargin);
      }
      Redrawn();
    }

    /** ICH and DCH. Scrolling is off and wrapping on while it runs. */
    method ShiftFunction(c: char, n: nat)
      requires Ready() && c in "@P" && (c == 'P' ==> n > 0) && wrapEnabled && !scrollEnabled
      modifies screen`used, screen`cursorX, screen`cursorY, screen.queue, screen.slots
      ensures Ready() && Shows(old(screen.Pic()), Region())
      ensures screen.Pic() == AfterControl(c, old(screen.Pic()), Region(), n, 0, screen.Blank())
      ensures Now() == Drawn(old(Now()), screen.Pic())
    {
      hide Ready, Now, ModesNow, ModesKept, ParserNow, OptionsNow, DecoderNow, Steady, Buffers, screen.Valid;
      hide screen.Visible, Inserted, Deleted, Erased, PageErased, LineErased, ScrollUp, ScrollDown;
      ReadyShows();
      var (x, y) := screen.CursorPos();
      match c {
        case '@' => InsertCells(screen, n, x, y, topMargin, bottomMargin);
        case _ => DeleteCells(screen, n, x, y, topMargin, bottomMargin);
      }
      Redrawn();
    }

    /** SU and SD. Scrolling is off and wrapping on while it runs. */
    method ScrollFunction(c: char, n: nat)
      requires Ready() && c in "ST" && wrapEnabled && !scrollEnabled
      modifies screen`used, screen`cursorX, screen`cursorY, screen.queue, screen.slots
      ensures Ready() && Shows(old(screen.Pic()), Region())
      ensures screen.Pic() == AfterControl(c, old(screen.Pic()), Region(), n, 0, screen.Blank())
      ensures Now() == Drawn(old(Now()), screen.Pic())
    {
      hide Ready, Now, ModesNow, ModesKept, ParserNow, OptionsNow, DecoderNow, Steady, Buffers, screen.Valid;
      hide screen.Visible, Inserted, Deleted, Erased, PageErased, LineErased, ScrollUp, ScrollDown;
      ReadyShows();
      var (x, y) := screen.CursorPos();
      match c {
        case 'S' => ScrollRowsUp(screen, n, topMargin, bottomMargin);
        case _ => ScrollRowsDown(screen, n, topMargin, bottomMargin);
      }
      Redrawn();
    }

    /** DL and IL: the region from the cursor row down scrolls. */
    method MoveLines(c: char, n: nat, y: nat)
      requires Ready() && c in "ML" && y == screen.cursorY
      modifies this`topMargin, screen`used, screen.queue, screen.slots
      ensures Ready() && topMargin == old(topMargin) && Shows(old(screen.Pic()), Region())
      ensures screen.Pic() == AfterControl(c, old(screen.Pic()), Region(), n, 0, screen.Blank())
      ensures Now() == Drawn(old(Now()), screen.Pic())
    {
      hide Ready, Now, ModesNow, ModesKept, ParserNow, OptionsNow, DecoderNow, Steady, Buffers, screen.Valid;
      hide screen.Visible, ScrollUp, ScrollDown;
      ReadyShows();
      if topMargin <= y < bottomMargin {
        ScrollFrom(c, n, y);
        Redrawn();
      }
    }

    /** The part of the region from row y on scrolls, under a margin that is put back. */
    method ScrollFrom(c: char, n: nat, y: nat)
      requires screen.Valid() && c in "ML" && y < bottomMargin <= screen.rows
      modifies this`topMargin, screen`used, screen.queue, screen.slots
      ensures screen.Valid() && topMargin == old(topMargin) && bottomMargin * screen.cols <= |screen.Visible()|
      ensures screen.Visible() == if c == 'M'
                                  then ScrollUp(old(screen.Visible()), screen.cols, y, bottomMargin,
                                                Min(n, bottomMargin - y), screen.Blank())
                                  else ScrollDown(old(screen.Visible()), screen.cols, y, bottomMargin,
                                                  Min(n, bottomMargin - y), screen.Blank())
    {
      hide screen.Valid, screen.Visible, ScrollUp, ScrollDown;
      var oldTop := topMargin;
      topMargin := y;
      if c == 'M' {
        ScrollRowsUp(screen, n, topMargin, bottomMargin);
      } else {
        ScrollRowsDown(screen, n, topMargin, bottomMargin);
      }
      topMargin := oldTop;
    }

    method StoreMargins(n: nat, p: nat, q: nat)
      requires p > 0
      modifies this`topMargin, this`bottomMargin
      ensures (topMargin, bottomMargin) == Margins(screen.rows, n, p, q)
    {
      topMargin, bottomMargin := 0, screen.rows;
      if n > 0 {
        topMargin := p - 1;
      }
      if n > 1 {
        bottomMargin := q;
      }
      if topMargin >= screen.rows || bottomMargin > screen.rows || topMargin >= bottomMargin - 1 {
        topMargin, bottomMargin := 0, screen.rows;
      }
    }

    method ReplaceMargins(n: nat, p: nat, q: nat)
      requires Ready() && p > 0
      modifies this`topMargin, this`bottomMargin
      ensures Ready() && Now() == var m := Margins(screen.rows, n, p, q); WithMargins(old(Now()), m.0, m.1)
    {
      hide screen.Valid, LookNow, ModesKept, ParserNow, OptionsNow, DecoderNow, Steady, Margins;
      ReadyShows();
      MarginsAreProper(screen.rows, n, p, q);
      MarginsKeep(Now(), Margins(screen.rows, n, p, q).0, Margins(screen.rows, n, p, q).1);
      StoreMargins(n, p, q);
    }

    /** DECSTBM. */
    method SetMargins(p: nat, q: nat)
      requires Ready() && p > 0
      modifies this`topMargin, this`bottomMargin, screen`cursorX, screen`cursorY
      ensures Ready() && Now() == MarginsSet(old(Now()), p, q)
    {
      hide Ready, LookNow, ModesKept, OptionsNow, DecoderNow, Steady, Margins;
      ReadyShows();
      MarginsAreProper(screen.rows, escValuesI, p, q);
      ReplaceMargins(escValuesI, p, q);
      MoveTo(0, if originMode then topMargin else 0);
    }

    method Stray()
      requires Ready()
      modifies this`strayed
      ensures Ready()
      ensures var s := old(Now()); Now() == s.(options := s.options.(strayed := s.options.strayed || Outside(s)))
    {
      hide screen.Valid, LookNow, ModesNow, ModesKept, ParserNow, DecoderNow, Steady, Outside;
      OptionsKeep(Now(), Now().options.(strayed := strayed || Outside(Now())));
      strayed := strayed || Outside(Now());
    }

    /** set_cursor_pos; positions past the edge stick to the edge. */
    method MoveClamped(x: nat, y: nat)
      requires Ready()
      modifies screen`cursorX, screen`cursorY
      ensures Ready() && screen.cols > 0 && screen.rows > 0
      ensures Now() == At(old(Now()), Clamp(x, screen.cols), Clamp(y, screen.rows))
    {
      hide screen.Valid, ModesNow, ModesKept, ParserNow, OptionsNow, DecoderNow, Steady;
      ReadyShows();
      screen.SetCursorPos(x, y);
      Redrawn();
    }

    /** SCORC: wherever the cursor was, regardless of the region. */
    method RestoreCursor()
      requires Ready()
      modifies this`strayed, screen`cursorX, screen`cursorY
      ensures Ready() && Now() == PositionRestored(old(Now()))
    {
      hide Ready, LookNow, ModesNow, ModesKept, ParserNow, DecoderNow, Outside;
      ReadyShows();
      Stray();
      MoveClamped(savedCursorX, savedCursorY);
    }

    /** SCOSC. */
    method SaveCursor()
      requires Ready()
      modifies this`savedCursorX, this`savedCursorY
      ensures Ready() && Now() == PositionSaved(old(Now()))
    {
      hide screen.Valid, ModesNow, ModesKept, ParserNow, DecoderNow, Steady;
      ReadyShows();
      OptionsKeep(Now(), PositionSaved(Now()).options);
      var (x, y) := screen.CursorPos();
      savedCursorX, savedCursorY := x, y;
    }

    /** mode_toggle. */
    method SwitchMode(n: nat, on: bool)
      requires Ready()
      modifies this`insertMode
      ensures Ready() && Now() == ModeSwitched(old(Now()), n, on)
    {
      hide screen.Valid, LookNow, ModesNow, ModesKept, DecoderNow, Steady;
      OptionsKeep(Now(), ModeSwitched(Now(), n, on).options);
      if escValuesI > 0 && n == 4 {
        insertMode := on;
      }
    }

    method PaintScreen(fg: nat, bg: nat)
      requires screen.Valid()
      modifies screen`textFg, screen`textBg
      ensures screen.Valid() && LookNow() == old(LookNow()).(fg := fg, bg := bg)
    {
      hide CacheInv, Synced;
      screen.textFg, screen.textBg := fg, bg;
    }

    method Paint(p: Pen)
      requires Ready()
      modifies this`style, screen`textFg, screen`textBg
      ensures Ready() && Now() == Painted(old(Now()), p)
    {
      hide screen.Valid, LookNow, ModesKept, ParserNow, OptionsNow, DecoderNow, Steady;
      PaintedKeeps(Now(), p);
      PaintScreen(p.fg, p.bg);
      style := p.style;
    }

    /** SGR: the colours that its parameters choose. */
    method ChooseColours()
      requires Ready()
      modifies this`style, screen`textFg, screen`textBg
      ensures Ready() && var s := old(Now()); Now() == Painted(s, tables.sgr(PenOf(s), s.parser.values, s.parser.count))
    {
      hide Ready, ModesKept, OptionsNow, DecoderNow;
      Paint(tables.sgr(Pen(screen.textFg, screen.textBg, style), escValues[..], escValuesI));
    }

    /** REP. */
    method RepeatLast(n: nat)
      requires Ready()
      modifies screen`used, screen`cursorX, screen`cursorY, screen.queue, screen.slots
      ensures Ready() && Now() == Repetition(old(Now()), n)
    {
      hide Ready, LookNow, ModesNow, ModesKept, ParserNow, DecoderNow, Printed, Shows;
      ReadyShows();
      if !lastWasGraphic {
        return;
      }
      ghost var s := Now();
      var count := if n > 65535 then 65535 else n;
      for i := 0 to count
        invariant Ready()
                  && Now()
                       == Drawn(s, Repeated(s.look.pic, SetupOf(s), s.options.insert, i, InkOf(s, lastPrintedChar),
                                            BlankOf(s)))
      {
        ReadyShows();
        PutGlyph(lastPrintedChar, 1);
      }
    }

    /** The control functions that change modes, margins, colours or the stored position. */
    method SettingFunction(c: char, n: nat, q: nat)
      requires Ready() && IsSetting(c) && (c == 'r' ==> n > 0)
      modifies this, screen
      ensures Ready() && Now() == Setting(tables, old(Now()), c, n, q)
    {
      hide Ready, Now, MarginsSet, PositionRestored, PositionSaved, Painted, ModeSwitched;
      if c == 'r' {
        SetMargins(n, q);
      } else if c == 'u' {
        RestoreCursor();
      } else if c == 's' {
        SaveCursor();
      } else if c == 'm' {
        ChooseColours();
      } else {
        SwitchMode(n, c == 'h');
      }
    }

    /** The control functions that act on the screen and the cursor. */
    method EditFunction(c: char, n: nat, q: nat)
      requires Ready() && wrapEnabled && !scrollEnabled && (c == 'P' ==> n > 0)
      modifies this`topMargin, screen`used, screen`cursorX, screen`cursorY, screen.queue, screen.slots
      ensures Ready() && Now() == Edited(old(Now()), c, n, q)
    {
      hide Ready, Now, AfterControl, Shows;
      ReadyShows();
      OtherControls(c, screen.Pic(), Region(), n, q, screen.Blank());
      if IsMove(c) {
        MoveFunction(c, n, q);
      } else if c in "JKX" {
        EraseFunction(c, n);
      } else if c in "@P" {
        ShiftFunction(c, n);
      } else if c in "ST" {
        ScrollFunction(c, n);
      } else if c in "ML" {
        MoveLines(c, n, screen.CursorPos().1);
      }
    }

    method StoreWrapping(scrolling: bool, wrapping: bool)
      modifies this`scrollEnabled, this`wrapEnabled
      ensures ModesNow() == old(ModesNow()).(wrap := wrapping)
              && OptionsNow() == old(OptionsNow()).(scrolling := scrolling)
    {
      scrollEnabled := scrolling;
      wrapEnabled := wrapping;
    }

    method SetWrapping(scrolling: bool, wrapping: bool)
      requires Ready()
      modifies this`scrollEnabled, this`wrapEnabled
      ensures Ready() && Now() == Toggled(old(Now()), scrolling, wrapping)
    {
      hide screen.Valid, LookNow, ModesNow, ModesKept, ParserNow, OptionsNow, DecoderNow, Steady;
      ToggledKeeps(Now(), scrolling, wrapping);
      StoreWrapping(scrolling, wrapping);
    }

    /** The switch over the final byte; scrolling is off and wrapping on while it runs, except for REP. */
    method Dispatch(c: char, n: nat, q: nat)
      requires Ready() && (c in "Pr" ==> n > 0)
      modifies this, screen, screen.queue, screen.slots
      ensures Ready() && Now() == Control(tables, old(Now()), c, n, q)
    {
      hide Ready, LookNow, ModesKept, ParserNow, DecoderNow, Repetition, Setting, Edited;
      if c != 'b' {
        ControlIgnoresWrapping(tables, Now(), c, n, q);
      }
      var scrolling, wrapping := scrollEnabled, wrapEnabled;
      SetWrapping(false, true);
      if c == 'b' {
        SetWrapping(scrolling, wrapping);
        RepeatLast(n);
      } else {
        if IsSetting(c) {
          SettingFunction(c, n, q);
        } else {
          EditFunction(c, n, q);
        }
        SetWrapping(scrolling, wrapping);
      }
    }

    // ----- control sequences

    /** Fills in missing and zero parameters. */
    method FillDefaults(c: char)
      requires escValues.Length == MAX_VALUES && escValuesI <= MAX_VALUES
      modifies escValues
      ensures escValues[..] == Defaulted(old(escValues[..]), escValuesI, DefaultOf(c))
    {
      var d := DefaultOf(c);
      for i := escValuesI to MAX_VALUES
        invariant forall j :: 0 <= j < escValuesI ==> escValues[j] == old(escValues[j])
        invariant forall j :: escValuesI <= j < i ==> escValues[j] == d
      {
        escValues[i] := d;
      }
      if d != 0 {
        for i := 0 to escValuesI
          invariant forall j :: 0 <= j < i ==> escValues[j] == if old(escValues[j]) == 0 then d else old(escValues[j])
          invariant forall j :: i <= j < escValuesI ==> escValues[j] == old(escValues[j])
          invariant forall j :: escValuesI <= j < MAX_VALUES ==> escValues[j] == d
        {
          if escValues[i] == 0 {
            escValues[i] := d;
          }
        }
      }
    }

    method AddDigit(d: Word32)
      requires escValues.Length == MAX_VALUES && d < 10 && escValuesI < MAX_VALUES
      modifies this`rrr, escValues
      ensures rrr && escValues[..] == old(escValues[..])[escValuesI := AppendDigit(old(escValues[escValuesI]), d)]
    {
      rrr := true;
      if escValues[escValuesI] > 0xffff_ffff / 10 {
        return;
      }
      escValues[escValuesI] := escValues[escValuesI] * 10;
      if escValues[escValuesI] > 0xffff_ffff - d {
        escValues[escValuesI] := 0xffff_ffff;
        return;
      }
      escValues[escValuesI] := escValues[escValuesI] + d;
    }

    method AcceptDigit(c: Byte)
      requires Ready() && IsDigit(c)
      modifies this`rrr, escValues
      ensures Ready() && Now() == Digit(old(Now()), c)
    {
      hide screen.Valid, LookNow, ModesNow, ModesKept, OptionsNow, DecoderNow, Steady, AppendDigit;
      ReadyParts();
      DigitKeeps(Now(), c);
      if escValuesI == MAX_VALUES {
        return;
      }
      AddDigit((c - '0' as Byte) as Word32);
    }

    method EndParameter()
      requires Ready()
      modifies this`rrr, this`escValuesI
      ensures Ready() && Now() == old(Now()).(parser := Closed(old(Now()).parser))
    {
      hide screen.Valid, LookNow, ModesNow, ModesKept, OptionsNow, DecoderNow, Steady;
      ReadyParts();
      PrivateParser(ParserNow());
      ParserKeeps(Now(), Closed(ParserNow()));
      if rrr {
        escValuesI := escValuesI + 1;
        rrr := false;
      }
    }

    /** A separator without digits before it: the parameter is 0. */
    method EmptyParameter()
      requires Ready() && !rrr
      modifies this`escValuesI, escValues
      ensures Ready() && Now() == Separated(old(Now()))
    {
      hide screen.Valid, LookNow, ModesNow, ModesKept, OptionsNow, DecoderNow, Steady;
      ReadyParts();
      SeparatedKeeps(Now());
      if escValuesI == MAX_VALUES {
        return;
      }
      escValues[escValuesI] := 0;
      escValuesI := escValuesI + 1;
    }

    method LeaveSequence(again: bool)
      modifies this`controlSequence, this`escape, this`escapeOffset
      ensures var p := old(ParserNow());
              ParserNow() == if again then p.(csi := false, offset := 0) else p.(csi := false, escape := false)
    {
      controlSequence := false;
      if again {
        escapeOffset := 0;
      } else {
        escape := false;
      }
    }

    /** Leaves the control sequence; the escape sequence around it ends unless another one has begun. */
    method EndSequence(again: bool)
      requires Ready() && ParserNow().csi
      modifies this`controlSequence, this`escape, this`escapeOffset
      ensures Ready() && Now() == Ended(old(Now()), again)
    {
      hide screen.Valid, LookNow, ModesNow, ModesKept, ParserNow, OptionsNow, DecoderNow, Steady;
      ReadyParts();
      EndedKeeps(Now(), again);
      LeaveSequence(again);
    }

    method MarkUnhandled(on: bool)
      requires Ready()
      modifies this`csiUnhandled
      ensures Ready() && Now() == old(Now()).(parser := old(Now()).parser.(unhandled := on))
    {
      hide screen.Valid, LookNow, ModesNow, ModesKept, OptionsNow, DecoderNow, Steady;
      ReadyParts();
      PrivateParser(ParserNow());
      ParserKeeps(Now(), ParserNow().(unhandled := on));
      csiUnhandled := on;
    }

    /** Inside a sequence that is not understood, everything up to the final byte is skipped. */
    method SkipUnhandled(c: Byte)
      requires Ready() && controlSequence
      modifies this
      ensures Ready() && Now() == Skipped(old(Now()), c)
    {
      hide Ready, LookNow, ModesNow, ModesKept, OptionsNow, DecoderNow;
      if c == 0x1b {
        MarkUnhandled(false);
        EndSequence(true);
      } else if IsFinal(c) {
        MarkUnhandled(false);
        EndSequence(false);
      }
    }

    /** A byte that may end a control sequence, with the parameters complete. */
    method RunControl(c: Byte)
      requires Ready() && controlSequence && (c as char in "Pr" ==> escValues.Length > 0 && escValues[0] > 0)
      modifies this, screen, screen.queue, screen.slots
      ensures Ready() && Now() == Finish(tables, old(Now()), c)
    {
      hide Ready, LookNow, ModesNow, ModesKept, OptionsNow, DecoderNow, Control;
      ReadyParts();
      if c == 0x1b {
        EndSequence(true);
      } else if IsFinal(c) {
        ControlParser(tables, Now(), c as char, escValues[0] as nat, escValues[1] as nat);
        Dispatch(c as char, escValues[0] as nat, escValues[1] as nat);
        EndSequence(false);
      } else {
        MarkUnhandled(true);
      }
    }

    method CompleteParameters(c: char)
      requires Ready()
      modifies escValues
      ensures Ready() && Now() == var s := old(Now());
              s.(parser := s.parser.(values := Defaulted(s.parser.values, s.parser.count, DefaultOf(c))))
    {
      hide screen.Valid, LookNow, ModesNow, ModesKept, OptionsNow, DecoderNow, Steady, Defaulted;
      ReadyParts();
      ParserKeeps(Now(), ParserNow().(values := Defaulted(escValues[..], escValuesI, DefaultOf(c))));
      FillDefaults(c);
    }

    /** A byte after the parameters. */
    method CompleteSequence(c: Byte)
      requires Ready() && controlSequence
      modifies this, screen, screen.queue, screen.slots, escValues
      ensures Ready() && Now() == Complete(tables, old(Now()), c)
    {
      hide Ready, LookNow, ModesNow, ModesKept, OptionsNow, DecoderNow, Defaulted, DefaultOf, Skipped, Finish, DecModes;
      ReadyParts();
      PositiveParameter(escValues[..], escValuesI, c as char);
      CompleteParameters(c as char);
      ghost var f := Now();
      if decPrivate {
        DecModesParser(f.(parser := f.parser.(private := false)), Given(f.parser.values, f.parser.count),
                       c == 'h' as Byte);
        DecPrivateParse(c);
        EndSequence(false);
      } else if csiUnhandled {
        SkipUnhandled(c);
      } else {
        RunControl(c);
      }
    }

    method DiscardNext()
      requires Ready()
      modifies this`discardNext
      ensures Ready() && Now() == old(Now()).(parser := old(Now()).parser.(discard := true))
    {
      hide screen.Valid, LookNow, ModesNow, ModesKept, OptionsNow, DecoderNow, Steady;
      ReadyParts();
      ParserKeeps(Now(), ParserNow().(discard := true));
      discardNext := true;
    }

    method BeginPrivate()
      requires Ready()
      modifies this`decPrivate
      ensures Ready() && Now() == old(Now()).(parser := old(Now()).parser.(private := true))
    {
      hide screen.Valid, LookNow, ModesNow, ModesKept, OptionsNow, DecoderNow, Steady;
      ReadyParts();
      PrivateParser(ParserNow());
      ParserKeeps(Now(), ParserNow().(private := true));
      decPrivate := true;
    }

    /** One byte of a control sequence. */
    method ControlSequenceParse(c: Byte)
      requires Ready() && controlSequence
      modifies this, screen, screen.queue, screen.slots, escValues
      ensures Ready() && Now() == Sequence(tables, old(Now()), c)
    {
      hide Ready, LookNow, ModesNow, ModesKept, OptionsNow, DecoderNow, Complete, ControlChar, Digit;
      if escapeOffset == 2 {
        if c == '[' as Byte {
          DiscardNext();
          EndSequence(false);
          return;
        }
        if c == '?' as Byte {
          BeginPrivate();
          return;
        }
      }
      if c < 0x20 && c != 0x1b {
        ExecuteC0(c);
        return;
      }
      if IsDigit(c) {
        AcceptDigit(c);
        return;
      }
      if !rrr && c == ';' as Byte {
        EmptyParameter();
        return;
      }
      EndParameter();
      if c != ';' as Byte {
        CompleteSequence(c);
      }
    }

    // ----- escape sequences

    method Advance(offset: nat)
      requires Ready()
      modifies this`escapeOffset
      ensures Ready() && Now() == Advanced(old(Now()), offset)
    {
      hide screen.Valid, LookNow, ModesNow, ModesKept, OptionsNow, DecoderNow, Steady;
      AdvancedKeeps(Now(), offset);
      escapeOffset := offset % 0x1_0000_0000_0000_0000;
    }

    /** The command is collected as far as the buffer goes. */
    method Collect(c: Byte)
      requires Ready()
      modifies this`oscBufI, oscBuf
      ensures Ready() && Now() == old(Now())
      ensures oscBufI <= OSC_SIZE == oscBuf.Length
      ensures oscBuf[..oscBufI] == if old(oscBufI) < OSC_SIZE then old(oscBuf[..oscBufI]) + [c]
                                   else old(oscBuf[..oscBufI])
    {
      hide screen.Valid, LookNow, ModesNow, ModesKept, OptionsNow, DecoderNow, Steady;
      if oscBufI < OSC_SIZE {
        oscBuf[oscBufI] := c;
        oscBufI := oscBufI + 1;
      }
    }

    method StoreOsc(on: bool, escaped: bool, escaping: bool)
      modifies this`osc, this`oscEscape, this`escape
      ensures ParserNow() == old(ParserNow()).(osc := on, oscEscape := escaped, escape := escaping)
    {
      osc := on;
      oscEscape := escaped;
      escape := escaping;
    }

    method SetOsc(on: bool, escaped: bool, escaping: bool)
      requires Ready() && !ParserNow().csi && (on ==> escaping) && (escaped ==> on)
      modifies this`osc, this`oscEscape, this`escape
      ensures Ready()
              && Now() == old(Now()).(parser := old(Now()).parser.(osc := on, oscEscape := escaped, escape := escaping))
    {
      hide screen.Valid, LookNow, ModesNow, ModesKept, ParserNow, OptionsNow, DecoderNow, Steady;
      ReadyParts();
      ParserKeeps(Now(), ParserNow().(osc := on, oscEscape := escaped, escape := escaping));
      StoreOsc(on, escaped, escaping);
    }

    method EmptyOsc()
      requires Ready()
      modifies this`oscBufI
      ensures Ready() && Now() == old(Now())
    {
      hide screen.Valid, LookNow, ModesNow, ModesKept, ParserNow, OptionsNow, DecoderNow, Steady;
      oscBufI := 0;
    }

    /** One byte of an operating system command; false when it aborts the command and must be read again. */
    method OscParse(c: Byte) returns (taken: bool)
      requires Ready() && osc
      modifies this`osc, this`oscEscape, this`escape, this`oscBufI, oscBuf
      ensures Ready() && Now() == Command(old(Now()), c) && taken == !BreaksOff(old(Now()), c)
    {
      hide Ready, LookNow, ModesNow, ModesKept, OptionsNow, DecoderNow;
      ReadyParts();
      if oscEscape {
        SetOsc(false, false, c != '\\' as Byte);
        return c == '\\' as Byte;
      }
      if c == 0x1b {
        SetOsc(true, true, escape);
      } else if c == 7 {
        SetOsc(false, false, false);
      } else {
        Collect(c);
      }
      return true;
    }

    method ClearValues()
      requires escValues.Length == MAX_VALUES
      modifies escValues
      ensures escValues[..] == Zeros()
    {
      for i := 0 to MAX_VALUES
        invariant forall j :: 0 <= j < i ==> escValues[j] == 0
      {
        escValues[i] := 0;
      }
    }

    method StoreSequence()
      requires escValues.Length == MAX_VALUES
      modifies this`rrr, this`escValuesI, this`csiUnhandled, this`controlSequence, escValues
      ensures ParserNow()
                == old(ParserNow()).(csi := true, unhandled := false, inside := false, values := Zeros(), count := 0)
    {
      hide Zeros;
      ClearValues();
      escValuesI := 0;
      rrr := false;
      csiUnhandled := false;
      controlSequence := true;
    }

    method BeginControlSequence()
      requires Ready() && ParserNow().escape && !ParserNow().osc
      modifies this`rrr, this`escValuesI, this`csiUnhandled, this`controlSequence, escValues
      ensures Ready()
      ensures var s := old(Now());
              Now()
                == s.(parser := s.parser.(csi := true, unhandled := false, inside := false, values := Zeros(),
                                          count := 0))
    {
      hide screen.Valid, LookNow, ModesNow, ModesKept, ParserNow, OptionsNow, DecoderNow, Steady, Zeros;
      ReadyParts();
      ParserKeeps(Now(), ParserNow().(csi := true, unhandled := false, inside := false, values := Zeros(), count := 0));
      StoreSequence();
    }

    method SelectSet(n: nat)
      requires Ready() && n <= 2
      modifies this`gSelect
      ensures Ready() && Now() == old(Now()).(parser := old(Now()).parser.(gSelect := n))
    {
      hide screen.Valid, LookNow, ModesNow, ModesKept, OptionsNow, DecoderNow, Steady;
      ReadyParts();
      ParserKeeps(Now(), ParserNow().(gSelect := n));
      gSelect := n;
    }

    method EndEscape()
      requires Ready() && !controlSequence && !osc
      modifies this`escape
      ensures Ready() && Now() == Left(old(Now()))
    {
      hide screen.Valid, LookNow, ModesNow, ModesKept, OptionsNow, DecoderNow, Steady;
      ReadyParts();
      LeftKeeps(Now());
      escape := false;
    }

    // ----- reset

    method ReinitModes()
      modifies `originMode, `wrapEnabled, `currentCharset, `charsets, `topMargin, `bottomMargin, `style
      ensures ModesNow() == Modes(false, true, 0, PLAIN_SETS, 0, screen.rows, 0)
    {
      originMode, wrapEnabled, currentCharset, charsets := false, true, 0, PLAIN_SETS;
      topMargin, bottomMargin, style := 0, screen.rows, 0;
    }

    method ReinitSaved()
      modifies `savedWrapEnabled, `savedCharsets, `savedTopMargin, `savedBottomMargin
      ensures ModesKept() == old(ModesKept()).(wrap := true, charsets := PLAIN_SETS, top := 0, bottom := screen.rows)
    {
      savedWrapEnabled, savedCharsets, savedTopMargin, savedBottomMargin := true, PLAIN_SETS, 0, screen.rows;
    }

    method LeaveSequences()
      modifies `escape, `controlSequence, `osc, `oscEscape, `discardNext, `gSelect
      ensures ParserNow()
                == old(ParserNow()).(discard := false, escape := false, csi := false, osc := false, oscEscape := false,
                                     gSelect := 0)
    {
      discardNext, escape, controlSequence := false, false, false;
      osc, oscEscape, gSelect := false, false, 0;
    }

    method LeaveParameters()
      modifies `rrr, `decPrivate, `csiUnhandled, `escapeOffset, `escValuesI
      ensures ParserNow()
                == old(ParserNow()).(private := false, unhandled := false, inside := false, offset := 0, count := 0)
    {
      rrr, decPrivate, csiUnhandled := false, false, false;
      escapeOffset, escValuesI := 0, 0;
    }

    method ReinitParser()
      modifies `discardNext, `escape, `controlSequence, `osc, `oscEscape, `decPrivate, `csiUnhandled, `rrr,
               `escapeOffset, `gSelect, `escValuesI
      ensures ParserNow()
                == Parser(false, false, false, false, false, false, false, false, 0, 0, old(ParserNow()).values, 0)
    {
      hide ParserNow;
      LeaveSequences();
      LeaveParameters();
    }

    method ReinitOptions()
      modifies `autoflush, `cursorEnabled, `scrollEnabled, `insertMode, `lastPrintedChar, `lastWasGraphic,
               `savedCursorX, `savedCursorY, `strayed
      ensures OptionsNow() == Options(true, true, true, false, ' ' as nat, false, 0, 0, false)
    {
      autoflush, cursorEnabled, scrollEnabled, insertMode := true, true, true, false;
      lastPrintedChar, lastWasGraphic, savedCursorX, savedCursorY := ' ' as nat, false, 0, 0;
      strayed := false;
    }

    method ReinitDecoder()
      modifies `unicodeRemaining
      ensures DecoderNow() == old(DecoderNow()).(remaining := 0)
    {
      unicodeRemaining := 0;
    }

    method ResetModes()
      requires Ready()
      modifies `originMode, `wrapEnabled, `currentCharset, `charsets, `topMargin, `bottomMargin, `style
      modifies `savedWrapEnabled, `savedCharsets, `savedTopMargin, `savedBottomMargin
      ensures Ready() && Now() == ModesReset(old(Now()))
    {
      hide screen.Valid, LookNow, ModesNow, ModesKept, ParserNow, OptionsNow, DecoderNow, Steady;
      ReadyShows();
      ReinitKeeps(Now());
      ReinitModes();
      ReinitSaved();
    }

    method ResetParser()
      requires Ready()
      modifies `unicodeRemaining, `discardNext, `escape, `controlSequence, `osc, `oscEscape, `decPrivate, `csiUnhandled
      modifies `rrr, `escapeOffset, `gSelect, `escValuesI
      ensures Ready() && Now() == ParserReset(old(Now()))
    {
      hide screen.Valid, LookNow, ModesNow, ModesKept, ParserNow, OptionsNow, DecoderNow, Steady;
      ReinitKeeps(Now());
      ReinitDecoder();
      ReinitParser();
    }

    method ResetOptions()
      requires Ready()
      modifies `autoflush, `cursorEnabled, `scrollEnabled, `insertMode, `lastPrintedChar, `lastWasGraphic,
               `savedCursorX, `savedCursorY, `strayed
      ensures Ready()
              && Now() == old(Now()).(options := Options(true, true, true, false, ' ' as nat, false, 0, 0, false))
    {
      hide screen.Valid, LookNow, ModesNow, ModesKept, ParserNow, OptionsNow, DecoderNow, Steady;
      OptionsKeep(Now(), Options(true, true, true, false, ' ' as nat, false, 0, 0, false));
      ReinitOptions();
    }

    /** flanterm_context_reinit. */
    method Reset()
      requires Ready()
      modifies this
      ensures Ready() && Now() == Reinit(old(Now()))
    {
      hide Ready, Now, ModesReset, ParserReset;
      ResetModes();
      ResetParser();
      ResetOptions();
    }

    /** RIS. */
    method ResetTerminal()
      requires Ready()
      modifies this, screen, screen.queue, screen.slots
      ensures Ready() && Now() == FullReset(tables, old(Now()))
    {
      hide Ready, ModesKept, OptionsNow, DecoderNow, ParserNow, Reinit, Cleared, SaveAll, Painted;
      ReadyShows();
      var pen := Pen(screen.textFg, screen.textBg, style);
      Reset();
      Paint(tables.reset(pen));
      Clear();
      SaveState();
    }

    /** DECSC, DECRC and RIS. */
    method StateFunction(c: Byte)
      requires Ready() && (c == '7' as Byte || c == '8' as Byte || c == 'c' as Byte) && !controlSequence && !osc
      modifies this, screen, screen.queue, screen.slots
      ensures Ready() && !controlSequence && !osc
      ensures Now() == if c == '7' as Byte then SaveAll(old(Now()))
                       else if c == '8' as Byte then RestoreAll(old(Now()))
                       else FullReset(tables, old(Now()))
    {
      hide Ready, LookNow, ModesNow, ModesKept, OptionsNow, DecoderNow;
      if c == '7' as Byte {
        SaveState();
      } else if c == '8' as Byte {
        RestoreState();
      } else {
        ResetTerminal();
      }
    }

    /** The byte after ESC. */
    method EscapeFinal(c: Byte)
      requires Ready() && escape && !controlSequence && !osc
      modifies this, screen, screen.queue, screen.slots, escValues
      ensures Ready() && Now() == AfterEscape(tables, old(Now()), c)
    {
      hide Ready, LookNow, ModesNow, ModesKept, OptionsNow, DecoderNow, SaveAll, RestoreAll, FullReset, LineEscape,
           Zeros;
      if c == 0x1b {
        Advance(0);
        return;
      } else if c == ']' as Byte {
        SetOsc(true, false, escape);
        EmptyOsc();
        return;
      } else if c == '[' as Byte {
        BeginControlSequence();
        return;
      } else if c == '7' as Byte || c == '8' as Byte || c == 'c' as Byte {
        StateFunction(c);
      } else if c == 'D' as Byte || c == 'E' as Byte || c == 'M' as Byte {
        LineFunction(c);
      } else if c == '(' as Byte || c == ')' as Byte {
        SelectSet(c as nat - 39);
      }
      EndEscape();
    }

    /** One byte of an escape sequence; an operating system command takes its own bytes, and gives back the one that
        breaks it off. */
    method EscapeParse(c: Byte)
      requires Ready() && escape
      modifies this, screen, screen.queue, screen.slots, escValues, oscBuf
      ensures Ready() && Now() == Escape(tables, old(Now()), c)
    {
      hide Ready, LookNow, ModesNow, ModesKept, OptionsNow, DecoderNow, Sequence, AfterEscape;
      ReadyParts();
      Advance(escapeOffset + 1);
      if osc {
        var taken := OscParse(c);
        if taken {
          return;
        }
        Advance(1);
      }
      if controlSequence {
        ControlSequenceParse(c);
      } else {
        EscapeFinal(c);
      }
    }

    // ----- bytes

    method Gather(d: Decoder, g: nat)
      modifies this`unicodeRemaining, this`codePoint, this`gSelect
      ensures DecoderNow() == d && ParserNow() == old(ParserNow()).(gSelect := g)
    {
      unicodeRemaining, codePoint, gSelect := d.remaining, d.codePoint, g;
    }

    method StoreCoding(d: Decoder, lead: bool)
      requires Ready() && Aligned(d)
      modifies this`unicodeRemaining, this`codePoint, this`gSelect
      ensures Ready()
      ensures var s := old(Now());
              Now() == s.(decoder := d, parser := s.parser.(gSelect := if lead then 0 else s.parser.gSelect))
    {
      hide screen.Valid, LookNow, ModesNow, ModesKept, ParserNow, OptionsNow, DecoderNow, Steady;
      ReadyParts();
      SelectedSet();
      var g := if lead then 0 else gSelect;
      CodingKeeps(Now(), d, g);
      Gather(d, g);
    }

    lemma SelectedSet()
      requires Ready()
      ensures gSelect == Now().parser.gSelect <= 2
    {
      hide Shows;
    }

    /** The UTF-8 decoder; a sequence that breaks off shows the replacement glyph before its next byte is looked at. */
    method Decode(c: Byte) returns (v: Verdict)
      requires Ready()
      modifies this`unicodeRemaining, this`codePoint, this`gSelect
      modifies screen`used, screen`cursorX, screen`cursorY, screen.queue, screen.slots
      ensures Ready() && Now() == Decoded(old(Now()), c) && v == Step(old(Now()).decoder, c).1
    {
      hide Ready, LookNow, ModesNow, ModesKept, ParserNow, OptionsNow, Step, StepByOr, Aligned, Glyph;
      ReadyParts();
      StepAligned(DecoderNow(), c);
      OrStep(DecoderNow(), c);
      GlyphParser(Now(), 0xfe, 1);
      if unicodeRemaining != 0 && !IsTail(c) {
        PutGlyph(0xfe, 1);
      }
      var (next, verdict) := StepByOr(Decoder(unicodeRemaining, codePoint), c);
      v := verdict;
      StoreCoding(next, v == Consumed && IsLead(c));
    }

    method Remember(c: nat)
      requires Ready()
      modifies this`lastPrintedChar, this`lastWasGraphic
      ensures Ready() && Now() == Remembered(old(Now()), c)
    {
      hide screen.Valid, LookNow, ModesNow, ModesKept, ParserNow, DecoderNow, Steady;
      OptionsKeep(Now(), Remembered(Now(), c).options);
      lastPrintedChar := c;
      lastWasGraphic := true;
    }

    /** A graphic character is printed and remembered for REP. */
    method PutGraphic(c: nat, width: nat)
      requires Ready()
      modifies this`lastPrintedChar, this`lastWasGraphic
      modifies screen`used, screen`cursorX, screen`cursorY, screen.queue, screen.slots
      ensures Ready() && Now() == Graphic(old(Now()), c, width)
    {
      hide Ready, Now, Glyph, Remembered;
      Remember(c);
      PutGlyph(c, width);
    }

    method PutPadding(n: nat)
      requires Ready()
      modifies screen`used, screen`cursorX, screen`cursorY, screen.queue, screen.slots
      ensures Ready() && Now() == Padded(old(Now()), n)
    {
      hide Ready, LookNow, ModesNow, ModesKept, ParserNow, DecoderNow, OptionsNow, Typed, Shows;
      ReadyShows();
      ghost var s := Now();
      for i := 0 to n
        invariant Ready() && Now() == Drawn(s, Repeated(s.look.pic, SetupOf(s), false, i, BlankOf(s), BlankOf(s)))
      {
        ReadyShows();
        RawPutchar(' ' as nat);
      }
    }

    /** A decoded code point: its glyph, or as many columns of replacement as it is wide. */
    method PutCodePoint(cp: nat)
      requires Ready()
      modifies this`lastPrintedChar, this`lastWasGraphic
      modifies screen`used, screen`cursorX, screen`cursorY, screen.queue, screen.slots
      ensures Ready() && Now() == CodePoint(tables, old(Now()), cp)
    {
      hide Ready, Now, Graphic, Padded;
      if tables.glyphOf(cp) != -1 {
        PutGraphic(tables.glyphOf(cp) % 0x100, 1);
        return;
      }
      var width := tables.widthOf(cp);
      if width > 0 {
        PutGraphic(0xfe, width);
        PutPadding(width - 1);
      }
    }

    /** CAN, SUB and the byte after an unknown sequence: back to printing, except that a private sequence stays
        private. */
    method Abort()
      requires Ready()
      modifies this`discardNext, this`escape, this`controlSequence, this`unicodeRemaining, this`osc, this`oscEscape,
               this`gSelect, this`lastWasGraphic
      ensures Ready() && Now() == Abandoned(old(Now()))
    {
      hide screen.Valid, LookNow, ModesNow, ModesKept, ParserNow, OptionsNow, DecoderNow, Steady;
      AbandonedKeeps(Now());
      LeaveSequences();
      ReinitDecoder();
      LoseGraphic();
    }

    method LoseGraphic()
      modifies this`lastWasGraphic
      ensures OptionsNow() == old(OptionsNow()).(graphic := false)
    {
      lastWasGraphic := false;
    }

    method Rename(c: Byte)
      requires 0 < gSelect <= |charsets|
      modifies this`charsets
      ensures ModesNow() == Renamed(old(ModesNow()), gSelect, c)
    {
      if c == 'B' as Byte {
        charsets := charsets[gSelect - 1 := Default];
      } else if c == '0' as Byte {
        charsets := charsets[gSelect - 1 := DecSpecial];
      }
    }

    method LeaveSelection()
      modifies this`gSelect
      ensures ParserNow() == old(ParserNow()).(gSelect := 0)
    {
      gSelect := 0;
    }

    method Designate(c: Byte)
      requires Ready() && gSelect > 0
      modifies this`gSelect, this`charsets
      ensures Ready() && Now() == Designated(old(Now()), c)
    {
      hide screen.Valid, LookNow, ModesKept, ParserNow, OptionsNow, DecoderNow, Steady, Renamed;
      ReadyParts();
      SelectedSet();
      DesignatedKeeps(Now(), c);
      Rename(c);
      LeaveSelection();
    }

    method Forget()
      requires Ready()
      modifies this`lastWasGraphic
      ensures Ready() && Now() == Forgotten(old(Now()))
    {
      hide screen.Valid, LookNow, ModesNow, ModesKept, ParserNow, DecoderNow, Steady;
      OptionsKeep(Now(), Now().options.(graphic := false));
      LoseGraphic();
    }

    method BeginEscape()
      requires Ready()
      modifies this`escape, this`escapeOffset
      ensures Ready() && Now() == old(Now()).(parser := old(Now()).parser.(offset := 0, escape := true))
    {
      hide screen.Valid, LookNow, ModesNow, ModesKept, OptionsNow, DecoderNow, Steady;
      ReadyParts();
      ParserKeeps(Now(), ParserNow().(offset := 0, escape := true));
      escapeOffset := 0;
      escape := true;
    }

    /** A control character or a graphic character. */
    method Execute(c: Byte)
      requires Ready() && gSelect == 0
      modifies this, screen, screen.queue, screen.slots
      ensures Ready() && Now() == Plain(old(Now()), c)
    {
      hide Ready, LookNow, ModesKept, OptionsNow, ParserNow, DecoderNow, ControlChar, Graphic, SpecialGlyph;
      ReadyParts();
      if c == 0x1b {
        BeginEscape();
      } else if c == 0 || c == 0x7f {
        Forget();
      } else if c < 0x20 {
        Forget();
        ExecuteC0(c);
      } else {
        PutGraphic(GlyphOfByte(Modes(originMode, wrapEnabled, currentCharset, charsets, topMargin, bottomMargin, style),
                               c), 1);
      }
    }

    /** A byte outside every sequence. */
    method GroundByte(c: Byte)
      requires Ready() && !escape
      modifies this, screen, screen.queue, screen.slots
      ensures Ready() && Now() == Ground(old(Now()), c)
    {
      hide Ready, LookNow, ModesNow, ModesKept, OptionsNow, DecoderNow, Plain, Designated;
      if gSelect != 0 && !IsControl(c) {
        Designate(c);
        return;
      }
      SelectSet(0);
      Execute(c);
    }

    method SingleByte(c: Byte)
      requires Ready()
      modifies this, screen, screen.queue, screen.slots, escValues, oscBuf
      ensures Ready() && Now() == Single(tables, old(Now()), c)
    {
      hide Ready, LookNow, ModesNow, ModesKept, OptionsNow, DecoderNow, Escape, Ground;
      if escape {
        EscapeParse(c);
      } else {
        GroundByte(c);
      }
    }

    /** The byte goes to the decoder first, then to the parser or the screen. */
    method Dispense(c: Byte)
      requires Ready() && !discardNext && c != 0x18 && c != 0x1a
      modifies this, screen, screen.queue, screen.slots, escValues, oscBuf
      ensures Ready() && Now() == Next(tables, old(Now()), c)
    {
      hide Ready, LookNow, ModesNow, ModesKept, OptionsNow, DecoderNow, Single, Decoded, CodePoint, Step;
      var v := Decode(c);
      match v
      case Emitted(cp) => PutCodePoint(cp);
      case Passed => SingleByte(c);
      case Consumed =>
    }

    /** flanterm_putchar: in every state every byte takes the step of the machine, which keeps the invariants. */
    method PutChar(c: Byte)
      requires Valid()
      modifies this, screen, screen.queue, screen.slots, escValues, oscBuf
      ensures Valid() && Now() == Next(tables, old(Now()), c)
    {
      hide screen.Valid, LookNow, ModesNow, ModesKept, OptionsNow, DecoderNow, OnScreen, SavedOnScreen, InOrigin,
           ParserOk, ModesOk, Abandoned, Decoded;
      NextKeeps(tables, Now(), c);
      if discardNext || c == 0x18 || c == 0x1a {
        Abort();
      } else {
        Dispense(c);
      }
    }

    method Flush()
      requires Valid()
      modifies screen`used, screen`oldCursorX, screen`oldCursorY, screen.grid, screen.slots, screen.shown
      ensures Valid() && Now() == old(Now())
      ensures Rendered(screen.shown[..], screen.Visible(), screen.CursorCell(cursorEnabled))
    {
      hide screen.Valid, screen.Visible;
      screen.DoubleBufferFlush(cursorEnabled);
    }

    lemma RegionKept(s: State, buf: seq<Byte>)
      requires Ready() && Now() == After(tables, s, buf) && Safe(s)
      requires !s.options.strayed && forall i: nat :: !LeavesAt(tables, s, buf, i)
      ensures !strayed && (originMode ==> topMargin <= screen.cursorY < bottomMargin)
    {
      hide Steady, Next, LeavesAt;
      ReadyShows();
      OriginIsSafe(tables, s, buf);
    }

    /**
     flanterm_write: the machine runs over the buffer, and with autoflush what is shown is the screen. In origin mode
     the cursor stays in the scrolling region unless some byte of the buffer executes CSI u.
     */
    method Write(buf: seq<Byte>)
      requires Valid()
      modifies this, screen, screen.queue, screen.slots, screen.grid, screen.shown, escValues, oscBuf
      ensures Valid() && Now() == After(tables, old(Now()), buf)
      ensures autoflush ==> Rendered(screen.shown[..], screen.Visible(), screen.CursorCell(cursorEnabled))
      ensures !old(strayed) && (forall i: nat :: !LeavesAt(tables, old(Now()), buf, i)) ==>
                !strayed && (originMode ==> topMargin <= screen.cursorY < bottomMargin)
    {
      hide screen.Valid, screen.Visible, Safe, Next, LookNow, ModesNow, ModesKept, ParserNow, DecoderNow, LeavesAt;
      ghost var s := Now();
      for i := 0 to |buf|
        modifies this, screen, screen.queue, screen.slots, escValues, oscBuf
        invariant Valid() && Now() == After(tables, s, buf[..i])
      {
        assert buf[..i + 1][..i] == buf[..i];
        PutChar(buf[i]);
      }
      assert buf[..|buf|] == buf;
      if autoflush {
        Flush();
      }
      if !old(strayed) && forall i: nat :: !LeavesAt(tables, s, buf, i) {
        SafeIsReady();
        RegionKept(s, buf);
      }
    }
  }
}
