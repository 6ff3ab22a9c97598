/** The terminal emulator on values: what each byte does to the state of the terminal (flanterm.c). */
module Emulators {
  import opened Arithmetic
  import opened Cells
  import opened Pages
  import opened Typing
  import opened Edits
  import opened Controls
  import opened Screens
  import opened Utf8

  newtype Word32 = x: int | 0 <= x < 0x1_0000_0000

  const MAX_VALUES: nat := 16

  datatype Charset = Default | DecSpecial

  // ----- state

  /** Colours of the text; `style` stands for bold, reverse video and the colour numbers. */
  datatype Pen = Pen(fg: nat, bg: nat, style: nat)

  /** Glyph of a code point, or -1, its width in columns, and how SGR and a reset choose the pen. */
  datatype Tables = Tables(glyphOf: nat -> int, widthOf: nat -> int, sgr: (Pen, seq<Word32>, nat) -> Pen,
                           reset: Pen -> Pen)

  /** The screen, and the cursor and colours that it keeps for DECRC. */
  datatype Look = Look(cols: nat, rows: nat, pic: Picture, fg: nat, bg: nat, savedX: nat, savedY: nat, savedFg: nat,
                       savedBg: nat)

  /** The modes that DECSC saves. */
  datatype Modes = Modes(origin: bool, wrap: bool, charset: nat, charsets: seq<Charset>, top: nat, bottom: nat,
                         style: nat)

  /** The byte parser; `inside` is set while a parameter has digits. */
  datatype Parser = Parser(discard: bool, escape: bool, csi: bool, osc: bool, oscEscape: bool, private: bool,
                           unhandled: bool,
                           inside: bool, offset: nat, gSelect: nat, values: seq<Word32>, count: nat)

  /** The other modes, the character for REP, the position for SCORC, and whether SCORC took the cursor out of the
      region since the last reset. */
  datatype Options = Options(autoflush: bool, cursorOn: bool, scrolling: bool, insert: bool, lastChar: nat,
                             graphic: bool,
                             scoX: nat, scoY: nat, strayed: bool)

  datatype State = State(look: Look, modes: Modes, saved: Modes, decoder: Decoder, parser: Parser, options: Options)

  function RegionOf(s: State): Geometry {
    Geometry(s.look.cols, s.look.rows, s.modes.top, s.modes.bottom, s.modes.origin)
  }

  function SetupOf(s: State): Setup {
    Setup(s.look.cols, s.look.rows, s.modes.top, s.modes.bottom, s.modes.wrap, s.options.scrolling)
  }

  function InkOf(s: State, c: nat): Cell {
    Cell(c, s.look.fg, s.look.bg)
  }

  function BlankOf(s: State): Cell {
    InkOf(s, ' ' as nat)
  }

  function PenOf(s: State): Pen {
    Pen(s.look.fg, s.look.bg, s.modes.style)
  }

  /** The cursor is on the screen, or past the end of a row, and the margins are proper. */
  predicate OnScreen(s: State) {
    Shows(s.look.pic, RegionOf(s))
  }

  predicate SavedOnScreen(s: State) {
    s.saved.top < s.saved.bottom <= s.look.rows && s.look.savedX <= s.look.cols && s.look.savedY < s.look.rows
  }

  predicate ParserOk(p: Parser) {
    && |p.values| == MAX_VALUES && p.count <= MAX_VALUES && (p.inside ==> p.count < MAX_VALUES)
    && p.offset < 0x1_0000_0000_0000_0000 && p.gSelect <= 2
    && (p.csi || p.osc ==> p.escape) && !(p.csi && p.osc) && (p.oscEscape ==> p.osc)
  }

  predicate ModesOk(m: Modes) {
    |m.charsets| == 2 && m.charset < 2
  }

  /** What the code relies on between any two of its steps. */
  predicate Steady(s: State) {
    OnScreen(s) && SavedOnScreen(s) && ParserOk(s.parser) && Aligned(s.decoder) && ModesOk(s.modes) && ModesOk(s.saved)
  }

  /** While positions count from the scrolling region, the cursor is in it, and the same holds of the saved state. */
  predicate InOrigin(s: State) {
    && (s.modes.origin ==> s.modes.top <= s.look.pic.y < s.modes.bottom)
    && (s.saved.origin ==> s.saved.top <= s.look.savedY < s.saved.bottom)
  }

  /** What holds between bytes. */
  predicate Safe(s: State) {
    Steady(s) && s.options.scrolling && (!s.options.strayed ==> InOrigin(s))
  }

  // ----- printing

  function Drawn(s: State, p: Picture): State {
    s.(look := s.look.(pic := p))
  }

  /** The cursor at (x, y). */
  function At(s: State, x: nat, y: nat): State {
    Drawn(s, s.look.pic.(x := x, y := y))
  }

  /** insert_shift followed by raw_putchar. */
  function Glyph(s: State, c: nat, width: nat): State {
    if OnScreen(s) then Drawn(s, Printed(s.look.pic, SetupOf(s), s.options.insert, width, InkOf(s, c), BlankOf(s)))
    else s
  }

  function Remembered(s: State, c: nat): State {
    s.(options := s.options.(lastChar := c, graphic := true))
  }

  /** A graphic character, remembered for REP. */
  function Graphic(s: State, c: nat, width: nat): State {
    Glyph(Remembered(s, c), c, width)
  }

  /** n blanks at the cursor, whether insert mode is on or not. */
  function Padded(s: State, n: nat): State {
    if OnScreen(s) then Drawn(s, Repeated(s.look.pic, SetupOf(s), false, n, BlankOf(s), BlankOf(s))) else s
  }

  /** A decoded code point: its glyph, or as many columns of replacement as it is wide. */
  function CodePoint(t: Tables, s: State, cp: nat): State {
    if t.glyphOf(cp) != -1 then Graphic(s, t.glyphOf(cp) % 0x100, 1)
    else if t.widthOf(cp) > 0 then Padded(Graphic(s, 0xfe, t.widthOf(cp)), t.widthOf(cp) - 1)
    else s
  }

  // ----- control characters and line escapes

  /** The control characters below 0x20. */
  function ControlChar(s: State, c: Byte): State {
    if c == 14 || c == 15 then s.(modes := s.modes.(charset := 15 - c as nat))
    else if OnScreen(s) then Drawn(s, AfterC0(c as int, s.look.pic, RegionOf(s), BlankOf(s)))
    else s
  }

  /** IND, NEL and RI. */
  function LineEscape(s: State, c: Byte): State {
    if !OnScreen(s) then s
    else if c == 'D' as Byte
      then Drawn(s, LineFeed(s.look.pic, RegionOf(s), Column(s.look.pic, RegionOf(s)), BlankOf(s)))
    else if c == 'E' as Byte then Drawn(s, LineFeed(s.look.pic, RegionOf(s), 0, BlankOf(s)).(x := 0))
    else Drawn(s, ReverseLineFeed(s.look.pic, RegionOf(s), BlankOf(s)))
  }

  // ----- saved state

  /** DECSC. */
  function SaveAll(s: State): State {
    s.(saved := s.modes,
       look := s.look.(savedX := s.look.pic.x, savedY := s.look.pic.y, savedFg := s.look.fg, savedBg := s.look.bg))
  }

  /** DECRC. */
  function RestoreAll(s: State): State {
    s.(modes := s.saved,
       look := s.look.(pic := s.look.pic.(x := s.look.savedX, y := s.look.savedY), fg := s.look.savedFg,
                       bg := s.look.savedBg))
  }

  /** A blank screen with the cursor at home. */
  function Cleared(s: State): State {
    Drawn(s, Picture(Blanks(s.look.rows * s.look.cols, BlankOf(s)), 0, 0))
  }

  function Painted(s: State, p: Pen): State {
    s.(look := s.look.(fg := p.fg, bg := p.bg), modes := s.modes.(style := p.style))
  }

  function WithMargins(s: State, top: nat, bottom: nat): State {
    s.(modes := s.modes.(top := top, bottom := bottom))
  }

  const PLAIN_SETS := [Default, DecSpecial]

  /** The saved origin mode and character set number are not among what a reset changes. */
  function ModesReset(s: State): State {
    s.(modes := Modes(false, true, 0, PLAIN_SETS, 0, s.look.rows, 0),
       saved := s.saved.(wrap := true, charsets := PLAIN_SETS, top := 0, bottom := s.look.rows))
  }

  function ParserReset(s: State): State {
    s.(decoder := s.decoder.(remaining := 0),
       parser := Parser(false, false, false, false, false, false, false, false, 0, 0, s.parser.values, 0))
  }

  /** flanterm_context_reinit. */
  function Reinit(s: State): State {
    ParserReset(ModesReset(s)).(options := Options(true, true, true, false, ' ' as nat, false, 0, 0, false))
  }

  /** RIS. */
  function FullReset(t: Tables, s: State): State {
    SaveAll(Cleared(Painted(Reinit(s), t.reset(PenOf(s)))))
  }

  // ----- DEC private modes

  function DecMode(s: State, value: Word32, on: bool): State {
    if value == 6 then At(s.(modes := s.modes.(origin := on)), 0, if on then s.modes.top else 0)
    else if value == 7 then s.(modes := s.modes.(wrap := on))
    else if value == 25 then s.(options := s.options.(cursorOn := on))
    else if value == 1049 && on then Cleared(WithMargins(SaveAll(s), 0, s.look.rows))
    else if value == 1049 then RestoreAll(Cleared(s))
    else s
  }

  /** The private modes of a list of parameters, one after the other. */
  function DecModes(s: State, values: seq<Word32>, on: bool): State {
    if values == [] then s else DecMode(DecModes(s, values[..|values| - 1], on), values[|values| - 1], on)
  }

  function Given(values: seq<Word32>, n: nat): seq<Word32> {
    if n <= |values| then values[..n] else values
  }

  /** The byte that ends a private control sequence. */
  function PrivateFinal(s: State, c: Byte): State {
    var p := s.(parser := s.parser.(private := false));
    if c == 'h' as Byte || c == 'l' as Byte then DecModes(p, Given(s.parser.values, s.parser.count), c == 'h' as Byte)
    else p
  }

  // ----- control sequences

  /** One more digit of a parameter; a parameter that cannot grow by a digit ignores it. */
  function AppendDigit(v: Word32, d: Word32): Word32
    requires d < 10
  {
    if v > 0xffff_ffff / 10 then v else if v * 10 > 0xffff_ffff - d then 0xffff_ffff else v * 10 + d
  }

  predicate IsDigit(c: Byte) {
    '0' as Byte <= c <= '9' as Byte
  }

  function Stored<T>(s: seq<T>, i: nat, v: T): (r: seq<T>)
    ensures |r| == |s|
  {
    if i < |s| then s[i := v] else s
  }

  /** Value of a parameter that is missing, and of one given as 0 unless it is 0 itself. */
  function DefaultOf(c: char): Word32 {
    if c in "JKqmc]" then 0 else 1
  }

  /** The parameters as the control function sees them: n given ones, the rest missing. */
  function Defaulted(values: seq<Word32>, n: nat, d: Word32): (r: seq<Word32>)
    ensures |r| == |values|
  {
    seq(|values|, i requires 0 <= i < |values| => if i >= n || values[i] == 0 then d else values[i])
  }

  function Parameter(s: State, i: nat): nat {
    if i < |s.parser.values| then s.parser.values[i] as nat else 0
  }

  function Digit(s: State, c: Byte): State {
    if !IsDigit(c) || s.parser.count >= |s.parser.values| then s
    else
      var d := (c - '0' as Byte) as Word32;
      s.(parser := s.parser.(
             inside := true,
             values := s.parser.values[s.parser.count := AppendDigit(s.parser.values[s.parser.count], d)]))
  }

  /** The end of a parameter. */
  function Closed(p: Parser): Parser {
    if p.inside then p.(inside := false, count := p.count + 1) else p
  }

  /** A separator; without digits before it the parameter is 0. */
  function Separated(s: State): State {
    if s.parser.inside || s.parser.count >= MAX_VALUES then s.(parser := Closed(s.parser))
    else s.(parser := s.parser.(values := Stored(s.parser.values, s.parser.count, 0), count := s.parser.count + 1))
  }

  /** The end of a control sequence; with `again`, in favour of a new escape sequence. */
  function Ended(s: State, again: bool): State {
    if again then s.(parser := s.parser.(csi := false, offset := 0))
    else s.(parser := s.parser.(csi := false, escape := false))
  }

  /** Scrolling at the end of the region and wrapping at the end of a row, switched. */
  function Toggled(s: State, scrolling: bool, wrapping: bool): State {
    s.(options := s.options.(scrolling := scrolling), modes := s.modes.(wrap := wrapping))
  }

  /** REP: the last graphic character n more times. */
  function Repetition(s: State, n: nat): State {
    if !OnScreen(s) || !s.options.graphic then s
    else Drawn(s, Repeated(s.look.pic, SetupOf(s), s.options.insert, Min(n, 65535), InkOf(s, s.options.lastChar),
                           BlankOf(s)))
  }

  /** DECSTBM. */
  function MarginsSet(s: State, n: nat, q: nat): State {
    if n == 0 then s
    else
      var m := Margins(s.look.rows, s.parser.count, n, q);
      At(WithMargins(s, m.0, m.1), 0, if s.modes.origin then m.0 else 0)
  }

  /** SCOSC. */
  function PositionSaved(s: State): State {
    s.(options := s.options.(scoX := Min(s.look.pic.x, if s.look.cols > 0 then s.look.cols - 1 else 0),
                             scoY := s.look.pic.y))
  }

  /** Would SCORC put the cursor outside the region while positions count from it? */
  predicate Outside(s: State) {
    s.look.rows > 0 && s.modes.origin && !(s.modes.top <= Clamp(s.options.scoY, s.look.rows) < s.modes.bottom)
  }

  /** SCORC: wherever the cursor was, regardless of the region. */
  function PositionRestored(s: State): State {
    if s.look.cols == 0 || s.look.rows == 0 then s
    else
      At(s.(options := s.options.(strayed := s.options.strayed || Outside(s))),
         Clamp(s.options.scoX, s.look.cols), Clamp(s.options.scoY, s.look.rows))
  }

  /** SM and RM. */
  function ModeSwitched(s: State, n: nat, on: bool): State {
    if s.parser.count > 0 && n == 4 then s.(options := s.options.(insert := on)) else s
  }

  /** Does c change modes, margins, colours or the stored position, rather than the screen? */
  predicate IsSetting(c: char) {
    c == 'r' || c == 'u' || c == 's' || c == 'm' || c == 'h' || c == 'l'
  }

  function Setting(t: Tables, s: State, c: char, n: nat, q: nat): State {
    if c == 'r' then MarginsSet(s, n, q)
    else if c == 'u' then PositionRestored(s)
    else if c == 's' then PositionSaved(s)
    else if c == 'm' then Painted(s, t.sgr(PenOf(s), s.parser.values, s.parser.count))
    else ModeSwitched(s, n, c == 'h')
  }

  /** The control functions that act on the screen and the cursor. */
  function Edited(s: State, c: char, n: nat, q: nat): State {
    if OnScreen(s) then Drawn(s, AfterControl(c, s.look.pic, RegionOf(s), n, q, BlankOf(s))) else s
  }

  /** The switch over the final byte c of an ordinary control sequence with parameters n and q. */
  function Control(t: Tables, s: State, c: char, n: nat, q: nat): State {
    if c == 'b' then Repetition(s, n) else if IsSetting(c) then Setting(t, s, c, n, q) else Edited(s, c, n, q)
  }

  predicate IsFinal(c: Byte) {
    0x40 <= c <= 0x7e
  }

  /** Inside a sequence that is not understood, everything up to its end is skipped. */
  function Skipped(s: State, c: Byte): State {
    if c == 0x1b || IsFinal(c) then Ended(s.(parser := s.parser.(unhandled := false)), c == 0x1b) else s
  }

  /** A byte that may end an ordinary control sequence. */
  function Finish(t: Tables, s: State, c: Byte): State {
    if c == 0x1b then Ended(s, true)
    else if IsFinal(c) then Ended(Control(t, s, c as char, Parameter(s, 0), Parameter(s, 1)), false)
    else s.(parser := s.parser.(unhandled := true))
  }

  /** A byte after the parameters. */
  function Complete(t: Tables, s: State, c: Byte): State {
    var f := s.(parser := s.parser.(values := Defaulted(s.parser.values, s.parser.count, DefaultOf(c as char))));
    if s.parser.private then Ended(PrivateFinal(f, c), false)
    else if s.parser.unhandled then Skipped(f, c)
    else Finish(t, f, c)
  }

  /** One byte of a control sequence. */
  function Sequence(t: Tables, s: State, c: Byte): State {
    if s.parser.offset == 2 && c == '[' as Byte then Ended(s.(parser := s.parser.(discard := true)), false)
    else if s.parser.offset == 2 && c == '?' as Byte then s.(parser := s.parser.(private := true))
    else if c < 0x20 && c != 0x1b then ControlChar(s, c)
    else if IsDigit(c) then Digit(s, c)
    else if c == ';' as Byte then Separated(s)
    else Complete(t, s.(parser := Closed(s.parser)), c)
  }

  // ----- escape sequences

  function Zeros(): (r: seq<Word32>)
    ensures |r| == MAX_VALUES
  {
    seq(MAX_VALUES, _ => 0)
  }

  function Left(s: State): State {
    s.(parser := s.parser.(escape := false))
  }

  /** The byte after ESC. */
  function AfterEscape(t: Tables, s: State, c: Byte): State {
    if c == 0x1b then s.(parser := s.parser.(offset := 0))
    else if c == ']' as Byte then s.(parser := s.parser.(osc := true, oscEscape := false))
    else if c == '[' as Byte
      then s.(parser := s.parser.(csi := true, unhandled := false, inside := false, values := Zeros(), count := 0))
    else if c == '7' as Byte then Left(SaveAll(s))
    else if c == '8' as Byte then Left(RestoreAll(s))
    else if c == 'c' as Byte then Left(FullReset(t, s))
    else if c == 'D' as Byte || c == 'E' as Byte || c == 'M' as Byte then Left(LineEscape(s, c))
    else if c == '(' as Byte || c == ')' as Byte then Left(s.(parser := s.parser.(gSelect := c as nat - 39)))
    else Left(s)
  }

  /** One byte of an operating system command, which ends at BEL, at ESC \ or at any other byte after ESC. */
  function Command(s: State, c: Byte): State {
    if s.parser.oscEscape then s.(parser := s.parser.(osc := false, oscEscape := false, escape := c != '\\' as Byte))
    else if c == 0x1b then s.(parser := s.parser.(oscEscape := true))
    else if c == 7 then s.(parser := s.parser.(osc := false, escape := false))
    else s
  }

  /** Does the byte break off the operating system command, so that it is read as the byte after ESC? */
  predicate BreaksOff(s: State, c: Byte) {
    s.parser.oscEscape && c != '\\' as Byte
  }

  function Advanced(s: State, offset: nat): State {
    s.(parser := s.parser.(offset := offset % 0x1_0000_0000_0000_0000))
  }

  /** One byte of an escape sequence. */
  function Escape(t: Tables, s: State, c: Byte): State {
    var a := Advanced(s, s.parser.offset + 1);
    if s.parser.osc then
      if BreaksOff(s, c) then AfterEscape(t, Advanced(Command(a, c), 1), c) else Command(a, c)
    else if s.parser.csi then Sequence(t, a, c)
    else AfterEscape(t, a, c)
  }

  // ----- bytes

  /** The line-drawing set; -1 for the bytes that it does not replace. */
  function SpecialGlyph(c: char): int {
    match c
    case '`' => 0x04
    case '0' => 0xdb
    case '-' => 0x18
    case ',' => 0x1b
    case '.' => 0x19
    case 'a' => 0xb1
    case 'f' => 0xf8
    case 'g' => 0xf1
    case 'h' => 0xb0
    case 'j' => 0xd9
    case 'k' => 0xbf
    case 'l' => 0xda
    case 'm' => 0xc0
    case 'n' => 0xc5
    case 'q' => 0xc4
    case 's' => 0x5f
    case 't' => 0xc3
    case 'u' => 0xb4
    case 'v' => 0xc1
    case 'w' => 0xc2
    case 'x' => 0xb3
    case 'y' => 0xf3
    case 'z' => 0xf2
    case '~' => 0xfa
    case '_' => 0xff
    case '+' => 0x1a
    case '{' => 0xe3
    case '}' => 0x9c
    case _ => -1
  }

  /** The glyph of a byte on its own. */
  function GlyphOfByte(m: Modes, c: Byte): nat {
    if m.charset < |m.charsets| && m.charsets[m.charset] == DecSpecial && SpecialGlyph(c as char) >= 0
    then SpecialGlyph(c as char)
    else if c <= 0x7e then c as nat
    else 0xfe
  }

  predicate IsControl(c: Byte) {
    c <= 0x1f || c == 0x7f
  }

  /** CAN, SUB and the byte after an unknown sequence: back to printing, except that a private sequence stays
      private. */
  function Abandoned(s: State): State {
    s.(decoder := s.decoder.(remaining := 0), options := s.options.(graphic := false),
       parser := s.parser.(discard := false, escape := false, csi := false, osc := false, oscEscape := false,
                           gSelect := 0))
  }

  function Forgotten(s: State): State {
    s.(options := s.options.(graphic := false))
  }

  /** A byte outside every sequence. */
  function Plain(s: State, c: Byte): State {
    if c == 0x1b then s.(parser := s.parser.(offset := 0, escape := true))
    else if c == 0 || c == 0x7f then Forgotten(s)
    else if c < 0x20 then ControlChar(Forgotten(s), c)
    else Graphic(s, GlyphOfByte(s.modes, c), 1)
  }

  /** The byte after ESC ( or ESC ) names character set g. */
  function Renamed(m: Modes, g: nat, c: Byte): Modes {
    if g == 0 then m
    else if c == 'B' as Byte then m.(charsets := Stored(m.charsets, g - 1, Default))
    else if c == '0' as Byte then m.(charsets := Stored(m.charsets, g - 1, DecSpecial))
    else m
  }

  function Designated(s: State, c: Byte): State {
    s.(modes := Renamed(s.modes, s.parser.gSelect, c), parser := s.parser.(gSelect := 0))
  }

  function Ground(s: State, c: Byte): State {
    if s.parser.gSelect != 0 && !IsControl(c) then Designated(s, c)
    else Plain(s.(parser := s.parser.(gSelect := 0)), c)
  }

  /** A byte that is not part of a UTF-8 sequence. */
  function Single(t: Tables, s: State, c: Byte): State {
    if s.parser.escape then Escape(t, s, c) else Ground(s, c)
  }

  /** The mark for a sequence that breaks off. */
  function Marked(s: State, c: Byte): State {
    if s.decoder.remaining != 0 && !IsTail(c) then Glyph(s, 0xfe, 1) else s
  }

  /** The state after the decoder has looked at a byte. */
  function Decoded(s: State, c: Byte): State {
    var (d, v) := Step(s.decoder, c);
    Marked(s, c).(decoder := d,
                  parser := s.parser.(gSelect := if v == Consumed && IsLead(c) then 0 else s.parser.gSelect))
  }

  /** flanterm_putchar. */
  function Next(t: Tables, s: State, c: Byte): State {
    if s.parser.discard || c == 0x18 || c == 0x1a then Abandoned(s)
    else
      match Step(s.decoder, c).1
      case Consumed => Decoded(s, c)
      case Emitted(cp) => CodePoint(t, Decoded(s, c), cp)
      case Passed => Single(t, Decoded(s, c), c)
  }

  /** The state after a stream of bytes. */
  function After(t: Tables, s: State, bytes: seq<Byte>): State {
    if bytes == [] then s else Next(t, After(t, s, bytes[..|bytes| - 1]), bytes[|bytes| - 1])
  }
}
