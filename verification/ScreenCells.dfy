/** The macro screen: character cells, the deferred commands that draw on them, and
    what rendering one command does to the screen
    (mrmac/ui/conventional/MRVMScreenState.cpp and MRVMScreen.cpp). */
module ScreenCells {
  import opened Basics

  /** A column and a row; on the screen both count from zero. */
  datatype Pos = Pos(x: int, y: int)

  /** `known` tells a cell that some command has drawn from one nobody has touched. */
  datatype Cell = Cell(ch: char, attr: int, known: bool)

  type Cells = map<Pos, Cell>

  datatype Rect = Rect(x1: int, y1: int, x2: int, y2: int)

  predicate Inside(p: Pos, r: Rect) {
    r.x1 <= p.x <= r.x2 && r.y1 <= p.y <= r.y2
  }

  predicate OnScreen(p: Pos, w: nat, h: nat) {
    0 <= p.x < w && 0 <= p.y < h
  }

  function Positions(w: nat, h: nat): (s: set<Pos>)
    ensures forall p {:trigger p in s} :: p in s <==> OnScreen(p, w, h)
  {
    set x, y | 0 <= x < w && 0 <= y < h :: Pos(x, y)
  }

  function Clamp(v: int, low: int, high: int): (r: int)
    requires low <= high
    ensures low <= r <= high && (low <= v <= high ==> r == v)
  {
    if v < low then low else if v > high then high else v
  }

  /** `composeAttribute`: background zero leaves the whole byte to the foreground. */
  function Attribute(background: int, foreground: int): (attr: int)
    ensures 0 <= attr < 256
  {
    if background % 256 == 0 then foreground % 256
    else background % 16 * 16 + foreground % 16
  }

  /** The commands that matter to cells keep their arguments; `Other` stands for window,
      menu and message-box commands, which draw below the macro cells. */
  datatype Command =
    | Write(x: int, y: int, background: int, foreground: int, text: string)
    | PutBox(x1: int, y1: int, x2: int, y2: int, background: int, foreground: int, title: string, shadow: bool)
    | ClrLine(column: int, row: int, count: int)
    | Scroll(x1: int, y1: int, x2: int, y2: int, attr: int, down: bool)
    | ClearScreen(attr: int)
    | KillBox
    | Gotoxy(x: int, y: int)
    | PutLineNum(number: int)
    | PutColNum(number: int)
    | Marquee(kind: int, text: string)
    | Brain(enabled: bool)
    | Delay(millis: int)
    | Other

  // ---------------------------------------------------------------- what is drawn where

  /** Every cell of `r` that is on the screen gets the same contents. */
  function Fill(w: nat, h: nat, r: Rect, ch: char, attr: int): (o: Cells)
    ensures forall p {:trigger p in o} :: p in o <==> OnScreen(p, w, h) && Inside(p, r)
    ensures forall p | p in o :: o[p] == Cell(ch, attr, true)
  {
    map p | p in Positions(w, h) && Inside(p, r) :: Cell(ch, attr, true)
  }

  function BlankScreen(w: nat, h: nat, attr: int): (o: Cells)
    ensures o.Keys == Positions(w, h) && forall p | p in o :: o[p] == Cell(' ', attr, true)
  {
    map p | p in Positions(w, h) :: Cell(' ', attr, true)
  }

  predicate InText(p: Pos, x: int, y: int, text: string) {
    p.y == y && 0 <= p.x - x < |text|
  }

  /** One line of text from (x, y); what falls off the screen is dropped. */
  function Text(w: nat, h: nat, x: int, y: int, text: string, attr: int): (o: Cells)
    ensures forall p {:trigger p in o} :: p in o <==> OnScreen(p, w, h) && InText(p, x, y, text)
    ensures forall p | p in o :: InText(p, x, y, text) && o[p] == Cell(text[p.x - x], attr, true)
  {
    map p | p in Positions(w, h) && InText(p, x, y, text) :: Cell(text[p.x - x], attr, true)
  }

  function WriteCells(w: nat, h: nat, c: Command): (o: Cells)
    requires c.Write?
    ensures o.Keys <= Positions(w, h) && forall p | p in o :: o[p].known
  {
    Text(w, h, c.x - 1, c.y - 1, c.text, Attribute(c.background, c.foreground))
  }

  /** Corners given one-based and in any order, turned and clamped onto the screen. */
  function BoxRect(x1: int, y1: int, x2: int, y2: int, w: nat, h: nat): (r: Rect)
    requires w > 0 && h > 0
    ensures 0 <= r.x1 <= r.x2 < w && 0 <= r.y1 <= r.y2 < h
  {
    Rect(Clamp(Min(x1, x2) - 1, 0, w - 1), Clamp(Min(y1, y2) - 1, 0, h - 1),
         Clamp(Max(x1, x2) - 1, 0, w - 1), Clamp(Max(y1, y2) - 1, 0, h - 1))
  }

  /** The title that fits between the upper corners. */
  function Clipped(r: Rect, title: string): (s: string)
    ensures s <= title
    ensures r.x2 - r.x1 < 2 ==> s == ""
    ensures r.x2 - r.x1 >= 2 ==> |s| == Min(|title|, r.x2 - r.x1 - 1)
  {
    if r.x2 - r.x1 < 2 then "" else title[..Min(|title|, r.x2 - r.x1 - 1)]
  }

  function TitleStart(r: Rect, title: string): (x: int)
    ensures r.x2 - r.x1 >= 2 ==> r.x1 < x && x + |Clipped(r, title)| <= r.x2
  {
    if r.x2 - r.x1 < 2 then r.x1 + 1
    else r.x1 + 1 + (r.x2 - r.x1 - 1 - |Clipped(r, title)|) / 2
  }

  function FrameChar(p: Pos, r: Rect): char {
    if (p.x == r.x1 || p.x == r.x2) && (p.y == r.y1 || p.y == r.y2) then '+'
    else if p.y == r.y1 || p.y == r.y2 then '-'
    else if p.x == r.x1 || p.x == r.x2 then '|'
    else ' '
  }

  function BoxChar(p: Pos, r: Rect, title: string): char {
    var start := TitleStart(r, title);
    if InText(p, start, r.y1, Clipped(r, title)) then Clipped(r, title)[p.x - start]
    else FrameChar(p, r)
  }

  /** A framed box with its title on the upper edge. */
  function Box(w: nat, h: nat, r: Rect, attr: int, title: string): (o: Cells)
    ensures forall p {:trigger p in o} :: p in o <==> OnScreen(p, w, h) && Inside(p, r)
    ensures forall p | p in o :: o[p] == Cell(BoxChar(p, r, title), attr, true)
  {
    map p | p in Positions(w, h) && Inside(p, r) :: Cell(BoxChar(p, r, title), attr, true)
  }

  function BoxOf(w: nat, h: nat, c: Command): Rect
    requires (c.PutBox? || c.Scroll?) && w > 0 && h > 0
  {
    BoxRect(c.x1, c.y1, c.x2, c.y2, w, h)
  }

  function BoxCells(w: nat, h: nat, c: Command): (o: Cells)
    requires c.PutBox? && w > 0 && h > 0
    ensures o.Keys <= Positions(w, h) && forall p | p in o :: o[p].known && Inside(p, BoxOf(w, h, c))
  {
    Box(w, h, BoxOf(w, h, c), Attribute(c.background, c.foreground), c.title)
  }

  /** Rows inside `r` move one up or down and the freed row is blanked. */
  function Scrolled(v: Cells, r: Rect, attr: int, down: bool): (u: Cells)
    requires forall p: Pos, q: Pos | p in v && q.x == p.x && Inside(q, r) :: q in v
    ensures u.Keys == v.Keys
    ensures forall p | p in v :: u[p] == ScrolledCell(v, r, attr, down, p)
  {
    map p | p in v :: ScrolledCell(v, r, attr, down, p)
  }

  function ScrolledCell(v: Cells, r: Rect, attr: int, down: bool, p: Pos): Cell
    requires p in v && forall q: Pos | q.x == p.x && Inside(q, r) :: q in v
  {
    var from := Pos(p.x, if down then p.y - 1 else p.y + 1);
    if !Inside(p, r) then v[p] else if Inside(from, r) then v[from] else Cell(' ', attr, true)
  }

  // ----------------------------------------------------------------- what the drawings look like

  /** Background and foreground share the byte half and half, but with background 0 the foreground has all of it. */
  lemma AttributeIs(background: int, foreground: int)
    ensures 0 <= foreground < 256 ==> Attribute(0, foreground) == foreground
    ensures 1 <= background < 16 && 0 <= foreground < 16 ==> Attribute(background, foreground) == 16 * background + foreground
  {
  }

  /** Corners may be given in any order; on the screen they are taken as they are. */
  lemma BoxRectTurns(x1: int, y1: int, x2: int, y2: int, w: nat, h: nat)
    requires w > 0 && h > 0
    ensures BoxRect(x1, y1, x2, y2, w, h) == BoxRect(x2, y2, x1, y1, w, h) == BoxRect(x1, y2, x2, y1, w, h)
    ensures 1 <= x1 <= x2 <= w && 1 <= y1 <= y2 <= h ==> BoxRect(x1, y1, x2, y2, w, h) == Rect(x1 - 1, y1 - 1, x2 - 1, y2 - 1)
  {
  }

  /** A box has '+' in its corners, '-' and '|' between them and blanks inside; its title, shortened if need be, stands in
      the middle of the upper edge. */
  lemma BoxLooks(w: nat, h: nat, r: Rect, attr: int, title: string, p: Pos)
    requires 0 <= r.x1 <= r.x2 < w && 0 <= r.y1 <= r.y2 < h && Inside(p, r)
    ensures p in Box(w, h, r, attr, title) && Box(w, h, r, attr, title)[p].attr == attr && Box(w, h, r, attr, title)[p].known
    ensures var ch, start, shown := Box(w, h, r, attr, title)[p].ch, TitleStart(r, title), Clipped(r, title);
      && (p.x in {r.x1, r.x2} && p.y in {r.y1, r.y2} ==> ch == '+')
      && (p.x in {r.x1, r.x2} && r.y1 < p.y < r.y2 ==> ch == '|')
      && (r.x1 < p.x < r.x2 && p.y == r.y2 && r.y1 < r.y2 ==> ch == '-')
      && (r.x1 < p.x < r.x2 && p.y == r.y1 ==> ch == if 0 <= p.x - start < |shown| then title[p.x - start] else '-')
      && (r.x1 < p.x < r.x2 && r.y1 < p.y < r.y2 ==> ch == ' ')
    ensures r.x2 - r.x1 >= 2 ==>
      0 <= (r.x2 - TitleStart(r, title) - |Clipped(r, title)|) - (TitleStart(r, title) - r.x1 - 1) <= 1
    ensures r.x2 - r.x1 >= 2 && |title| < r.x2 - r.x1 ==> Clipped(r, title) == title
  {
  }

  /** Scrolling down moves every row of the rectangle one down and blanks the first, up the other way round. */
  lemma ScrolledMoves(v: Cells, r: Rect, attr: int, down: bool, p: Pos)
    requires forall p: Pos, q: Pos | p in v && q.x == p.x && Inside(q, r) :: q in v
    requires p in v
    ensures var u := Scrolled(v, r, attr, down);
      && (!Inside(p, r) ==> u[p] == v[p])
      && (Inside(p, r) && p.y < r.y2 ==> Pos(p.x, p.y + 1) in v && if down then u[Pos(p.x, p.y + 1)] == v[p] else u[p] == v[Pos(p.x, p.y + 1)])
      && (Inside(p, r) && p.y == (if down then r.y1 else r.y2) ==> u[p] == Cell(' ', attr, true))
  {
  }

  // ------------------------------------------------------------------------ the screen

  /** The rendered screen. `boxes` holds the cells saved under the open boxes, the last
      opened on top; `line` and `col` are the numbers shown in the lower right field. */
  datatype Screen = Screen(w: nat, h: nat, cells: Cells, cursor: Pos, boxes: seq<Cells>,
                           line: Option<int>, col: Option<int>)

  ghost predicate ScreenOk(g: Screen) {
    && g.cells.Keys == Positions(g.w, g.h)
    && forall k | 0 <= k < |g.boxes| :: g.boxes[k].Keys <= g.cells.Keys
  }

  function NumberText(number: Option<int>): string {
    if number.Some? then Decimal(number.value) else "0"
  }

  /** The field for the line and column numbers: the last 24 cells of the bottom row. */
  function NumberField(w: nat, h: nat): Rect {
    Rect(Max(0, w - 24), h - 1, w - 1, h - 1)
  }

  function Numbers(w: nat, h: nat, line: Option<int>, col: Option<int>): (o: Cells)
    ensures forall p | p in o :: OnScreen(p, w, h) && Inside(p, NumberField(w, h))
  {
    FieldText(w, h, "L:" + NumberText(line) + " C:" + NumberText(col))
  }

  function FieldText(w: nat, h: nat, text: string): (o: Cells)
    ensures forall p | p in o :: OnScreen(p, w, h) && Inside(p, NumberField(w, h))
  {
    var f := NumberField(w, h);
    Fill(w, h, f, ' ', 7) + Text(w, h, Max(f.x1, w - |text|), h - 1, text, 7)
  }

  /** A text at the right end of a blank field of 24 cells in the bottom row. */
  lemma FieldLooks(w: nat, h: nat, text: string, p: Pos)
    requires OnScreen(p, w, h)
    ensures p in FieldText(w, h, text) <==> p.y == h - 1 && w - 24 <= p.x
    ensures p in FieldText(w, h, text) && |text| <= w && |text| <= 24 ==>
      FieldText(w, h, text)[p] == Cell(if w - |text| <= p.x then text[p.x - (w - |text|)] else ' ', 7, true)
  {
  }

  /** Both numbers stand there. */
  lemma NumbersLook(w: nat, h: nat, line: int, col: int)
    ensures Numbers(w, h, Some(line), Some(col)) == FieldText(w, h, "L:" + Decimal(line) + " C:" + Decimal(col))
    ensures Numbers(w, h, None, Some(col)) == FieldText(w, h, "L:0 C:" + Decimal(col))
    ensures Numbers(w, h, Some(line), None) == FieldText(w, h, "L:" + Decimal(line) + " C:0")
  {
    assert "L:" + "0" + " C:" == "L:0 C:";
    assert " C:" + "0" == " C:0";
    assert ("L:" + Decimal(line) + " C:") + "0" == "L:" + Decimal(line) + " C:0";
  }

  /** The renderer clamps a rectangle before it fills it. */
  function FillClamped(w: nat, h: nat, r: Rect, ch: char, attr: int): Cells
    requires w > 0 && h > 0
  {
    Fill(w, h, Rect(Clamp(r.x1, 0, w - 1), Clamp(r.y1, 0, h - 1), Clamp(r.x2, 0, w - 1), Clamp(r.y2, 0, h - 1)), ch, attr)
  }

  function RightShadow(r: Rect): Rect { Rect(r.x2 + 1, r.y1 + 1, r.x2 + 1, r.y2 + 1) }
  function LowerShadow(r: Rect): Rect { Rect(r.x1 + 1, r.y2 + 1, r.x2 + 1, r.y2 + 1) }

  function Shadow(w: nat, h: nat, r: Rect): Cells
    requires w > 0 && h > 0
  {
    (if r.x2 + 1 < w then FillClamped(w, h, RightShadow(r), ' ', 8) else map[])
    + (if r.y2 + 1 < h then FillClamped(w, h, LowerShadow(r), ' ', 8) else map[])
  }

  /** A shadow lies one cell to the right of the box and one below it, where there is room. */
  lemma ShadowLooks(w: nat, h: nat, r: Rect, p: Pos)
    requires 0 <= r.x1 <= r.x2 && 0 <= r.y1 <= r.y2 && r.x2 + 1 < w && r.y2 + 1 < h
    ensures p in Shadow(w, h, r) <==> (p.x == r.x2 + 1 && r.y1 < p.y <= r.y2 + 1) || (p.y == r.y2 + 1 && r.x1 < p.x <= r.x2 + 1)
    ensures p in Shadow(w, h, r) ==> Shadow(w, h, r)[p] == Cell(' ', 8, true)
  {
  }

  /** The part of the screen saved when a box opens. */
  function Saved(v: Cells, w: nat, h: nat, r: Rect, shadow: bool): (saved: Cells)
    ensures saved.Keys <= v.Keys
  {
    var covered := if shadow then Rect(r.x1, r.y1, Min(r.x2 + 1, w - 1), Min(r.y2 + 1, h - 1)) else r;
    map p | p in v && Inside(p, covered) :: v[p]
  }

  function HeadAttr(v: Cells, y: int): int {
    if Pos(0, y) in v && v[Pos(0, y)].known then v[Pos(0, y)].attr else 7
  }

  /** The cells a clear-line command blanks on the screen: a counted stretch, or with no
      arguments the row of the cursor. */
  function ClearedStretch(w: nat, h: nat, cursor: Pos, c: Command): Rect
    requires c.ClrLine? && w > 0 && h > 0
  {
    if c.column == 0 && c.row == 0 && c.count == 0 then
      var y := Clamp(cursor.y, 0, h - 1);
      Rect(0, y, w - 1, y)
    else
      var x := Max(0, c.column - 1);
      Rect(x, c.row - 1, x + c.count - 1, c.row - 1)
  }

  function Cleared(w: nat, h: nat, v: Cells, r: Rect): (o: Cells)
    ensures forall p {:trigger p in o} :: p in o <==> OnScreen(p, w, h) && Inside(p, r)
  {
    Fill(w, h, r, ' ', HeadAttr(v, r.y1))
  }

  function ClampedCursor(x: int, y: int, w: nat, h: nat): Pos
    requires w > 0 && h > 0
  {
    Pos(Clamp(x - 1, 0, w - 1), Clamp(y - 1, 0, h - 1))
  }

  /** Closing a box puts the saved cells back and, if that changed anything, shows the
      numbers again. */
  function BoxKilled(g: Screen): Screen {
    if g.boxes == [] then g
    else
      var back := g.cells + g.boxes[|g.boxes| - 1];
      var cells :=
        if back != g.cells && (g.line.Some? || g.col.Some?) then back + Numbers(g.w, g.h, g.line, g.col) else back;
      g.(cells := cells, boxes := g.boxes[..|g.boxes| - 1])
  }

  /** What a successful rendering of one command makes of the screen. */
  function Render(g: Screen, c: Command): Screen
    requires ScreenOk(g)
  {
    if g.w == 0 || g.h == 0 then
      match c
      case PutLineNum(n) => g.(line := Some(n))
      case PutColNum(n) => g.(col := Some(n))
      case _ => g
    else
      match c
      case Write(_, _, _, _, _) => g.(cells := g.cells + WriteCells(g.w, g.h, c))
      case PutBox(_, _, _, _, _, _, _, shadow) =>
        var r := BoxOf(g.w, g.h, c);
        var boxed := g.cells + BoxCells(g.w, g.h, c);
        g.(boxes := g.boxes + [Saved(g.cells, g.w, g.h, r, shadow)],
           cells := if shadow then boxed + Shadow(g.w, g.h, r) else boxed)
      case ClrLine(_, _, _) =>
        g.(cells := g.cells + Cleared(g.w, g.h, g.cells, ClearedStretch(g.w, g.h, g.cursor, c)))
      case Scroll(_, _, _, _, attr, down) =>
        g.(cells := Scrolled(g.cells, BoxOf(g.w, g.h, c), attr % 256, down))
      case ClearScreen(attr) =>
        g.(cells := g.cells + BlankScreen(g.w, g.h, attr % 256), cursor := Pos(0, 0), boxes := [])
      case KillBox => BoxKilled(g)
      case Gotoxy(x, y) => g.(cursor := ClampedCursor(x, y, g.w, g.h))
      case PutLineNum(n) => g.(line := Some(n), cells := g.cells + Numbers(g.w, g.h, Some(n), g.col))
      case PutColNum(n) => g.(col := Some(n), cells := g.cells + Numbers(g.w, g.h, g.line, Some(n)))
      case _ => g
  }

  /** The lines and columns of a box, with those of its shadow. */
  predicate Covered(p: Pos, r: Rect, shadow: bool) {
    var room := if shadow then 1 else 0;
    r.x1 <= p.x <= r.x2 + room && r.y1 <= p.y <= r.y2 + room
  }

  lemma SavedIsCovered(v: Cells, w: nat, h: nat, r: Rect, shadow: bool, p: Pos)
    requires v.Keys == Positions(w, h) && 0 <= r.x1 <= r.x2 < w && 0 <= r.y1 <= r.y2 < h && p in v
    ensures p in Saved(v, w, h, r, shadow) <==> Covered(p, r, shadow)
    ensures p in Saved(v, w, h, r, shadow) ==> Saved(v, w, h, r, shadow)[p] == v[p]
  {
  }

  lemma OnlyCoveredIsDrawn(g: Screen, c: Command, p: Pos)
    requires c.PutBox? && ScreenOk(g) && g.w > 0 && g.h > 0 && p in g.cells && !Covered(p, BoxOf(g.w, g.h, c), c.shadow)
    ensures p in Render(g, c).cells && Render(g, c).cells[p] == g.cells[p]
  {
    var r := BoxOf(g.w, g.h, c);
    assert p !in BoxCells(g.w, g.h, c);
    assert c.shadow ==> p !in Shadow(g.w, g.h, r);
  }

  lemma BoxOpened(g: Screen, c: Command)
    requires c.PutBox? && ScreenOk(g) && g.w > 0 && g.h > 0
    ensures Render(g, c).boxes == g.boxes + [Saved(g.cells, g.w, g.h, BoxOf(g.w, g.h, c), c.shadow)]
  {
  }

  lemma BoxClosed(g: Screen, saved: Cells)
    requires ScreenOk(g) && g.w > 0 && g.h > 0 && g.boxes != [] && g.boxes[|g.boxes| - 1] == saved && g.line.None? && g.col.None?
    ensures Render(g, KillBox) == g.(cells := g.cells + saved, boxes := g.boxes[..|g.boxes| - 1])
  {
  }

  /** Closing a box puts back what was there in its lines and columns, and its shadow's, when it was opened, and leaves all
      else as it has become; a closed box that nobody drew on is as if it had never been opened. */
  lemma BoxOpenedAndClosed(g: Screen, c: Command, later: Screen, p: Pos)
    requires c.PutBox? && ScreenOk(g) && g.w > 0 && g.h > 0 && ScreenOk(later) && later.w == g.w && later.h == g.h
    requires later.boxes == Render(g, c).boxes && later.line.None? && later.col.None? && p in g.cells
    ensures var t := Render(later, KillBox);
      && p in later.cells && p in t.cells && t.boxes == g.boxes
      && t.cells[p] == (if Covered(p, BoxOf(g.w, g.h, c), c.shadow) then g.cells[p] else later.cells[p])
      && (later.cells == Render(g, c).cells ==> t.cells[p] == g.cells[p])
  {
    BoxOpened(g, c);
    BoxClosed(later, Saved(g.cells, g.w, g.h, BoxOf(g.w, g.h, c), c.shadow));
    SavedIsCovered(g.cells, g.w, g.h, BoxOf(g.w, g.h, c), c.shadow, p);
    if !Covered(p, BoxOf(g.w, g.h, c), c.shadow) { OnlyCoveredIsDrawn(g, c, p); }
  }

  lemma RenderedOk(g: Screen, c: Command)
    requires ScreenOk(g)
    ensures ScreenOk(Render(g, c)) && Render(g, c).w == g.w && Render(g, c).h == g.h
  {
  }
}
