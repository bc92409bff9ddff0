/** The shadow screen that playback keeps beside the real one, and its verdict whether a
    command has to be rendered at all
    (`MacroScreenModel` in coprocessor/MRCoprocessorDeferredPlayback.cpp). */
module ScreenModel {
  import opened Basics
  import opened ScreenCells

  /** What the shadow screen knows. An unseeded one has no cells. */
  datatype Model = Model(seeded: bool, w: nat, h: nat, cells: Cells, cursor: Option<Pos>,
                         line: Option<int>, col: Option<int>, brain: Option<bool>,
                         marquee: Option<(int, string)>)
  {
    predicate HasGrid() { w > 0 && h > 0 }
  }

  ghost predicate ModelOk(m: Model) { m.cells.Keys == Positions(m.w, m.h) }

  const UNSEEDED := Model(false, 0, 0, map[], None, None, None, None, None)

  const BLANK := Cell(' ', 7, false)

  /** `seedFromRuntime`: all cells unknown; the cursor is taken over if there is one. */
  function Seeded(m: Model, w: nat, h: nat, cursor: Option<Pos>): (r: Model)
    ensures ModelOk(r) && r.seeded
    ensures forall p | p in r.cells :: !r.cells[p].known
  {
    m.(seeded := true, w := w, h := h, cells := map p | p in Positions(w, h) :: BLANK,
       cursor := if cursor.Some? then cursor else m.cursor)
  }

  /** The outcome of projecting a command: the next shadow screen and whether the command
      must be rendered. */
  datatype Verdict = Verdict(model: Model, render: bool)

  /** `p` is in `r`, or its place in the vector is that of column `p.x + w` of the row
      before, which is. */
  predicate Reached(p: Pos, w: nat, r: Rect) {
    Inside(p, r) || (r.x1 <= p.x + w <= r.x2 && r.y1 <= p.y - 1 <= r.y2)
  }

  /** Cells the shadow screen fills. Its cells lie row after row in one vector and it does
      not clamp, so column `w` of a row is column 0 of the next. */
  function FillUnclamped(w: nat, h: nat, r: Rect, ch: char, attr: int): (o: Cells)
    ensures forall p {:trigger p in o} :: p in o <==> OnScreen(p, w, h) && Reached(p, w, r)
    ensures forall p | p in o :: o[p] == Cell(ch, attr, true)
  {
    map p | p in Positions(w, h) && Reached(p, w, r) :: Cell(ch, attr, true)
  }

  function ModelShadow(w: nat, h: nat, r: Rect): Cells {
    (if r.x2 + 1 < w then FillUnclamped(w, h, RightShadow(r), ' ', 8) else map[])
    + (if r.y2 + 1 < h then FillUnclamped(w, h, LowerShadow(r), ' ', 8) else map[])
  }

  /** The shadow of a box stays inside the vector of cells: to its right there is room
      below as well, and under it the vector does not end before column `w`. */
  predicate ShadowStaysInside(w: nat, h: nat, r: Rect) {
    && (r.x2 + 1 < w ==> r.y2 + 1 < h)
    && (r.y2 + 1 < h && r.x2 + 1 >= w ==> r.y2 + 2 < h)
  }

  /** The stretch the shadow screen blanks for a counted clear-line. */
  function CountedStretch(c: Command): Rect
    requires c.ClrLine?
  {
    var x := c.column - 1;
    if x < 0 then Rect(0, c.row - 1, c.count + x - 1, c.row - 1)
    else Rect(x, c.row - 1, x + c.count - 1, c.row - 1)
  }

  function CursorRow(m: Model): Rect
    requires m.HasGrid() && m.cursor.Some?
  {
    var y := Clamp(m.cursor.value.y - 1, 0, m.h - 1);
    Rect(0, y, m.w - 1, y)
  }

  function Stretch(m: Model, c: Command): Rect
    requires c.ClrLine? && m.HasGrid() && (c.count <= 0 ==> m.cursor.Some?)
  {
    if c.count <= 0 then CursorRow(m) else CountedStretch(c)
  }

  function GotoTarget(m: Model, x: int, y: int): Pos {
    Pos(if m.w > 0 then Clamp(x, 1, m.w) else x, if m.h > 0 then Clamp(y, 1, m.h) else y)
  }

  /** Drawing `o` must be rendered exactly if it changes what the shadow screen holds. */
  function Drawn(m: Model, o: Cells): Verdict {
    Verdict(m.(cells := m.cells + o), m.cells + o != m.cells)
  }

  /** The command stays inside the vector of cells. Where it does not, the program writes
      outside its memory; `Project` then leaves those writes out. */
  predicate Defined(m: Model, c: Command) {
    c.PutBox? && c.shadow && m.HasGrid() ==> ShadowStaysInside(m.w, m.h, BoxOf(m.w, m.h, c))
  }

  function ProjectWrite(m: Model, c: Command): Verdict
    requires c.Write?
  {
    if !m.HasGrid() then Verdict(m, true)
    else Drawn(m, WriteCells(m.w, m.h, c))
  }

  /** A box is blanked before its corners are drawn, so it always reports a change. */
  function ProjectBox(m: Model, c: Command): Verdict
    requires c.PutBox?
  {
    if !m.HasGrid() then Verdict(m, true)
    else
      var boxed := m.cells + BoxCells(m.w, m.h, c);
      Verdict(m.(cells := if c.shadow then boxed + ModelShadow(m.w, m.h, BoxOf(m.w, m.h, c)) else boxed), true)
  }

  function ProjectClrLine(m: Model, c: Command): Verdict
    requires c.ClrLine?
  {
    if !m.HasGrid() || (c.count <= 0 && m.cursor.None?) then Verdict(m, true)
    else Drawn(m, Cleared(m.w, m.h, m.cells, Stretch(m, c)))
  }

  function ProjectScroll(m: Model, c: Command): Verdict
    requires c.Scroll? && ModelOk(m)
  {
    if !m.HasGrid() then Verdict(m, true)
    else
      var cells := Scrolled(m.cells, BoxOf(m.w, m.h, c), c.attr % 256, c.down);
      Verdict(m.(cells := cells), cells != m.cells)
  }

  function Home(m: Model, cells: Cells): Model {
    m.(cells := cells, cursor := Some(Pos(1, 1)), line := None, col := None)
  }

  function ProjectClearScreen(m: Model, c: Command): Verdict
    requires c.ClearScreen?
  {
    if !m.HasGrid() then Verdict(Home(m, m.cells), true)
    else
      var cells := m.cells + BlankScreen(m.w, m.h, c.attr % 256);
      Verdict(Home(m, cells), cells != m.cells)
  }

  /** `shouldRenderAndProject`. */
  function Project(m: Model, c: Command): (v: Verdict)
    requires ModelOk(m)
  {
    match c
    case Write(_, _, _, _, _) => ProjectWrite(m, c)
    case PutBox(_, _, _, _, _, _, _, _) => ProjectBox(m, c)
    case ClrLine(_, _, _) => ProjectClrLine(m, c)
    case Scroll(_, _, _, _, _, _) => ProjectScroll(m, c)
    case ClearScreen(_) => ProjectClearScreen(m, c)
    case Gotoxy(x, y) =>
      var to := Some(GotoTarget(m, x, y));
      Verdict(m.(cursor := to), m.cursor != to)
    case PutLineNum(n) => Verdict(m.(line := Some(n)), m.line != Some(n))
    case PutColNum(n) => Verdict(m.(col := Some(n)), m.col != Some(n))
    case Marquee(kind, text) => Verdict(m.(marquee := Some((kind, text))), m.marquee != Some((kind, text)))
    case Brain(enabled) => Verdict(m.(brain := Some(enabled)), m.brain != Some(enabled))
    case _ => Verdict(m, true)
  }

  lemma ProjectedOk(m: Model, c: Command)
    requires ModelOk(m)
    ensures ModelOk(Project(m, c).model) && Project(m, c).model.w == m.w && Project(m, c).model.h == m.h
  {
  }

  // --------------------------------------------------------- cells in one flat vector

  /** `indexFor`: where cell (x, y) lies in the vector, row after row. */
  function IndexFor(x: nat, y: nat, w: nat): (i: nat)
    ensures i >= x
    decreases y
  {
    if y == 0 then x else w + IndexFor(x, y - 1, w)
  }

  lemma {:induction false} IndexIsProduct(x: nat, y: nat, w: nat)
    ensures IndexFor(x, y, w) == y * w + x
    decreases y
  {
    if y > 0 {
      IndexIsProduct(x, y - 1, w);
      assert y * w == (y - 1) * w + w;
    }
  }

  lemma {:induction false} IndexWraps(x: nat, y: nat, w: nat)
    ensures IndexFor(x + w, y, w) == IndexFor(x, y + 1, w)
    decreases y
  {
    if y > 0 { IndexWraps(x, y - 1, w); }
  }

  lemma {:induction false} IndexInside(x: nat, y: nat, w: nat, h: nat)
    requires x < w
    ensures IndexFor(x, y, w) < IndexFor(0, h, w) <==> y < h
    decreases y + h
  {
    if y > 0 && h > 0 { IndexInside(x, y - 1, w, h - 1); }
  }

  lemma {:induction false} IndexInjective(x: nat, y: nat, a: nat, b: nat, w: nat)
    requires x < w && a < w && IndexFor(x, y, w) == IndexFor(a, b, w)
    ensures x == a && y == b
    decreases y + b
  {
    if y > 0 && b > 0 { IndexInjective(x, y - 1, a, b - 1, w); }
  }

  /** Every place of the vector is a cell of the screen: its column and row are the
      remainder and the quotient. */
  lemma IndexReaches(i: nat, w: nat, h: nat)
    requires w > 0 && i < IndexFor(0, h, w)
    ensures OnScreen(Pos(i % w, i / w), w, h) && IndexFor(i % w, i / w, w) == i
  {
    IndexIsProduct(i % w, i / w, w);
    assert i == i / w * w + i % w;
    IndexInside(i % w, i / w, w, h);
  }
}
