/** `MacroScreenModel` as the program runs it: loops over one flat vector of cells, each
    method proved to do what `ScreenModel.Project` says. */
module ScreenShadow {
  import opened Basics
  import opened ScreenCells
  import opened ScreenModel

  /** The cell the vector holds for `p`. */
  function At(cells: seq<Cell>, p: Pos, w: nat): Cell {
    if p.x >= 0 && p.y >= 0 && IndexFor(p.x, p.y, w) < |cells| then cells[IndexFor(p.x, p.y, w)] else BLANK
  }

  /** The vector `cells` holds the screen `v`. */
  ghost predicate Holds(cells: seq<Cell>, v: Cells, w: nat, h: nat) {
    && |cells| == IndexFor(0, h, w)
    && v.Keys == Positions(w, h)
    && forall p | p in v :: v[p] == At(cells, p, w)
  }

  lemma AtUpdated(cells: seq<Cell>, w: nat, h: nat, q: Pos, cell: Cell)
    requires |cells| == IndexFor(0, h, w) && OnScreen(q, w, h)
    ensures IndexFor(q.x, q.y, w) < |cells|
    ensures var next := cells[IndexFor(q.x, q.y, w) := cell];
      At(next, q, w) == cell && forall p | OnScreen(p, w, h) && p != q :: At(next, p, w) == At(cells, p, w)
  {
    IndexInside(q.x, q.y, w, h);
    var i := IndexFor(q.x, q.y, w);
    var next := cells[i := cell];
    forall p | OnScreen(p, w, h) && p != q ensures At(next, p, w) == At(cells, p, w) {
      if IndexFor(p.x, p.y, w) == i { IndexInjective(p.x, p.y, q.x, q.y, w); }
    }
  }

  /** Equal screens come from equal vectors. */
  lemma HoldsInjective(a: seq<Cell>, b: seq<Cell>, v: Cells, u: Cells, w: nat, h: nat)
    requires Holds(a, v, w, h) && Holds(b, u, w, h)
    ensures v == u <==> a == b
  {
    if v == u {
      if w == 0 { IndexIsProduct(0, h, w); }
      forall i | 0 <= i < |a| ensures a[i] == b[i] {
        IndexReaches(i, w, h);
        var p := Pos(i % w, i / w);
        assert p in v && At(a, p, w) == At(b, p, w);
      }
    }
  }

  function BlankCells(w: nat, h: nat): (cells: seq<Cell>)
    ensures |cells| == IndexFor(0, h, w) && forall i | 0 <= i < |cells| :: cells[i] == BLANK
  {
    IndexIsProduct(0, h, w);
    if w > 0 && h > 0 then seq(w * h, i => BLANK) else []
  }

  /** Where a write to column `x` of row `y` lands in the flat vector. */
  function Landing(x: nat, y: nat, w: nat): Pos {
    if x < w then Pos(x, y) else Pos(0, y + 1)
  }

  lemma LandingIndex(x: nat, y: nat, w: nat)
    requires x <= w && 0 < w
    ensures IndexFor(x, y, w) == IndexFor(Landing(x, y, w).x, Landing(x, y, w).y, w)
  {
    if x == w { IndexWraps(0, y, w); }
  }

  lemma LandingInside(x: nat, y: nat, w: nat, h: nat)
    requires x <= w && 0 < w
    ensures IndexFor(x, y, w) < IndexFor(0, h, w) <==> Landing(x, y, w).y < h
  {
    var to := Landing(x, y, w);
    LandingIndex(x, y, w);
    IndexInside(to.x, to.y, w, h);
  }

  /** From `a` to `b` cells were only ever overwritten with `cell`. */
  ghost predicate Overwritten(a: seq<Cell>, b: seq<Cell>, cell: Cell) {
    |a| == |b| && forall i | 0 <= i < |b| :: b[i] == a[i] || b[i] == cell
  }

  lemma OverwrittenTwice(a: seq<Cell>, b: seq<Cell>, c: seq<Cell>, cell: Cell)
    requires Overwritten(a, b, cell) && Overwritten(b, c, cell)
    ensures Overwritten(a, c, cell) && (c != a <==> b != a || c != b)
  {
    if b != a {
      var i :| 0 <= i < |b| && b[i] != a[i];
      assert c[i] == b[i];
    }
  }

  /** `b` is `a` with the cells of `r` filled. */
  ghost predicate Filled(a: seq<Cell>, b: seq<Cell>, w: nat, h: nat, r: Rect, cell: Cell) {
    && |a| == |b| == IndexFor(0, h, w)
    && Overwritten(a, b, cell)
    && forall p {:trigger At(b, p, w)} | OnScreen(p, w, h) :: At(b, p, w) == if Reached(p, w, r) then cell else At(a, p, w)
  }

  lemma FilledNextCell(a: seq<Cell>, b: seq<Cell>, w: nat, h: nat, x1: nat, x: nat, y: nat, cell: Cell)
    requires Filled(a, b, w, h, Rect(x1, y, x - 1, y), cell)
    requires x1 <= x <= w && 0 < w && OnScreen(Landing(x, y, w), w, h)
    ensures IndexFor(x, y, w) < |b|
    ensures var c := b[IndexFor(x, y, w) := cell];
      Filled(a, c, w, h, Rect(x1, y, x, y), cell) && (c != a <==> b != a || c != b)
  {
    var to := Landing(x, y, w);
    LandingIndex(x, y, w);
    AtUpdated(b, w, h, to, cell);
    var c := b[IndexFor(x, y, w) := cell];
    OverwrittenTwice(a, b, c, cell);
    forall p | OnScreen(p, w, h)
      ensures At(c, p, w) == if Reached(p, w, Rect(x1, y, x, y)) then cell else At(a, p, w)
    {
      assert Reached(p, w, Rect(x1, y, x, y)) <==> Reached(p, w, Rect(x1, y, x - 1, y)) || p == to;
    }
  }

  /** A write that lands outside the vector reaches no cell of the screen. */
  lemma FilledOutside(a: seq<Cell>, b: seq<Cell>, w: nat, h: nat, x1: nat, x: nat, y: nat, cell: Cell)
    requires Filled(a, b, w, h, Rect(x1, y, x - 1, y), cell)
    requires x1 <= x <= w && 0 < w && !OnScreen(Landing(x, y, w), w, h)
    ensures IndexFor(x, y, w) >= |b| && Filled(a, b, w, h, Rect(x1, y, x, y), cell)
  {
    var to := Landing(x, y, w);
    LandingIndex(x, y, w);
    IndexInside(to.x, to.y, w, h);
    forall p | OnScreen(p, w, h) ensures Reached(p, w, Rect(x1, y, x, y)) <==> Reached(p, w, Rect(x1, y, x - 1, y)) {
      assert p != to;
    }
  }

  lemma FilledNextRow(a: seq<Cell>, b: seq<Cell>, c: seq<Cell>, w: nat, h: nat, x1: nat, x2: nat, y1: nat, y: nat, cell: Cell)
    requires y1 <= y && Filled(a, b, w, h, Rect(x1, y1, x2, y - 1), cell) && Filled(b, c, w, h, Rect(x1, y, x2, y), cell)
    ensures Filled(a, c, w, h, Rect(x1, y1, x2, y), cell) && (c != a <==> b != a || c != b)
  {
    OverwrittenTwice(a, b, c, cell);
  }

  /** `b` is `a` with the cells of `o` drawn over it. */
  ghost predicate Over(a: seq<Cell>, b: seq<Cell>, w: nat, h: nat, o: Cells) {
    && |a| == |b| == IndexFor(0, h, w)
    && forall p {:trigger At(b, p, w)} | OnScreen(p, w, h) :: At(b, p, w) == if p in o then o[p] else At(a, p, w)
  }

  lemma HoldsOver(a: seq<Cell>, b: seq<Cell>, v: Cells, w: nat, h: nat, o: Cells)
    requires Holds(a, v, w, h) && Over(a, b, w, h, o) && forall p | p in o :: OnScreen(p, w, h)
    ensures Holds(b, v + o, w, h) && (b != a <==> v + o != v)
  {
    HoldsInjective(a, b, v, v + o, w, h);
  }

  lemma FilledOver(a: seq<Cell>, b: seq<Cell>, w: nat, h: nat, r: Rect, ch: char, attr: int)
    requires Filled(a, b, w, h, r, Cell(ch, attr, true))
    ensures Over(a, b, w, h, FillUnclamped(w, h, r, ch, attr))
  {
  }

  lemma FillAgrees(w: nat, h: nat, r: Rect, ch: char, attr: int)
    requires r.x2 < w
    ensures FillUnclamped(w, h, r, ch, attr) == Fill(w, h, r, ch, attr)
  {
  }

  /** A place is compared with what it held at the start as long as it was not written. */
  lemma ChangedFresh(a: seq<Cell>, b: seq<Cell>, i: nat, cell: Cell)
    requires |a| == |b| && i < |b| && b[i] == a[i]
    ensures b[i := cell] != a <==> b != a || b[i := cell] != b
  {
    var c := b[i := cell];
    if b != a {
      var j :| 0 <= j < |b| && b[j] != a[j];
      assert c[j] != a[j];
    }
    if c != b { assert c[i] != a[i]; }
  }

  // -------------------------------------------------------------------------------- text

  /** `b` is `a` with the first `n` letters drawn. */
  ghost predicate Wrote(a: seq<Cell>, b: seq<Cell>, w: nat, h: nat, x: int, y: int, text: string, n: nat, attr: int)
    requires n <= |text|
  {
    && |a| == |b| == IndexFor(0, h, w)
    && forall p {:trigger At(b, p, w)} | OnScreen(p, w, h) ::
      At(b, p, w) == if p.y == y && 0 <= p.x - x < n then Cell(text[p.x - x], attr, true) else At(a, p, w)
  }

  lemma WroteNext(a: seq<Cell>, b: seq<Cell>, w: nat, h: nat, x: int, y: nat, text: string, n: nat, attr: int)
    requires n < |text| && Wrote(a, b, w, h, x, y, text, n, attr) && OnScreen(Pos(x + n, y), w, h)
    ensures IndexFor(x + n, y, w) < |b|
    ensures var c := b[IndexFor(x + n, y, w) := Cell(text[n], attr, true)];
      Wrote(a, c, w, h, x, y, text, n + 1, attr) && (c != a <==> b != a || c != b)
  {
    AtUpdated(b, w, h, Pos(x + n, y), Cell(text[n], attr, true));
    assert At(b, Pos(x + n, y), w) == At(a, Pos(x + n, y), w);
    ChangedFresh(a, b, IndexFor(x + n, y, w), Cell(text[n], attr, true));
  }

  lemma WroteOver(a: seq<Cell>, b: seq<Cell>, w: nat, h: nat, x: int, y: int, text: string, n: nat, attr: int)
    requires n <= |text| && Wrote(a, b, w, h, x, y, text, n, attr) && (n == |text| || x + n >= w)
    ensures Over(a, b, w, h, Text(w, h, x, y, text, attr))
  {
  }

  lemma WriteVerdict(m: Model, c: Command, o: Cells)
    requires c.Write? && m.HasGrid() && o == WriteCells(m.w, m.h, c)
    ensures ProjectWrite(m, c) == Verdict(m.(cells := m.cells + o), m.cells + o != m.cells)
  {
  }

  // ----------------------------------------------------------------------------- scrolling

  /** The cell that moves to `p`. */
  function Mover(p: Pos, down: bool): Pos {
    Pos(p.x, if down then p.y - 1 else p.y + 1)
  }

  /** Rows done before row `y`, in the order the loop takes them. */
  predicate Earlier(p: Pos, y: int, down: bool) {
    if down then p.y > y else p.y < y
  }

  /** `b` is `a` with the rows of `r` before `y` moved, and row `y` up to column `x`. */
  ghost predicate Moved(a: seq<Cell>, b: seq<Cell>, w: nat, h: nat, r: Rect, down: bool, y: int, x: int) {
    && |a| == |b| == IndexFor(0, h, w)
    && forall p {:trigger At(b, p, w)} | OnScreen(p, w, h) ::
      At(b, p, w) == if Inside(p, r) && (Earlier(p, y, down) || (p.y == y && p.x < x)) then At(a, Mover(p, down), w) else At(a, p, w)
  }

  ghost predicate RectOn(r: Rect, w: nat, h: nat) {
    0 <= r.x1 <= r.x2 < w && 0 <= r.y1 <= r.y2 < h
  }

  lemma MovedNext(a: seq<Cell>, b: seq<Cell>, w: nat, h: nat, r: Rect, down: bool, y: nat, x: nat)
    requires Moved(a, b, w, h, r, down, y, x) && RectOn(r, w, h)
    requires r.x1 <= x <= r.x2 && (if down then r.y1 < y <= r.y2 else r.y1 <= y < r.y2)
    ensures var from := Mover(Pos(x, y), down);
      && IndexFor(x, y, w) < |b| && IndexFor(from.x, from.y, w) < |b|
      && var c := b[IndexFor(x, y, w) := b[IndexFor(from.x, from.y, w)]];
      Moved(a, c, w, h, r, down, y, x + 1) && (c != a <==> b != a || c != b)
  {
    var to := Pos(x, y);
    var from := Mover(to, down);
    IndexInside(from.x, from.y, w, h);
    var cell := b[IndexFor(from.x, from.y, w)];
    assert At(b, from, w) == cell == At(a, from, w);
    AtUpdated(b, w, h, to, cell);
    assert At(b, to, w) == At(a, to, w);
    ChangedFresh(a, b, IndexFor(x, y, w), cell);
    var c := b[IndexFor(x, y, w) := cell];
    forall p | OnScreen(p, w, h)
      ensures At(c, p, w) == if Inside(p, r) && (Earlier(p, y, down) || (p.y == y && p.x < x + 1)) then At(a, Mover(p, down), w) else At(a, p, w)
    {
      assert At(b, p, w) == At(b, p, w);
    }
  }

  lemma MovedRow(a: seq<Cell>, b: seq<Cell>, w: nat, h: nat, r: Rect, down: bool, y: int, next: int)
    requires Moved(a, b, w, h, r, down, y, r.x2 + 1) && next == if down then y - 1 else y + 1
    ensures Moved(a, b, w, h, r, down, next, r.x1)
  {
  }

  lemma ScrolledHolds(a: seq<Cell>, b: seq<Cell>, c: seq<Cell>, v: Cells, w: nat, h: nat, r: Rect, down: bool, attr: int)
    requires RectOn(r, w, h) && Holds(a, v, w, h)
    requires Moved(a, b, w, h, r, down, (if down then r.y1 else r.y2), r.x1)
    requires Filled(b, c, w, h, FreeRow(r, down), Cell(' ', attr, true))
    ensures Holds(c, Scrolled(v, r, attr, down), w, h)
  {
    forall p | p in v ensures ScrolledCell(v, r, attr, down, p) == At(c, p, w) {
      var from := Mover(p, down);
      assert At(b, p, w) == if Inside(p, r) && Inside(from, r) then At(a, from, w) else At(a, p, w);
      assert Reached(p, w, FreeRow(r, down)) <==> Inside(p, r) && !Inside(from, r);
      assert At(c, p, w) == if Reached(p, w, FreeRow(r, down)) then Cell(' ', attr, true) else At(b, p, w);
    }
  }

  function FreeRow(r: Rect, down: bool): Rect {
    if down then Rect(r.x1, r.y1, r.x2, r.y1) else Rect(r.x1, r.y2, r.x2, r.y2)
  }

  /** The row that no row moves to is blanked; it had not been touched before. */
  lemma MovedThenBlanked(a: seq<Cell>, b: seq<Cell>, c: seq<Cell>, v: Cells, w: nat, h: nat, r: Rect, down: bool, attr: int)
    requires RectOn(r, w, h) && Holds(a, v, w, h)
    requires Moved(a, b, w, h, r, down, (if down then r.y1 else r.y2), r.x1)
    requires Filled(b, c, w, h, FreeRow(r, down), Cell(' ', attr, true))
    ensures Holds(c, Scrolled(v, r, attr, down), w, h)
    ensures (b != a || c != b) <==> Scrolled(v, r, attr, down) != v
  {
    var u := Scrolled(v, r, attr, down);
    ScrolledHolds(a, b, c, v, w, h, r, down, attr);
    HoldsInjective(a, c, v, u, w, h);
    if c == a {
      forall i | 0 <= i < |b| ensures b[i] == a[i] {
        IndexReaches(i, w, h);
        var p := Pos(i % w, i / w);
        assert At(b, p, w) == At(c, p, w) || At(b, p, w) == At(a, p, w);
      }
    }
  }

  lemma ScrollVerdict(m: Model, c: Command, u: Cells)
    requires c.Scroll? && m.HasGrid() && ModelOk(m)
    requires u == Scrolled(m.cells, BoxOf(m.w, m.h, c), c.attr % 256, c.down)
    ensures ProjectScroll(m, c) == Verdict(m.(cells := u), u != m.cells)
  {
  }

  // ------------------------------------------------------------------------------ clear line

  /** A stretch clipped at the right edge. */
  function Clip(r: Rect, w: nat): Rect {
    Rect(r.x1, r.y1, r.x1 + Min(r.x2 + 1 - r.x1, w - r.x1) - 1, r.y2)
  }

  lemma ClippedCleared(m: Model, c: Command, r: Rect)
    requires c.ClrLine? && m.HasGrid() && (c.count <= 0 ==> m.cursor.Some?)
    requires r == Clip(Stretch(m, c), m.w)
    ensures ProjectClrLine(m, c) == Drawn(m, Cleared(m.w, m.h, m.cells, r))
  {
    assert Cleared(m.w, m.h, m.cells, r) == Cleared(m.w, m.h, m.cells, Stretch(m, c));
  }

  lemma NothingCleared(m: Model, r: Rect)
    requires r.y2 < 0 || r.y1 >= m.h || r.x1 >= m.w || r.x2 < r.x1
    ensures Drawn(m, Cleared(m.w, m.h, m.cells, r)) == Verdict(m, false)
  {
    var o := Cleared(m.w, m.h, m.cells, r);
    assert forall p :: p !in o;
    assert m.cells + o == m.cells;
  }

  // ---------------------------------------------------------------------------- clear screen

  lemma BlankedAll(a: seq<Cell>, b: seq<Cell>, v: Cells, w: nat, h: nat, attr: int)
    requires Holds(a, v, w, h) && |a| == |b| && forall i | 0 <= i < |b| :: b[i] == Cell(' ', attr, true)
    ensures var o := BlankScreen(w, h, attr);
      Holds(b, v + o, w, h) && (b != a <==> v + o != v)
  {
    forall p | OnScreen(p, w, h) ensures At(b, p, w) == Cell(' ', attr, true) {
      IndexInside(p.x, p.y, w, h);
    }
    HoldsOver(a, b, v, w, h, BlankScreen(w, h, attr));
  }

  // ------------------------------------------------------------------------------------ boxes

  /** How far a box is drawn: the edges up to column `x`, the sides up to row `y`, the
      first `corners` corners. */
  datatype Stage = Stage(x: int, y: int, corners: int)

  function Corner(r: Rect, k: int): Pos {
    Pos(if k == 0 || k == 2 then r.x1 else r.x2, if k <= 1 then r.y1 else r.y2)
  }

  predicate IsCorner(p: Pos, r: Rect, n: int) {
    (n > 0 && p == Corner(r, 0)) || (n > 1 && p == Corner(r, 1)) || (n > 2 && p == Corner(r, 2)) || (n > 3 && p == Corner(r, 3))
  }

  function StageChar(p: Pos, r: Rect, s: Stage): char {
    if IsCorner(p, r, s.corners) then '+'
    else if (p.y == r.y1 || p.y == r.y2) && r.x1 < p.x < s.x then '-'
    else if (p.x == r.x1 || p.x == r.x2) && r.y1 < p.y < s.y then '|'
    else ' '
  }

  ghost predicate Staged(a: seq<Cell>, b: seq<Cell>, w: nat, h: nat, r: Rect, attr: int, s: Stage) {
    && |a| == |b| == IndexFor(0, h, w)
    && forall p {:trigger At(b, p, w)} | OnScreen(p, w, h) ::
      At(b, p, w) == if Inside(p, r) then Cell(StageChar(p, r, s), attr, true) else At(a, p, w)
  }

  lemma StagedFill(a: seq<Cell>, b: seq<Cell>, w: nat, h: nat, r: Rect, attr: int)
    requires RectOn(r, w, h) && Filled(a, b, w, h, r, Cell(' ', attr, true))
    ensures Staged(a, b, w, h, r, attr, Stage(r.x1 + 1, r.y1 + 1, 0))
  {
  }

  /** Two cells drawn alike carry the box one stage further. */
  lemma StagedPair(a: seq<Cell>, b: seq<Cell>, w: nat, h: nat, r: Rect, attr: int, s: Stage, t: Stage, p1: Pos, p2: Pos, ch: char)
    requires RectOn(r, w, h) && Staged(a, b, w, h, r, attr, s) && Inside(p1, r) && Inside(p2, r)
    requires forall p | Inside(p, r) :: StageChar(p, r, t) == if p == p1 || p == p2 then ch else StageChar(p, r, s)
    ensures IndexFor(p1.x, p1.y, w) < |b| && IndexFor(p2.x, p2.y, w) < |b|
    ensures Staged(a, b[IndexFor(p1.x, p1.y, w) := Cell(ch, attr, true)][IndexFor(p2.x, p2.y, w) := Cell(ch, attr, true)], w, h, r, attr, t)
  {
    AtUpdated(b, w, h, p1, Cell(ch, attr, true));
    AtUpdated(b[IndexFor(p1.x, p1.y, w) := Cell(ch, attr, true)], w, h, p2, Cell(ch, attr, true));
  }

  /** The finished frame with a title over its upper edge is the box. */
  lemma StagedBox(a: seq<Cell>, b: seq<Cell>, c: seq<Cell>, w: nat, h: nat, r: Rect, attr: int, title: string)
    requires RectOn(r, w, h) && Staged(a, b, w, h, r, attr, Stage(Max(r.x2, r.x1 + 1), Max(r.y2, r.y1 + 1), 4))
    requires Over(b, c, w, h, Text(w, h, TitleStart(r, title), r.y1, Clipped(r, title), attr))
    ensures Over(a, c, w, h, Box(w, h, r, attr, title))
  {
    forall p | OnScreen(p, w, h)
      ensures At(c, p, w) == if p in Box(w, h, r, attr, title) then Box(w, h, r, attr, title)[p] else At(a, p, w)
    {
      assert At(c, p, w) == At(c, p, w) && At(b, p, w) == At(b, p, w);
      if Inside(p, r) { FrameFinished(p, r); }
    }
  }

  lemma FrameFinished(p: Pos, r: Rect)
    requires Inside(p, r)
    ensures StageChar(p, r, Stage(Max(r.x2, r.x1 + 1), Max(r.y2, r.y1 + 1), 4)) == FrameChar(p, r)
  {
  }

  lemma Merged(v: Cells, right: Cells, lower: Cells)
    ensures v + (right + lower) == v + right + lower
    ensures v + map[] == v && v + right + map[] == v + right
  {
  }

  lemma BoxVerdict(m: Model, c: Command, r: Rect, box: Cells)
    requires c.PutBox? && m.HasGrid() && r == BoxOf(m.w, m.h, c)
    requires box == BoxCells(m.w, m.h, c)
    ensures ProjectBox(m, c) == Verdict(m.(cells := if c.shadow then m.cells + box + ModelShadow(m.w, m.h, r) else m.cells + box), true)
  {
  }

  /** A value the program keeps with a flag saying whether it is known is an option here. */
  class MacroScreenModel {
    var seeded: bool
    var cursor: Option<Pos>
    var line: Option<int>
    var col: Option<int>
    var brain: Option<bool>
    var marquee: Option<(int, string)>
    var screenWidth: nat
    var screenHeight: nat
    var cells: seq<Cell>
    ghost var seen: Cells

    ghost predicate Valid()
      reads this
    {
      Holds(cells, seen, screenWidth, screenHeight)
    }

    /** What this object knows. */
    ghost function Value(): (m: Model)
      reads this
      ensures Valid() ==> ModelOk(m)
    {
      Model(seeded, screenWidth, screenHeight, seen, cursor, line, col, brain, marquee)
    }

    constructor ()
      ensures Valid() && Value() == UNSEEDED
    {
      seeded, cursor, line, col, brain, marquee := false, None, None, None, None, None;
      screenWidth, screenHeight, cells, seen := 0, 0, [], map[];
    }

    method SeedFromRuntime(w: int, h: int, position: Option<Pos>)
      requires Valid()
      modifies this
      ensures Valid() && Value() == Seeded(old(Value()), Max(0, w), Max(0, h), position)
      ensures cursor == (if position.Some? then position else old(cursor)) && forall i | 0 <= i < |cells| :: !cells[i].known
    {
      screenWidth, screenHeight := Max(0, w), Max(0, h);
      cells := BlankCells(screenWidth, screenHeight);
      seen := map p | p in Positions(screenWidth, screenHeight) :: BLANK;
      cursor := if position.Some? then position else cursor;
      seeded := true;
    }

    method InvalidateAfterRenderFailure()
      modifies this
      ensures Valid() && Value() == UNSEEDED
    {
      seeded, cursor, line, col, brain, marquee := false, None, None, None, None, None;
      screenWidth, screenHeight, cells, seen := 0, 0, [], map[];
    }

    predicate HasGrid()
      reads this
      ensures Valid() ==> HasGrid() == (screenWidth > 0 && screenHeight > 0)
    {
      IndexIsProduct(0, screenHeight, screenWidth);
      screenWidth > 0 && screenHeight > 0 && |cells| == screenWidth * screenHeight
    }

    /** A column equal to the width is the first column of the next row. */
    method WriteCell(x: nat, y: nat, ch: char, attr: int) returns (changed: bool)
      requires IndexFor(x, y, screenWidth) < |cells|
      modifies this`cells
      ensures cells == old(cells)[IndexFor(x, y, screenWidth) := Cell(ch, attr, true)]
      ensures changed == (cells != old(cells))
    {
      var i := IndexFor(x, y, screenWidth);
      var cell := cells[i];
      changed := !cell.known || cell.ch != ch || cell.attr != attr;
      cells := cells[i := Cell(ch, attr, true)];
      assert cells[i] == Cell(ch, attr, true);
    }

    method CopyCell(toX: nat, toY: nat, fromX: nat, fromY: nat) returns (changed: bool)
      requires IndexFor(toX, toY, screenWidth) < |cells| && IndexFor(fromX, fromY, screenWidth) < |cells|
      modifies this`cells
      ensures cells == old(cells)[IndexFor(toX, toY, screenWidth) := old(cells)[IndexFor(fromX, fromY, screenWidth)]]
      ensures changed == (cells != old(cells))
    {
      var i := IndexFor(toX, toY, screenWidth);
      var to, from := cells[i], cells[IndexFor(fromX, fromY, screenWidth)];
      changed := to.known != from.known || to.ch != from.ch || to.attr != from.attr;
      cells := cells[i := from];
      assert cells[i] == from;
    }

    /** One write of `fillRect`. */
    method TryCell(x1: nat, x: nat, y: nat, ch: char, attr: int, ghost start: seq<Cell>) returns (changed: bool, inside: bool)
      requires x1 <= x <= screenWidth && 0 < screenWidth
      requires Filled(start, cells, screenWidth, screenHeight, Rect(x1, y, x - 1, y), Cell(ch, attr, true))
      modifies this`cells
      ensures Filled(start, cells, screenWidth, screenHeight, Rect(x1, y, x, y), Cell(ch, attr, true))
      ensures inside == (Landing(x, y, screenWidth).y < screenHeight)
      ensures cells != start <==> old(cells) != start || changed
    {
      LandingInside(x, y, screenWidth, screenHeight);
      inside := IndexFor(x, y, screenWidth) < |cells|;
      if !inside {
        FilledOutside(start, cells, screenWidth, screenHeight, x1, x, y, Cell(ch, attr, true));
        return false, false;
      }
      FilledNextCell(start, cells, screenWidth, screenHeight, x1, x, y, Cell(ch, attr, true));
      changed := WriteCell(x, y, ch, attr);
    }

    /** The inner loop of `fillRect`: one row. `inside` says whether every write stayed in the
        vector; one that does not is left out here. */
    method FillRow(y: nat, x1: nat, x2: nat, ch: char, attr: int) returns (changed: bool, inside: bool)
      requires |cells| == IndexFor(0, screenHeight, screenWidth) && x1 <= x2 <= screenWidth && 0 < screenWidth
      modifies this`cells
      ensures Filled(old(cells), cells, screenWidth, screenHeight, Rect(x1, y, x2, y), Cell(ch, attr, true))
      ensures changed == (cells != old(cells)) && inside == (Landing(x2, y, screenWidth).y < screenHeight)
    {
      changed, inside := false, true;
      var x := x1;
      while x <= x2
        invariant x1 <= x <= x2 + 1
        invariant Filled(old(cells), cells, screenWidth, screenHeight, Rect(x1, y, x - 1, y), Cell(ch, attr, true))
        invariant changed == (cells != old(cells))
        invariant inside == (x > x1 ==> Landing(x - 1, y, screenWidth).y < screenHeight)
      {
        var now, here := TryCell(x1, x, y, ch, attr, old(cells));
        changed, inside := now || changed, here && inside;
        x := x + 1;
      }
    }

    method FillRect(x1: nat, y1: nat, x2: nat, y2: nat, ch: char, attr: int) returns (changed: bool, inside: bool)
      requires |cells| == IndexFor(0, screenHeight, screenWidth) && x1 <= x2 <= screenWidth && y1 <= y2 && 0 < screenWidth
      modifies this`cells
      ensures Filled(old(cells), cells, screenWidth, screenHeight, Rect(x1, y1, x2, y2), Cell(ch, attr, true))
      ensures changed == (cells != old(cells)) && inside == (Landing(x2, y2, screenWidth).y < screenHeight)
    {
      changed, inside := false, true;
      var y := y1;
      while y <= y2
        invariant y1 <= y <= y2 + 1
        invariant inside == (y > y1 ==> Landing(x2, y - 1, screenWidth).y < screenHeight)
        invariant Filled(old(cells), cells, screenWidth, screenHeight, Rect(x1, y1, x2, y - 1), Cell(ch, attr, true))
        invariant changed == (cells != old(cells))
      {
        ghost var before := cells;
        var now, here := FillRow(y, x1, x2, ch, attr);
        FilledNextRow(old(cells), before, cells, screenWidth, screenHeight, x1, x2, y1, y, Cell(ch, attr, true));
        changed, inside := now || changed, here && inside;
        y := y + 1;
      }
    }

    /** `writeCell` along one row, starting at `x` and clipped to the screen. */
    method WriteText(x: int, y: int, text: string, attr: int) returns (changed: bool)
      requires |cells| == IndexFor(0, screenHeight, screenWidth)
      modifies this`cells
      ensures Over(old(cells), cells, screenWidth, screenHeight, Text(screenWidth, screenHeight, x, y, text, attr))
      ensures changed == (cells != old(cells))
    {
      if y < 0 || y >= screenHeight { return false; }
      changed := false;
      var i := 0;
      while i < |text| && x + i < screenWidth
        invariant i <= |text| && Wrote(old(cells), cells, screenWidth, screenHeight, x, y, text, i, attr)
        invariant changed == (cells != old(cells))
        decreases |text| - i
      {
        if x + i >= 0 {
          WroteNext(old(cells), cells, screenWidth, screenHeight, x, y, text, i, attr);
          var now := WriteCell(x + i, y, text[i], attr);
          changed := now || changed;
        }
        i := i + 1;
      }
      WroteOver(old(cells), cells, screenWidth, screenHeight, x, y, text, i, attr);
    }

    method ApplyWrite(c: Command) returns (changed: bool)
      requires Valid() && c.Write?
      modifies this`cells, this`seen
      ensures Valid() && Verdict(Value(), changed) == ProjectWrite(old(Value()), c)
    {
      if !HasGrid() { return true; }
      var attr := Attribute(c.background, c.foreground);
      changed := WriteText(c.x - 1, c.y - 1, c.text, attr);
      ghost var o := WriteCells(screenWidth, screenHeight, c);
      HoldsOver(old(cells), cells, seen, screenWidth, screenHeight, o);
      WriteVerdict(Value(), c, o);
      seen := seen + o;
    }

    method ApplyClearScreen(c: Command) returns (changed: bool)
      requires Valid() && c.ClearScreen?
      modifies this`cells, this`seen, this`cursor, this`line, this`col
      ensures Valid() && Verdict(Value(), changed) == ProjectClearScreen(old(Value()), c)
    {
      changed := true;
      if HasGrid() {
        changed := BlankGrid(c.attr % 256);
      }
      cursor, line, col := Some(Pos(1, 1)), None, None;
    }

    method BlankGrid(attr: int) returns (changed: bool)
      requires Valid() && screenWidth > 0
      modifies this`cells, this`seen
      ensures Valid() && changed == (seen != old(seen))
      ensures seen == old(seen) + BlankScreen(screenWidth, screenHeight, attr)
    {
      changed := BlankAll(attr);
      BlankedAll(old(cells), cells, seen, screenWidth, screenHeight, attr);
      seen := seen + BlankScreen(screenWidth, screenHeight, attr);
    }

    /** The loop of `applyClearScreen`: cell by cell through the vector. */
    method BlankAll(attr: int) returns (changed: bool)
      requires |cells| == IndexFor(0, screenHeight, screenWidth) && screenWidth > 0
      modifies this`cells
      ensures |cells| == |old(cells)| && changed == (cells != old(cells))
      ensures forall i | 0 <= i < |cells| :: cells[i] == Cell(' ', attr, true)
    {
      changed := false;
      var i := 0;
      while i < |cells|
        invariant i <= |cells| == |old(cells)|
        invariant forall k | 0 <= k < |cells| :: cells[k] == if k < i then Cell(' ', attr, true) else old(cells)[k]
        invariant changed == (cells != old(cells))
      {
        IndexReaches(i, screenWidth, screenHeight);
        ChangedFresh(old(cells), cells, i, Cell(' ', attr, true));
        var now := WriteCell(i % screenWidth, i / screenWidth, ' ', attr);
        changed := now || changed;
        i := i + 1;
      }
    }

    /** One row of the copying loops of `applyScroll`. */
    method MoveRow(r: Rect, down: bool, y: nat, ghost start: seq<Cell>) returns (changed: bool)
      requires RectOn(r, screenWidth, screenHeight) && (if down then r.y1 < y <= r.y2 else r.y1 <= y < r.y2)
      requires Moved(start, cells, screenWidth, screenHeight, r, down, y, r.x1)
      modifies this`cells
      ensures Moved(start, cells, screenWidth, screenHeight, r, down, y, r.x2 + 1)
      ensures cells != start <==> old(cells) != start || changed
    {
      changed := false;
      var x := r.x1;
      while x <= r.x2
        invariant r.x1 <= x <= r.x2 + 1
        invariant Moved(start, cells, screenWidth, screenHeight, r, down, y, x)
        invariant cells != start <==> old(cells) != start || changed
      {
        MovedNext(start, cells, screenWidth, screenHeight, r, down, y, x);
        var from := Mover(Pos(x, y), down);
        var now := CopyCell(x, y, from.x, from.y);
        changed := now || changed;
        x := x + 1;
      }
    }

    /** The copying loops of `applyScroll`: downwards from the last row, or upwards from
        the first. */
    method MoveRows(r: Rect, down: bool) returns (changed: bool)
      requires |cells| == IndexFor(0, screenHeight, screenWidth) && RectOn(r, screenWidth, screenHeight)
      modifies this`cells
      ensures Moved(old(cells), cells, screenWidth, screenHeight, r, down, if down then r.y1 else r.y2, r.x1)
      ensures changed == (cells != old(cells))
    {
      changed := false;
      var y := if down then r.y2 else r.y1;
      var last := if down then r.y1 else r.y2;
      while y != last
        invariant r.y1 <= y <= r.y2
        invariant Moved(old(cells), cells, screenWidth, screenHeight, r, down, y, r.x1)
        invariant changed == (cells != old(cells))
        decreases if down then y - last else last - y
      {
        var now := MoveRow(r, down, y, old(cells));
        var next := if down then y - 1 else y + 1;
        MovedRow(old(cells), cells, screenWidth, screenHeight, r, down, y, next);
        changed := now || changed;
        y := next;
      }
    }

    /** `applyScroll` on a rectangle of the screen: move the rows, then blank the free one. */
    method ScrollRect(r: Rect, attr: int, down: bool) returns (changed: bool)
      requires Valid() && RectOn(r, screenWidth, screenHeight)
      modifies this`cells
      ensures Holds(cells, Scrolled(seen, r, attr, down), screenWidth, screenHeight)
      ensures changed == (Scrolled(seen, r, attr, down) != seen)
    {
      var moved := MoveRows(r, down);
      ghost var between := cells;
      var free := if down then r.y1 else r.y2;
      var blanked, _ := FillRect(r.x1, free, r.x2, free, ' ', attr);
      changed := blanked || moved;
      MovedThenBlanked(old(cells), between, cells, seen, screenWidth, screenHeight, r, down, attr);
    }

    method ApplyScroll(c: Command) returns (changed: bool)
      requires Valid() && c.Scroll?
      modifies this`cells, this`seen
      ensures Valid() && Verdict(Value(), changed) == ProjectScroll(old(Value()), c)
    {
      if !HasGrid() { return true; }
      var r := BoxOf(screenWidth, screenHeight, c);
      changed := ScrollRect(r, c.attr % 256, c.down);
      ghost var u := Scrolled(seen, r, c.attr % 256, c.down);
      ScrollVerdict(Value(), c, u);
      seen := u;
    }

    /** `applyClrLine`, once the stretch is known: blank it in the colour of the row's
        first cell. */
    method BlankStretch(x: nat, y: nat, count: nat) returns (changed: bool)
      requires Valid() && count > 0 && x + count <= screenWidth && y < screenHeight
      modifies this`cells, this`seen
      ensures Valid() && Verdict(Value(), changed)
                      == Drawn(old(Value()), Cleared(screenWidth, screenHeight, old(seen), Rect(x, y, x + count - 1, y)))
    {
      IndexInside(0, y, screenWidth, screenHeight);
      var head := cells[IndexFor(0, y, screenWidth)];
      assert At(cells, Pos(0, y), screenWidth) == head && Pos(0, y) in seen;
      var attr := if head.known then head.attr else 7;
      var blanked, _ := FillRect(x, y, x + count - 1, y, ' ', attr);
      changed := blanked;
      ghost var r := Rect(x, y, x + count - 1, y);
      FilledOver(old(cells), cells, screenWidth, screenHeight, r, ' ', attr);
      FillAgrees(screenWidth, screenHeight, r, ' ', attr);
      HoldsOver(old(cells), cells, seen, screenWidth, screenHeight, Cleared(screenWidth, screenHeight, seen, r));
      seen := seen + Cleared(screenWidth, screenHeight, seen, r);
    }

    method ApplyClrLine(c: Command) returns (changed: bool)
      requires Valid() && c.ClrLine?
      modifies this`cells, this`seen
      ensures Valid() && Verdict(Value(), changed) == ProjectClrLine(old(Value()), c)
    {
      if !HasGrid() || (c.count <= 0 && cursor.None?) { return true; }
      var x, y, count := c.column - 1, c.row - 1, c.count;
      if c.count <= 0 {
        x, y, count := 0, Clamp(cursor.value.y - 1, 0, screenHeight - 1), screenWidth;
      }
      if x < 0 { x, count := 0, count + x; }
      ghost var r := Stretch(Value(), c);
      assert r == Rect(x, y, x + count - 1, y);
      if y < 0 || y >= screenHeight || x >= screenWidth || count <= 0 {
        NothingCleared(Value(), r);
        return false;
      }
      count := Min(count, screenWidth - x);
      ClippedCleared(Value(), c, Rect(x, y, x + count - 1, y));
      changed := BlankStretch(x, y, count);
    }

    /** The upper and lower edge between the corners. */
    method DrawEdges(r: Rect, attr: int, ghost start: seq<Cell>)
      requires RectOn(r, screenWidth, screenHeight)
      requires Staged(start, cells, screenWidth, screenHeight, r, attr, Stage(r.x1 + 1, r.y1 + 1, 0))
      modifies this`cells
      ensures Staged(start, cells, screenWidth, screenHeight, r, attr, Stage(Max(r.x2, r.x1 + 1), r.y1 + 1, 0))
    {
      var x := r.x1 + 1;
      while x < r.x2
        invariant r.x1 < x <= Max(r.x2, r.x1 + 1)
        invariant Staged(start, cells, screenWidth, screenHeight, r, attr, Stage(x, r.y1 + 1, 0))
      {
        StagedPair(start, cells, screenWidth, screenHeight, r, attr, Stage(x, r.y1 + 1, 0), Stage(x + 1, r.y1 + 1, 0), Pos(x, r.y1), Pos(x, r.y2), '-');
        var upper := WriteCell(x, r.y1, '-', attr);
        var lower := WriteCell(x, r.y2, '-', attr);
        x := x + 1;
      }
    }

    /** The left and right side between the corners. */
    method DrawSides(r: Rect, attr: int, ghost start: seq<Cell>)
      requires RectOn(r, screenWidth, screenHeight)
      requires Staged(start, cells, screenWidth, screenHeight, r, attr, Stage(Max(r.x2, r.x1 + 1), r.y1 + 1, 0))
      modifies this`cells
      ensures Staged(start, cells, screenWidth, screenHeight, r, attr, Stage(Max(r.x2, r.x1 + 1), Max(r.y2, r.y1 + 1), 0))
    {
      ghost var x := Max(r.x2, r.x1 + 1);
      var y := r.y1 + 1;
      while y < r.y2
        invariant r.y1 < y <= Max(r.y2, r.y1 + 1)
        invariant Staged(start, cells, screenWidth, screenHeight, r, attr, Stage(x, y, 0))
      {
        StagedPair(start, cells, screenWidth, screenHeight, r, attr, Stage(x, y, 0), Stage(x, y + 1, 0), Pos(r.x1, y), Pos(r.x2, y), '|');
        var left := WriteCell(r.x1, y, '|', attr);
        var right := WriteCell(r.x2, y, '|', attr);
        y := y + 1;
      }
    }

    /** The four corners. The first was blank, so drawing it is a change. */
    method DrawCorners(r: Rect, attr: int, ghost start: seq<Cell>) returns (changed: bool)
      requires RectOn(r, screenWidth, screenHeight)
      requires Staged(start, cells, screenWidth, screenHeight, r, attr, Stage(Max(r.x2, r.x1 + 1), Max(r.y2, r.y1 + 1), 0))
      modifies this`cells
      ensures Staged(start, cells, screenWidth, screenHeight, r, attr, Stage(Max(r.x2, r.x1 + 1), Max(r.y2, r.y1 + 1), 4))
      ensures changed
    {
      ghost var s := Stage(Max(r.x2, r.x1 + 1), Max(r.y2, r.y1 + 1), 0);
      assert At(cells, Pos(r.x1, r.y1), screenWidth) == Cell(' ', attr, true);
      StagedPair(start, cells, screenWidth, screenHeight, r, attr, s, s.(corners := 2), Pos(r.x1, r.y1), Pos(r.x2, r.y1), '+');
      changed := WriteCell(r.x1, r.y1, '+', attr);
      var upper := WriteCell(r.x2, r.y1, '+', attr);
      StagedPair(start, cells, screenWidth, screenHeight, r, attr, s.(corners := 2), s.(corners := 4), Pos(r.x1, r.y2), Pos(r.x2, r.y2), '+');
      var left := WriteCell(r.x1, r.y2, '+', attr);
      var right := WriteCell(r.x2, r.y2, '+', attr);
      changed := right || left || upper || changed;
    }

    /** `applyPutBox` up to the shadow. */
    method DrawBox(r: Rect, attr: int, title: string) returns (changed: bool)
      requires Valid() && RectOn(r, screenWidth, screenHeight)
      modifies this`cells
      ensures Over(old(cells), cells, screenWidth, screenHeight, Box(screenWidth, screenHeight, r, attr, title)) && changed
    {
      var blanked, _ := FillRect(r.x1, r.y1, r.x2, r.y2, ' ', attr);
      StagedFill(old(cells), cells, screenWidth, screenHeight, r, attr);
      DrawEdges(r, attr, old(cells));
      DrawSides(r, attr, old(cells));
      var framed := DrawCorners(r, attr, old(cells));
      ghost var frame := cells;
      var titled := WriteText(TitleStart(r, title), r.y1, Clipped(r, title), attr);
      StagedBox(old(cells), frame, cells, screenWidth, screenHeight, r, attr, title);
      changed := titled || framed || blanked;
    }

    /** One side of the shadow, not clamped. */
    method ShadeRect(r: Rect) returns (inside: bool)
      requires Valid() && 0 <= r.x1 <= r.x2 <= screenWidth && 0 <= r.y1 <= r.y2 && screenWidth > 0
      modifies this`cells, this`seen
      ensures Valid() && seen == old(seen) + FillUnclamped(screenWidth, screenHeight, r, ' ', 8)
      ensures inside == (Landing(r.x2, r.y2, screenWidth).y < screenHeight)
    {
      var shaded;
      shaded, inside := FillRect(r.x1, r.y1, r.x2, r.y2, ' ', 8);
      ghost var o := FillUnclamped(screenWidth, screenHeight, r, ' ', 8);
      FilledOver(old(cells), cells, screenWidth, screenHeight, r, ' ', 8);
      HoldsOver(old(cells), cells, seen, screenWidth, screenHeight, o);
      seen := seen + o;
    }

    method DrawShadow(r: Rect) returns (inside: bool)
      requires Valid() && RectOn(r, screenWidth, screenHeight)
      modifies this`cells, this`seen
      ensures Valid() && seen == old(seen) + ModelShadow(screenWidth, screenHeight, r)
      ensures inside == ShadowStaysInside(screenWidth, screenHeight, r)
    {
      ghost var right := if r.x2 + 1 < screenWidth then FillUnclamped(screenWidth, screenHeight, RightShadow(r), ' ', 8) else map[];
      ghost var lower := if r.y2 + 1 < screenHeight then FillUnclamped(screenWidth, screenHeight, LowerShadow(r), ' ', 8) else map[];
      Merged(seen, right, lower);
      inside := true;
      if r.x2 + 1 < screenWidth { inside := ShadeRect(RightShadow(r)); }
      if r.y2 + 1 < screenHeight {
        var below := ShadeRect(LowerShadow(r));
        inside := below && inside;
      }
    }

    /** Where the shadow leaves the vector, as `inside` tells, the program writes outside its
        memory. */
    method ApplyPutBox(c: Command) returns (changed: bool, inside: bool)
      requires Valid() && c.PutBox?
      modifies this`cells, this`seen
      ensures Valid() && Verdict(Value(), changed) == ProjectBox(old(Value()), c)
      ensures inside == Defined(old(Value()), c)
    {
      if !HasGrid() { return true, true; }
      var r := BoxOf(screenWidth, screenHeight, c);
      var attr := Attribute(c.background, c.foreground);
      changed := DrawBox(r, attr, c.title);
      ghost var box := BoxCells(screenWidth, screenHeight, c);
      HoldsOver(old(cells), cells, seen, screenWidth, screenHeight, box);
      BoxVerdict(Value(), c, r, box);
      seen := seen + box;
      inside := true;
      if c.shadow { inside := DrawShadow(r); }
    }

    method ShouldRenderAndProject(c: Command) returns (render: bool, inside: bool)
      requires Valid()
      modifies this
      ensures Valid() && Verdict(Value(), render) == Project(old(Value()), c)
      ensures inside == Defined(old(Value()), c)
    {
      inside := true;
      match c
      case Write(_, _, _, _, _) => render := ApplyWrite(c);
      case PutBox(_, _, _, _, _, _, _, _) => render, inside := ApplyPutBox(c);
      case ClrLine(_, _, _) => render := ApplyClrLine(c);
      case Scroll(_, _, _, _, _, _) => render := ApplyScroll(c);
      case ClearScreen(_) => render := ApplyClearScreen(c);
      case Gotoxy(x, y) =>
        var to := Some(Pos(if screenWidth > 0 then Clamp(x, 1, screenWidth) else x, if screenHeight > 0 then Clamp(y, 1, screenHeight) else y));
        render := cursor != to;
        cursor := to;
      case PutLineNum(n) =>
        render := line != Some(n);
        line := Some(n);
      case PutColNum(n) =>
        render := col != Some(n);
        col := Some(n);
      case Marquee(kind, text) =>
        render := marquee != Some((kind, text));
        marquee := Some((kind, text));
      case Brain(enabled) =>
        render := brain != Some(enabled);
        brain := Some(enabled);
      case _ => render := true;
    }
  }
}
