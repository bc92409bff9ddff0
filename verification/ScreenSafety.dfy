/** Leaving out the commands that the shadow screen calls redundant changes no cell of the
    real screen, for exactly the commands named here. */
module ScreenSafety {
  import opened Basics
  import opened ScreenCells
  import opened ScreenModel

  /** What is relied on besides the cells: that the shadow screen knows the cursor the
      renderer will use, and that no saved box was kept by a skipped clear-screen. */
  datatype Trust = Trust(cursor: bool, boxes: bool)

  ghost predicate CellsAgree(v: Cells, u: Cells) {
    v.Keys == u.Keys && forall p | p in v && v[p].known :: u[p] == v[p]
  }

  /** Whatever the shadow screen claims to know holds on the screen. */
  ghost predicate Agrees(m: Model, g: Screen, t: Trust) {
    && ModelOk(m) && ScreenOk(g)
    && ((m.w == 0 && m.h == 0) || (m.w == g.w && m.h == g.h))
    && (m.HasGrid() ==> CellsAgree(m.cells, g.cells))
    && (m.line.Some? ==> g.line == m.line)
    && (m.col.Some? ==> g.col == m.col)
    && (t.cursor && m.cursor.Some? && g.w > 0 && g.h > 0 ==>
          g.cursor == ClampedCursor(m.cursor.value.x, m.cursor.value.y, g.w, g.h))
  }

  // ------------------------------------------------------------------- which commands are safe

  predicate NoArguments(c: Command)
    requires c.ClrLine?
  {
    c.column == 0 && c.row == 0 && c.count == 0
  }

  predicate Known(m: Model, p: Pos) { p in m.cells && m.cells[p].known }

  /** The shadow of a box: room for it on both sides or on neither. With room only below,
      the shadow screen shades a stray cell at the start of the next row but one, and at the
      right edge leaves out a cell that the renderer shades. */
  predicate ShadowTracked(m: Model, r: Rect) {
    || (r.x2 + 1 < m.w && r.y2 + 1 < m.h)
    || (r.x2 + 1 >= m.w && r.y2 + 1 >= m.h)
    || (&& r.x2 + 1 >= m.w && r.y2 + 2 < m.h
        && Known(m, Pos(0, r.y2 + 2)) && m.cells[Pos(0, r.y2 + 2)] == SHADE
        && (r.x1 == r.x2 && Known(m, Pos(m.w - 1, r.y2 + 1)) ==> m.cells[Pos(m.w - 1, r.y2 + 1)] == SHADE))
  }

  const SHADE := Cell(' ', 8, true)

  /** Some cell of the shadow screen in `r` is not blank in the colour of the row's head. */
  predicate SomeToBlank(m: Model, r: Rect) {
    exists q | q in m.cells && Inside(q, r) :: m.cells[q] != Cell(' ', HeadAttr(m.cells, r.y1), true)
  }

  /** A cell the renderer blanks for a counted clear-line: the colour is known, and if the
      shadow screen does not blank it too (it shortens a stretch that starts left of the
      screen, the renderer moves it) it is known to be blank, or unknown while the shadow
      screen has something to blank and so has the command rendered. */
  predicate BlankTracked(m: Model, c: Command, p: Pos)
    requires c.ClrLine?
  {
    && Known(m, Pos(0, c.row - 1))
    && (Inside(p, CountedStretch(c))
        || (if Known(m, p) then m.cells[p] == Cell(' ', m.cells[Pos(0, c.row - 1)].attr, true) else SomeToBlank(m, CountedStretch(c))))
  }

  predicate CountedTracked(m: Model, c: Command)
    requires c.ClrLine? && m.HasGrid() && !NoArguments(c)
  {
    forall p | p in m.cells && Inside(p, ClearedStretch(m.w, m.h, Pos(0, 0), c)) :: BlankTracked(m, c, p)
  }

  /** The cell is blank in the colour of its row's head. */
  predicate IsBlank(m: Model, p: Pos)
    requires p in m.cells
  {
    m.cells[p] == Cell(' ', HeadAttr(m.cells, p.y), true)
  }

  /** A clear-line without arguments. If the shadow screen knows the row it needs the colour;
      if it may be wrong about the row, nothing at all may be left to blank; if it knows no
      cursor, whatever it knows must already be blank. */
  predicate CursorLineTracked(m: Model, t: Trust)
    requires m.HasGrid()
  {
    if m.cursor.None? then forall p | p in m.cells && m.cells[p].known :: Known(m, Pos(0, p.y)) && IsBlank(m, p)
    else if t.cursor || m.h == 1 then Known(m, Pos(0, CursorRow(m).y1))
    else forall p | p in m.cells :: IsBlank(m, p)
  }

  predicate ClrLineTracked(m: Model, c: Command, t: Trust)
    requires c.ClrLine?
  {
    if !m.HasGrid() then true
    else if NoArguments(c) then CursorLineTracked(m, t)
    else if c.count <= 0 then m.cursor.None? || !SomeToBlank(m, CursorRow(m))
    else CountedTracked(m, c)
  }

  /** Every known cell under the number field that is drawn shows what is drawn; and an
      unknown one is allowed only if the command is rendered. */
  predicate FieldTracked(m: Model, o: Cells, rendered: bool) {
    forall p | p in o :: if Known(m, p) then m.cells[p] == o[p] else rendered
  }

  /** A number on the screen, given what the shadow screen knows of it. */
  predicate MayShow(known: Option<int>, shown: Option<int>) { known.Some? ==> shown == known }

  /** A line or column number, as it will be, and the other as it may be. */
  ghost predicate NumberTracked(m: Model, line: Option<int>, col: Option<int>, rendered: bool) {
    if m.HasGrid() then forall l, k | MayShow(line, l) && MayShow(col, k) :: FieldTracked(m, Numbers(m.w, m.h, l, k), rendered)
    else rendered || m.w > 0 || m.h > 0
  }

  /** The numbers that are drawn again when a box is closed. */
  function NumbersAgain(w: nat, h: nat, line: Option<int>, col: Option<int>): Cells {
    if line.Some? || col.Some? then Numbers(w, h, line, col) else map[]
  }

  /** Closing a box: every known cell shows the numbers, which are drawn again over what the
      box had covered, whatever they may be; so none is known if there may be no number. */
  ghost predicate KillTracked(m: Model) {
    forall l, k | MayShow(m.line, l) && MayShow(m.col, k) :: StillShows(m, NumbersAgain(m.w, m.h, l, k))
  }

  predicate StillShows(m: Model, o: Cells) {
    forall p | p in m.cells && m.cells[p].known :: p in o && m.cells[p] == o[p]
  }

  /** The commands that keep the shadow screen true: all but boxes with half a shadow,
      clear-line where colour or cursor is unknown or the stretches differ, numbers over
      other known cells or not rendered, and closing a box while any other cell is known. */
  ghost predicate Tracked(m: Model, c: Command, t: Trust) {
    match c
    case PutBox(_, _, _, _, _, _, _, shadow) => shadow && m.HasGrid() ==> ShadowTracked(m, BoxOf(m.w, m.h, c))
    case ClrLine(_, _, _) => ClrLineTracked(m, c, t)
    case PutLineNum(n) => NumberTracked(m, Some(n), m.col, m.line != Some(n))
    case PutColNum(n) => NumberTracked(m, m.line, Some(n), m.col != Some(n))
    case KillBox => KillTracked(m)
    case _ => true
  }

  function NextTrust(m: Model, c: Command, t: Trust): Trust
    requires ModelOk(m)
  {
    match c
    case ClearScreen(_) =>
      if Project(m, c).render then Trust(true, true) else Trust(t.cursor && m.cursor == Some(Pos(1, 1)), false)
    case Gotoxy(_, _) => t.(cursor := t.cursor || Project(m, c).render)
    case _ => t
  }

  /** The screen after a command that is rendered only if the shadow screen asks for it. */
  function Shown(m: Model, g: Screen, c: Command): Screen
    requires ModelOk(m) && ScreenOk(g)
  {
    if Project(m, c).render then Render(g, c) else g
  }

  /** The command is handled well on this screen: the shadow screen stays true, and if it
      is skipped, rendering it would not have changed a cell. */
  ghost predicate Safe(m: Model, g: Screen, c: Command, t: Trust)
    requires ModelOk(m) && ScreenOk(g)
  {
    && Agrees(Project(m, c).model, Shown(m, g, c), NextTrust(m, c, t))
    && (!Project(m, c).render ==> Render(g, c).cells == g.cells)
  }

  // ---------------------------------------------------------------------- cells drawn alike

  /** Drawing the same cells over both keeps them in agreement, and where it does not
      change the shadow screen it does not change the screen. */
  lemma DrawnAgree(v: Cells, u: Cells, o: Cells)
    requires CellsAgree(v, u) && o.Keys <= v.Keys && forall p | p in o :: o[p].known
    ensures CellsAgree(v + o, u + o) && (v + o == v ==> u + o == u)
  {
    if v + o == v {
      forall p | p in u ensures (u + o)[p] == u[p] {
        if p in o { assert (v + o)[p] == v[p]; }
      }
    }
  }

  /** Scrolling unknown cells keeps them unknown. */
  lemma ScrolledAgree(v: Cells, u: Cells, w: nat, h: nat, r: Rect, attr: int, down: bool)
    requires v.Keys == Positions(w, h) && CellsAgree(v, u) && 0 <= r.x1 <= r.x2 < w && 0 <= r.y1 <= r.y2 < h
    ensures CellsAgree(Scrolled(v, r, attr, down), Scrolled(u, r, attr, down))
  {
  }

  /** A scroll that changes nothing has the blanked row everywhere, so every cell it moves
      is known. */
  lemma StillScrollAgrees(v: Cells, u: Cells, w: nat, h: nat, r: Rect, attr: int, down: bool)
    requires v.Keys == Positions(w, h) && CellsAgree(v, u) && 0 <= r.x1 <= r.x2 < w && 0 <= r.y1 <= r.y2 < h
    requires Scrolled(v, r, attr, down) == v
    ensures Scrolled(u, r, attr, down) == u
  {
    StillAgree(v, u, w, h, r, attr, down);
  }

  lemma StillAgree(v: Cells, u: Cells, w: nat, h: nat, r: Rect, attr: int, down: bool)
    requires v.Keys == Positions(w, h) && CellsAgree(v, u) && 0 <= r.x1 <= r.x2 < w && 0 <= r.y1 <= r.y2 < h
    requires Still(v, r, attr, down)
    ensures Still(u, r, attr, down)
  {
    forall p | p in u ensures ScrolledCell(u, r, attr, down, p) == u[p] {
      if Inside(p, r) {
        StillScrollIsBlank(v, w, h, r, attr, down, p);
        var from := Pos(p.x, if down then p.y - 1 else p.y + 1);
        if Inside(from, r) { StillScrollIsBlank(v, w, h, r, attr, down, from); }
      }
    }
  }

  /** Scrolling moves every cell onto an equal one. */
  ghost predicate Still(v: Cells, r: Rect, attr: int, down: bool)
    requires forall p: Pos, q: Pos | p in v && q.x == p.x && Inside(q, r) :: q in v
  {
    forall p {:trigger ScrolledCell(v, r, attr, down, p)} | p in v :: ScrolledCell(v, r, attr, down, p) == v[p]
  }

  lemma {:induction false} StillScrollIsBlank(v: Cells, w: nat, h: nat, r: Rect, attr: int, down: bool, p: Pos)
    requires v.Keys == Positions(w, h) && 0 <= r.x1 <= r.x2 < w && 0 <= r.y1 <= r.y2 < h
    requires Still(v, r, attr, down) && Inside(p, r)
    ensures v[p] == Cell(' ', attr, true)
    decreases if down then p.y - r.y1 else r.y2 - p.y
  {
    assert v[p] == ScrolledCell(v, r, attr, down, p);
    var from := Pos(p.x, if down then p.y - 1 else p.y + 1);
    if Inside(from, r) { StillScrollIsBlank(v, w, h, r, attr, down, from); }
  }

  // -------------------------------------------------------------------------- each command

  /** A command that only draws cells is safe if the cells still agree. */
  lemma SafeByCells(m: Model, g: Screen, c: Command, t: Trust, v: Verdict, g1: Screen)
    requires Agrees(m, g, t) && m.HasGrid() && v == Project(m, c) && g1 == Render(g, c) && NextTrust(m, c, t) == t
    requires v.model == m.(cells := v.model.cells) && g1 == g.(cells := g1.cells, boxes := g1.boxes)
    requires CellsAgree(v.model.cells, g1.cells) && (!v.render ==> v.model.cells == m.cells && g1.cells == g.cells)
    ensures Safe(m, g, c, t)
  {
    RenderedOk(g, c);
    ProjectedOk(m, c);
  }

  lemma WriteSteps(m: Model, g: Screen, c: Command, o: Cells)
    requires c.Write? && ModelOk(m) && m.HasGrid() && ScreenOk(g) && g.w == m.w && g.h == m.h
    requires o == WriteCells(m.w, m.h, c)
    ensures Project(m, c) == Verdict(m.(cells := m.cells + o), m.cells + o != m.cells)
    ensures Render(g, c) == g.(cells := g.cells + o)
  {
  }

  lemma WriteSafe(m: Model, g: Screen, c: Command, t: Trust)
    requires c.Write? && Agrees(m, g, t)
    ensures Safe(m, g, c, t)
  {
    if m.HasGrid() {
      var o := WriteCells(m.w, m.h, c);
      WriteSteps(m, g, c, o);
      DrawnAgree(m.cells, g.cells, o);
      SafeByCells(m, g, c, t, Project(m, c), Render(g, c));
    } else {
      RenderedOk(g, c);
    }
  }

  lemma ScrollSafe(m: Model, g: Screen, c: Command, t: Trust)
    requires c.Scroll? && Agrees(m, g, t)
    ensures Safe(m, g, c, t)
  {
    RenderedOk(g, c);
    if m.HasGrid() {
      var r := BoxOf(m.w, m.h, c);
      ScrolledAgree(m.cells, g.cells, m.w, m.h, r, c.attr % 256, c.down);
      if !Project(m, c).render { StillScrollAgrees(m.cells, g.cells, m.w, m.h, r, c.attr % 256, c.down); }
    }
  }

  lemma ClearScreenSafe(m: Model, g: Screen, c: Command, t: Trust)
    requires c.ClearScreen? && Agrees(m, g, t)
    ensures Safe(m, g, c, t)
  {
    RenderedOk(g, c);
    if m.HasGrid() {
      DrawnAgree(m.cells, g.cells, BlankScreen(m.w, m.h, c.attr % 256));
    }
  }

  lemma ShadowsMatch(m: Model, r: Rect)
    requires 0 <= r.x1 <= r.x2 < m.w && 0 <= r.y1 <= r.y2 < m.h && ModelOk(m)
    requires (r.x2 + 1 < m.w && r.y2 + 1 < m.h) || (r.x2 + 1 >= m.w && r.y2 + 1 >= m.h)
    ensures ModelShadow(m.w, m.h, r) == Shadow(m.w, m.h, r)
  {
  }

  lemma PlainBoxSafe(m: Model, g: Screen, c: Command, t: Trust)
    requires c.PutBox? && Agrees(m, g, t) && !c.shadow
    ensures Safe(m, g, c, t)
  {
    RenderedOk(g, c);
    if m.HasGrid() {
      DrawnAgree(m.cells, g.cells, BoxCells(m.w, m.h, c));
    }
  }

  lemma GotoxySafe(m: Model, g: Screen, c: Command, t: Trust)
    requires c.Gotoxy? && Agrees(m, g, t)
    ensures Safe(m, g, c, t)
  {
  }

  lemma OthersSafe(m: Model, g: Screen, c: Command, t: Trust)
    requires (c.Marquee? || c.Brain? || c.Delay? || c.Other?) && Agrees(m, g, t)
    ensures Safe(m, g, c, t)
  {
  }

  lemma NumbersDrawn(w: nat, h: nat, line: Option<int>, col: Option<int>)
    ensures forall p | p in Numbers(w, h, line, col) :: OnScreen(p, w, h) && Numbers(w, h, line, col)[p].known && Numbers(w, h, line, col)[p].attr == 7
  {
  }

  lemma FieldAgrees(m: Model, u: Cells, o: Cells, rendered: bool)
    requires ModelOk(m) && CellsAgree(m.cells, u) && FieldTracked(m, o, rendered) && forall p | p in o :: OnScreen(p, m.w, m.h)
    ensures CellsAgree(m.cells, u + o) && (!rendered ==> u + o == u)
  {
    var v := u + o;
    forall p: Pos ensures p in v <==> p in u {}
    if !rendered {
      forall p | p in u ensures v[p] == u[p] {}
    }
  }

  /** The steps of a number command: the shadow screen keeps its cells, the renderer draws
      the field. */
  lemma NumberSteps(m: Model, g: Screen, c: Command, o: Cells)
    requires (c.PutLineNum? || c.PutColNum?) && ModelOk(m) && ScreenOk(g) && g.w > 0 && g.h > 0
    requires o == if c.PutLineNum? then Numbers(g.w, g.h, Some(c.number), g.col) else Numbers(g.w, g.h, g.line, Some(c.number))
    ensures Render(g, c).cells == g.cells + o && Project(m, c).model.cells == m.cells
  {
  }

  lemma NumbersSafe(m: Model, g: Screen, c: Command, t: Trust)
    requires (c.PutLineNum? || c.PutColNum?) && Agrees(m, g, t) && Tracked(m, c, t)
    ensures Safe(m, g, c, t)
  {
    RenderedOk(g, c);
    if m.HasGrid() {
      var l, k := if c.PutLineNum? then Some(c.number) else g.line, if c.PutLineNum? then g.col else Some(c.number);
      var o := Numbers(m.w, m.h, l, k);
      NumbersDrawn(m.w, m.h, l, k);
      NumberSteps(m, g, c, o);
      if c.PutLineNum? { FieldIsTracked(m, l, m.col, Project(m, c).render, l, k); } else { FieldIsTracked(m, m.line, k, Project(m, c).render, l, k); }
      FieldAgrees(m, g.cells, o, Project(m, c).render);
    }
  }

  lemma FieldIsTracked(m: Model, line: Option<int>, col: Option<int>, rendered: bool, l: Option<int>, k: Option<int>)
    requires m.HasGrid() && NumberTracked(m, line, col, rendered) && MayShow(line, l) && MayShow(col, k)
    ensures FieldTracked(m, Numbers(m.w, m.h, l, k), rendered)
  {
  }

  lemma KillBoxSafe(m: Model, g: Screen, t: Trust)
    requires Agrees(m, g, t) && KillTracked(m)
    ensures Safe(m, g, KillBox, t)
  {
    RenderedOk(g, KillBox);
    if m.HasGrid() && g.boxes != [] { KilledCellsAgree(m, g, t); }
  }

  lemma KilledCellsAgree(m: Model, g: Screen, t: Trust)
    requires Agrees(m, g, t) && KillTracked(m) && m.HasGrid() && g.boxes != []
    ensures CellsAgree(m.cells, BoxKilled(g).cells)
  {
    RenderedOk(g, KillBox);
    var back := g.cells + g.boxes[|g.boxes| - 1];
    var now := BoxKilled(g).cells;
    assert StillShows(m, NumbersAgain(m.w, m.h, g.line, g.col));
    forall p | p in m.cells && m.cells[p].known ensures now[p] == m.cells[p] {}
  }

  /** With room only below, the two shadows differ in the stray and the missing cell. */
  lemma HalfShadows(w: nat, h: nat, r: Rect, p: Pos)
    requires 0 <= r.x1 <= r.x2 == w - 1 && 0 <= r.y1 <= r.y2 && r.y2 + 2 < h && OnScreen(p, w, h)
    ensures p in ModelShadow(w, h, r) <==> (p.y == r.y2 + 1 && p.x > r.x1) || p == Pos(0, r.y2 + 2)
    ensures p in Shadow(w, h, r) <==> p.y == r.y2 + 1 && (p.x > r.x1 || p.x == w - 1)
    ensures p in ModelShadow(w, h, r) ==> ModelShadow(w, h, r)[p] == SHADE
    ensures p in Shadow(w, h, r) ==> Shadow(w, h, r)[p] == SHADE
  {
  }

  lemma HalfShadowsAgree(v: Cells, u: Cells, w: nat, h: nat, r: Rect)
    requires 0 <= r.x1 <= r.x2 == w - 1 && 0 <= r.y1 <= r.y2 && r.y2 + 2 < h
    requires CellsAgree(v, u) && v.Keys == Positions(w, h) && v[Pos(0, r.y2 + 2)] == SHADE
    requires r.x1 == r.x2 && v[Pos(w - 1, r.y2 + 1)].known ==> v[Pos(w - 1, r.y2 + 1)] == SHADE
    ensures CellsAgree(v + ModelShadow(w, h, r), u + Shadow(w, h, r))
  {
    var v1, u1 := v + ModelShadow(w, h, r), u + Shadow(w, h, r);
    forall p: Pos ensures p in v1 <==> p in v {}
    forall p: Pos ensures p in u1 <==> p in v {}
    forall p | p in v && v1[p].known ensures u1[p] == v1[p] { HalfShadows(w, h, r, p); }
  }

  lemma BoxSteps(m: Model, g: Screen, c: Command, r: Rect, o: Cells)
    requires c.PutBox? && c.shadow && ModelOk(m) && m.HasGrid() && ScreenOk(g) && g.w == m.w && g.h == m.h
    requires r == BoxOf(m.w, m.h, c) && o == BoxCells(m.w, m.h, c)
    ensures Project(m, c) == Verdict(m.(cells := m.cells + o + ModelShadow(m.w, m.h, r)), true)
    ensures Render(g, c) == g.(cells := g.cells + o + Shadow(m.w, m.h, r), boxes := Render(g, c).boxes)
  {
  }

  lemma ShadowBoxSafe(m: Model, g: Screen, c: Command, t: Trust)
    requires c.PutBox? && c.shadow && m.HasGrid() && Agrees(m, g, t) && Tracked(m, c, t)
    ensures Safe(m, g, c, t)
  {
    var r, o := BoxOf(m.w, m.h, c), BoxCells(m.w, m.h, c);
    BoxSteps(m, g, c, r, o);
    ShadowedAgree(m, g.cells, r, o);
    SafeByCells(m, g, c, t, Project(m, c), Render(g, c));
  }

  lemma ShadowedAgree(m: Model, u: Cells, r: Rect, o: Cells)
    requires 0 <= r.x1 <= r.x2 < m.w && 0 <= r.y1 <= r.y2 < m.h && ModelOk(m) && CellsAgree(m.cells, u)
    requires o.Keys <= m.cells.Keys && (forall p | p in o :: o[p].known && Inside(p, r)) && ShadowTracked(m, r)
    ensures CellsAgree(m.cells + o + ModelShadow(m.w, m.h, r), u + o + Shadow(m.w, m.h, r))
  {
    DrawnAgree(m.cells, u, o);
    if r.x2 + 1 >= m.w && r.y2 + 1 < m.h {
      var v := m.cells + o;
      assert v[Pos(0, r.y2 + 2)] == m.cells[Pos(0, r.y2 + 2)];
      assert v[Pos(m.w - 1, r.y2 + 1)] == m.cells[Pos(m.w - 1, r.y2 + 1)];
      HalfShadowsAgree(v, u + o, m.w, m.h, r);
    } else {
      ShadowsMatch(m, r);
      ShadowInside(m.w, m.h, r);
      DrawnAgree(m.cells + o, u + o, Shadow(m.w, m.h, r));
    }
  }

  lemma ShadowInside(w: nat, h: nat, r: Rect)
    requires w > 0 && h > 0
    ensures var d := Shadow(w, h, r); d.Keys <= Positions(w, h) && forall p | p in d :: d[p] == SHADE
  {
  }

  lemma ClrLineSteps(m: Model, g: Screen, c: Command)
    requires c.ClrLine? && ModelOk(m) && m.HasGrid() && ScreenOk(g) && g.w == m.w && g.h == m.h
    requires c.count <= 0 ==> m.cursor.Some?
    ensures Project(m, c) == Drawn(m, Cleared(m.w, m.h, m.cells, Stretch(m, c)))
    ensures Render(g, c) == g.(cells := g.cells + Cleared(g.w, g.h, g.cells, ClearedStretch(g.w, g.h, g.cursor, c)))
  {
  }

  lemma CursorLineSafe(m: Model, g: Screen, c: Command, t: Trust)
    requires c.ClrLine? && NoArguments(c) && m.HasGrid() && Agrees(m, g, t) && Tracked(m, c, t)
    ensures Safe(m, g, c, t)
  {
    if m.cursor.None? {
      LostLineSafe(m, g, c, t);
    } else if t.cursor || m.h == 1 {
      ClrLineSteps(m, g, c);
      assert ClearedStretch(g.w, g.h, g.cursor, c) == Stretch(m, c);
      DrawnAgree(m.cells, g.cells, Cleared(m.w, m.h, m.cells, Stretch(m, c)));
      SafeByCells(m, g, c, t, Project(m, c), Render(g, c));
    } else {
      BlankLineSafe(m, g, c, t);
    }
  }

  lemma LostLineSafe(m: Model, g: Screen, c: Command, t: Trust)
    requires c.ClrLine? && NoArguments(c) && m.HasGrid() && m.cursor.None? && Agrees(m, g, t) && CursorLineTracked(m, t)
    ensures Safe(m, g, c, t)
  {
    RenderedOk(g, c);
    var d := Cleared(g.w, g.h, g.cells, ClearedStretch(g.w, g.h, g.cursor, c));
    forall p | p in m.cells && m.cells[p].known ensures (g.cells + d)[p] == m.cells[p] {
      if p in d { assert Known(m, Pos(0, p.y)) && IsBlank(m, p); }
    }
  }

  lemma BlankLineSafe(m: Model, g: Screen, c: Command, t: Trust)
    requires c.ClrLine? && NoArguments(c) && m.HasGrid() && m.cursor.Some? && Agrees(m, g, t)
    requires forall p | p in m.cells :: IsBlank(m, p)
    ensures Safe(m, g, c, t)
  {
    ClrLineSteps(m, g, c);
    BlankStays(m, m.cells, Stretch(m, c));
    BlankStays(m, g.cells, ClearedStretch(g.w, g.h, g.cursor, c));
    SafeByCells(m, g, c, t, Project(m, c), Render(g, c));
  }

  lemma BlankStays(m: Model, u: Cells, r: Rect)
    requires ModelOk(m) && CellsAgree(m.cells, u) && r.y1 == r.y2 && forall p | p in m.cells :: IsBlank(m, p)
    ensures u + Cleared(m.w, m.h, u, r) == u
  {
    var d := Cleared(m.w, m.h, u, r);
    forall p | p in d ensures p in u && d[p] == u[p] { assert IsBlank(m, p) && IsBlank(m, Pos(0, p.y)); }
  }

  /** A count below one clears nothing on the screen. */
  lemma UncountedSafe(m: Model, g: Screen, c: Command, t: Trust)
    requires c.ClrLine? && !NoArguments(c) && c.count <= 0 && m.HasGrid() && Agrees(m, g, t) && Tracked(m, c, t)
    ensures Safe(m, g, c, t)
  {
    var o := Cleared(g.w, g.h, g.cells, ClearedStretch(g.w, g.h, g.cursor, c));
    assert o == map[];
    assert g.cells + o == g.cells;
    if m.cursor.Some? {
      ClrLineSteps(m, g, c);
      ClearedChanges(m, CursorRow(m));
      SafeByCells(m, g, c, t, Project(m, c), Render(g, c));
    } else {
      RenderedOk(g, c);
    }
  }

  /** Clearing a stretch of the shadow screen changes it exactly if there is something to
      blank. */
  lemma ClearedChanges(m: Model, r: Rect)
    requires ModelOk(m)
    ensures m.cells + Cleared(m.w, m.h, m.cells, r) != m.cells <==> SomeToBlank(m, r)
  {
    var o := Cleared(m.w, m.h, m.cells, r);
    var v := m.cells + o;
    forall p: Pos ensures p in v <==> p in m.cells {}
    if SomeToBlank(m, r) {
      var q :| q in m.cells && Inside(q, r) && m.cells[q] != Cell(' ', HeadAttr(m.cells, r.y1), true);
      assert v[q] != m.cells[q];
    } else {
      forall p | p in m.cells ensures v[p] == m.cells[p] {}
    }
  }

  lemma CountedSafe(m: Model, g: Screen, c: Command, t: Trust)
    requires c.ClrLine? && c.count > 0 && m.HasGrid() && Agrees(m, g, t) && Tracked(m, c, t)
    ensures Safe(m, g, c, t)
  {
    ClrLineSteps(m, g, c);
    CountedCells(m, g, c);
    SafeByCells(m, g, c, t, Project(m, c), Render(g, c));
  }

  lemma CountedCells(m: Model, g: Screen, c: Command)
    requires c.ClrLine? && c.count > 0 && ModelOk(m) && m.HasGrid() && g.w == m.w && g.h == m.h
    requires CellsAgree(m.cells, g.cells) && CountedTracked(m, c)
    ensures var o, d := Cleared(m.w, m.h, m.cells, CountedStretch(c)), Cleared(g.w, g.h, g.cells, ClearedStretch(g.w, g.h, g.cursor, c));
      CellsAgree(m.cells + o, g.cells + d) && (m.cells + o == m.cells ==> g.cells + d == g.cells)
  {
    var o, d := Cleared(m.w, m.h, m.cells, CountedStretch(c)), Cleared(g.w, g.h, g.cells, ClearedStretch(g.w, g.h, g.cursor, c));
    ClearedChanges(m, CountedStretch(c));
    forall p | p in d ensures BlankTracked(m, c, p) && (p in o ==> o[p] == d[p]) {}
    forall p | p in o ensures p in d {}
    if m.cells + o == m.cells {
      forall p | p in d ensures (g.cells + d)[p] == g.cells[p] {
        if p in o { assert (m.cells + o)[p] == m.cells[p]; }
      }
    }
  }

  /** Every tracked command is handled well on every screen that agrees. */
  lemma TrackedIsSafe(m: Model, g: Screen, c: Command, t: Trust)
    requires Agrees(m, g, t) && Tracked(m, c, t)
    ensures Safe(m, g, c, t)
  {
    match c
    case Write(_, _, _, _, _) => WriteSafe(m, g, c, t);
    case PutBox(_, _, _, _, _, _, _, shadow) =>
      if shadow && m.HasGrid() { ShadowBoxSafe(m, g, c, t); }
      else if !shadow { PlainBoxSafe(m, g, c, t); }
      else { RenderedOk(g, c); }
    case ClrLine(_, _, count) =>
      if !m.HasGrid() { RenderedOk(g, c); }
      else if NoArguments(c) { CursorLineSafe(m, g, c, t); }
      else if count <= 0 { UncountedSafe(m, g, c, t); }
      else { CountedSafe(m, g, c, t); }
    case Scroll(_, _, _, _, _, _) => ScrollSafe(m, g, c, t);
    case ClearScreen(_) => ClearScreenSafe(m, g, c, t);
    case KillBox => KillBoxSafe(m, g, t);
    case PutLineNum(_) => NumbersSafe(m, g, c, t);
    case PutColNum(_) => NumbersSafe(m, g, c, t);
    case Gotoxy(_, _) => GotoxySafe(m, g, c, t);
    case _ => OthersSafe(m, g, c, t);
  }

  // ------------------------------------------------------------------------ what is skipped

  /** Commands that set something to a value rather than moving it. */
  predicate Settles(m: Model, c: Command) {
    match c
    case Write(_, _, _, _, _) => m.HasGrid()
    case ClearScreen(_) => m.HasGrid()
    case ClrLine(_, _, count) => m.HasGrid() && (count <= 0 ==> m.cursor.Some?)
    case Gotoxy(_, _) => true
    case PutLineNum(_) => true
    case PutColNum(_) => true
    case Marquee(_, _) => true
    case Brain(_) => true
    case _ => false
  }

  /** Such a command given twice in a row is skipped the second time. */
  lemma RepeatedIsSkipped(m: Model, c: Command)
    requires ModelOk(m) && Settles(m, c)
    ensures ModelOk(Project(m, c).model)
    ensures Project(Project(m, c).model, c) == Verdict(Project(m, c).model, false)
  {
    ProjectedOk(m, c);
    match c
    case Write(_, _, _, _, _) => DrawnTwice(m.cells, WriteCells(m.w, m.h, c));
    case ClearScreen(attr) => DrawnTwice(m.cells, BlankScreen(m.w, m.h, attr % 256));
    case ClrLine(_, _, _) => ClearedTwice(m, Stretch(m, c));
    case _ =>
  }

  lemma DrawnTwice(v: Cells, o: Cells)
    ensures v + o + o == v + o
  {
  }

  lemma ClearedTwice(m: Model, r: Rect)
    ensures var v := m.cells + Cleared(m.w, m.h, m.cells, r); v + Cleared(m.w, m.h, v, r) == v
  {
    var v := m.cells + Cleared(m.w, m.h, m.cells, r);
    assert HeadAttr(v, r.y1) == HeadAttr(m.cells, r.y1);
    DrawnTwice(m.cells, Cleared(m.w, m.h, m.cells, r));
  }
}
