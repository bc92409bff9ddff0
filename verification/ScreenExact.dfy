/** The tracked commands are exactly the safe ones: for any other there is a screen that
    agrees with the shadow screen and on which the command goes wrong. */
module ScreenExact {
  import opened Basics
  import opened ScreenCells
  import opened ScreenModel
  import opened ScreenSafety

  /** The command is handled well on every screen that agrees with `m`. */
  ghost predicate SafeEverywhere(m: Model, c: Command, t: Trust)
    requires ModelOk(m)
  {
    Defined(m, c) && forall g | Agrees(m, g, t) :: Safe(m, g, c, t)
  }

  /** A screen that agrees with `m` and shows `other` wherever `m` knows nothing. */
  function Witness(m: Model, other: Cell, boxes: seq<Cells>): (g: Screen)
  {
    Screen(m.w, m.h, map p | p in m.cells :: if m.cells[p].known then m.cells[p] else other,
           if m.cursor.Some? && m.HasGrid() then ClampedCursor(m.cursor.value.x, m.cursor.value.y, m.w, m.h) else Pos(0, 0),
           boxes, m.line, m.col)
  }

  lemma WitnessAgrees(m: Model, other: Cell, boxes: seq<Cells>, t: Trust)
    requires ModelOk(m) && forall k | 0 <= k < |boxes| :: boxes[k].Keys <= m.cells.Keys
    ensures Agrees(m, Witness(m, other, boxes), t)
  {
    assert Witness(m, other, boxes).cells.Keys == m.cells.Keys;
  }

  /** A known cell on which the two differ after the command. */
  lemma NotSafe(m: Model, g: Screen, c: Command, t: Trust, p: Pos)
    requires Agrees(m, g, t) && m.HasGrid() && Project(m, c).render
    requires p in m.cells && p in Project(m, c).model.cells && p in Render(g, c).cells
    requires Project(m, c).model.cells[p].known && Project(m, c).model.cells[p] != Render(g, c).cells[p]
    ensures !SafeEverywhere(m, c, t)
  {
    ProjectedOk(m, c);
    assert !Safe(m, g, c, t);
  }

  lemma BoxExact(m: Model, c: Command, t: Trust)
    requires c.PutBox? && ModelOk(m)
    ensures SafeEverywhere(m, c, t) <==> Tracked(m, c, t)
  {
    if Tracked(m, c, t) {
      forall g | Agrees(m, g, t) ensures Safe(m, g, c, t) { TrackedIsSafe(m, g, c, t); }
    } else if Defined(m, c) {
      HalfShadowFails(m, c, t);
    }
  }

  lemma HalfShadowFails(m: Model, c: Command, t: Trust)
    requires c.PutBox? && ModelOk(m) && Defined(m, c) && !Tracked(m, c, t)
    ensures !SafeEverywhere(m, c, t)
  {
    var r, o := BoxOf(m.w, m.h, c), BoxCells(m.w, m.h, c);
    var g := Witness(m, Cell('?', 7, true), []);
    WitnessAgrees(m, Cell('?', 7, true), [], t);
    BoxSteps(m, g, c, r, o);
    var p := HalfShadowDiffers(m, g.cells, r, o);
    NotSafe(m, g, c, t, p);
  }

  lemma HalfShadowDiffers(m: Model, u: Cells, r: Rect, o: Cells) returns (p: Pos)
    requires 0 <= r.x1 <= r.x2 < m.w && 0 <= r.y1 <= r.y2 < m.h && ModelOk(m) && u.Keys == m.cells.Keys
    requires forall q | q in m.cells :: u[q] == if m.cells[q].known then m.cells[q] else Cell('?', 7, true)
    requires (forall q | q in o :: Inside(q, r)) && ShadowStaysInside(m.w, m.h, r) && !ShadowTracked(m, r)
    ensures p in m.cells
    ensures var v := (m.cells + o + ModelShadow(m.w, m.h, r))[p]; v.known && v != (u + o + Shadow(m.w, m.h, r))[p]
  {
    var stray, missing := Pos(0, r.y2 + 2), Pos(m.w - 1, r.y2 + 1);
    HalfShadows(m.w, m.h, r, stray);
    HalfShadows(m.w, m.h, r, missing);
    p := if m.cells[stray] == SHADE then missing else stray;
    assert p !in o;
  }

  lemma KillBoxExact(m: Model, t: Trust)
    requires ModelOk(m)
    ensures SafeEverywhere(m, KillBox, t) <==> KillTracked(m)
  {
    if KillTracked(m) {
      forall g | Agrees(m, g, t) ensures Safe(m, g, KillBox, t) { KillBoxSafe(m, g, t); }
    } else {
      var l, k :| MayShow(m.line, l) && MayShow(m.col, k) && !StillShows(m, NumbersAgain(m.w, m.h, l, k));
      var p :| p in m.cells && m.cells[p].known && !(p in NumbersAgain(m.w, m.h, l, k) && m.cells[p] == NumbersAgain(m.w, m.h, l, k)[p]);
      KilledBoxFails(m, t, p, l, k);
    }
  }

  /** The box that is closed covered a cell the shadow screen still believes in, and no number
      is drawn there that would show the same. */
  lemma KilledBoxFails(m: Model, t: Trust, p: Pos, l: Option<int>, k: Option<int>)
    requires ModelOk(m) && MayShow(m.line, l) && MayShow(m.col, k) && p in m.cells && m.cells[p].known
    requires var o := NumbersAgain(m.w, m.h, l, k); !(p in o && m.cells[p] == o[p])
    ensures !SafeEverywhere(m, KillBox, t)
  {
    var o := NumbersAgain(m.w, m.h, l, k);
    var under: Cells := map[p := m.cells[p].(ch := if m.cells[p].ch == 'a' then 'b' else 'a')];
    var g := Witness(m, BLANK, [under]).(line := l, col := k);
    WitnessAgrees(m, BLANK, [under], t);
    KilledCells(g, under, p);
    NotSafe(m, g, KillBox, t, p);
  }

  lemma KilledCells(g: Screen, under: Cells, p: Pos)
    requires ScreenOk(g) && g.w > 0 && g.h > 0 && g.boxes == [under] && p in under && p in g.cells && under[p] != g.cells[p]
    ensures Render(g, KillBox).cells == g.cells + under + NumbersAgain(g.w, g.h, g.line, g.col)
  {
    var back := g.cells + under;
    assert back[p] != g.cells[p] && back + map[] == back;
  }

  lemma NumbersExact(m: Model, c: Command, t: Trust)
    requires (c.PutLineNum? || c.PutColNum?) && ModelOk(m)
    ensures SafeEverywhere(m, c, t) <==> Tracked(m, c, t)
  {
    if Tracked(m, c, t) {
      forall g | Agrees(m, g, t) ensures Safe(m, g, c, t) { TrackedIsSafe(m, g, c, t); }
    } else if m.HasGrid() {
      var line, col := if c.PutLineNum? then Some(c.number) else m.line, if c.PutLineNum? then m.col else Some(c.number);
      var l, k, p := FieldUntracked(m, line, col, Project(m, c).render);
      NumberFails(m, c, t, l, k, p);
    } else {
      UnsizedNumberFails(m, c, t);
    }
  }

  lemma FieldUntracked(m: Model, line: Option<int>, col: Option<int>, rendered: bool) returns (l: Option<int>, k: Option<int>, p: Pos)
    requires m.HasGrid() && !NumberTracked(m, line, col, rendered)
    ensures MayShow(line, l) && MayShow(col, k) && p in Numbers(m.w, m.h, l, k)
    ensures !(if Known(m, p) then m.cells[p] == Numbers(m.w, m.h, l, k)[p] else rendered)
  {
    l, k :| MayShow(line, l) && MayShow(col, k) && !FieldTracked(m, Numbers(m.w, m.h, l, k), rendered);
    var o := Numbers(m.w, m.h, l, k);
    p :| p in o && !(if Known(m, p) then m.cells[p] == o[p] else rendered);
  }

  /** The number is drawn over a cell that is known to show something else, or is not drawn
      where the screen may show anything. */
  lemma NumberFails(m: Model, c: Command, t: Trust, l: Option<int>, k: Option<int>, p: Pos)
    requires (c.PutLineNum? && l == Some(c.number) && MayShow(m.col, k)) || (c.PutColNum? && k == Some(c.number) && MayShow(m.line, l))
    requires ModelOk(m) && m.HasGrid() && p in Numbers(m.w, m.h, l, k)
    requires !(if Known(m, p) then m.cells[p] == Numbers(m.w, m.h, l, k)[p] else Project(m, c).render)
    ensures !SafeEverywhere(m, c, t)
  {
    var other, o := Cell('?', 9, true), Numbers(m.w, m.h, l, k);
    var w := Witness(m, other, []);
    var g := if c.PutLineNum? then w.(col := k) else w.(line := l);
    WitnessAgrees(m, other, [], t);
    NumbersDrawn(m.w, m.h, l, k);
    NumberSteps(m, g, c, o);
    if Project(m, c).render { NotSafe(m, g, c, t, p); } else { SkipFails(m, g, c, t, p); }
  }

  /** A shadow screen without a size skips a number it remembers, on a screen that may not
      show it. */
  lemma UnsizedNumberFails(m: Model, c: Command, t: Trust)
    requires (c.PutLineNum? || c.PutColNum?) && ModelOk(m) && m.w == m.h == 0 && !Project(m, c).render
    ensures !SafeEverywhere(m, c, t)
  {
    var p := Pos(0, 0);
    var cursor := if m.cursor.Some? then ClampedCursor(m.cursor.value.x, m.cursor.value.y, 1, 1) else p;
    var g := Screen(1, 1, map[p := Cell('?', 9, true)], cursor, [], m.line, m.col);
    assert forall q :: q in g.cells <==> OnScreen(q, 1, 1);
    var l, k := if c.PutLineNum? then Some(c.number) else g.line, if c.PutLineNum? then g.col else Some(c.number);
    NumbersDrawn(1, 1, l, k);
    NumberSteps(m, g, c, Numbers(1, 1, l, k));
    assert p in Numbers(1, 1, l, k);
    SkipFails(m, g, c, t, p);
  }

  /** A clear-line without arguments. */
  lemma CursorLineExact(m: Model, c: Command, t: Trust)
    requires c.ClrLine? && ModelOk(m) && NoArguments(c)
    ensures SafeEverywhere(m, c, t) <==> Tracked(m, c, t)
  {
    if Tracked(m, c, t) {
      forall g | Agrees(m, g, t) ensures Safe(m, g, c, t) { TrackedIsSafe(m, g, c, t); }
    } else if m.cursor.None? {
      var p :| p in m.cells && m.cells[p].known && !(Known(m, Pos(0, p.y)) && IsBlank(m, p));
      LostLineFails(m, c, t, p);
    } else if t.cursor || m.h == 1 {
      CursorHeadFails(m, c, t);
    } else {
      var p :| p in m.cells && !IsBlank(m, p);
      OtherRowFails(m, c, t, p);
    }
  }

  lemma CursorHeadFails(m: Model, c: Command, t: Trust)
    requires c.ClrLine? && ModelOk(m) && NoArguments(c) && m.cursor.Some? && m.HasGrid() && !Known(m, Pos(0, CursorRow(m).y1))
    ensures !SafeEverywhere(m, c, t)
  {
    var other := Cell('?', 9, true);
    var g := Witness(m, other, []);
    WitnessAgrees(m, other, [], t);
    ClrLineSteps(m, g, c);
    var p := Pos(0, CursorRow(m).y1);
    assert ClearedStretch(g.w, g.h, g.cursor, c) == CursorRow(m);
    assert HeadAttr(g.cells, p.y) == 9 && HeadAttr(m.cells, p.y) == 7;
    ClearedChanges(m, CursorRow(m));
    NotSafe(m, g, c, t, p);
  }

  /** What the renderer makes of a cell in the cursor's row. */
  lemma RowCell(g: Screen, c: Command, p: Pos)
    requires c.ClrLine? && NoArguments(c) && ScreenOk(g) && p in g.cells && 0 <= g.cursor.y < g.h
    ensures p in Render(g, c).cells
    ensures Render(g, c).cells[p] == if p.y == g.cursor.y then Cell(' ', HeadAttr(g.cells, p.y), true) else g.cells[p]
  {
    var d := Cleared(g.w, g.h, g.cells, ClearedStretch(g.w, g.h, g.cursor, c));
    assert p in d <==> p.y == g.cursor.y;
  }

  /** The shadow screen knows no cursor and keeps a cell that the renderer blanks. */
  lemma LostLineFails(m: Model, c: Command, t: Trust, p: Pos)
    requires c.ClrLine? && ModelOk(m) && NoArguments(c) && m.cursor.None? && m.HasGrid()
    requires p in m.cells && m.cells[p].known && !(Known(m, Pos(0, p.y)) && IsBlank(m, p))
    ensures !SafeEverywhere(m, c, t)
  {
    var other := Cell('?', if m.cells[p].attr == 9 then 10 else 9, true);
    var g := Witness(m, other, []).(cursor := p);
    WitnessAgrees(m, other, [], t);
    RowCell(g, c, p);
    NotSafe(m, g, c, t, p);
  }

  /** The renderer's cursor is in another row than the shadow screen believes. */
  lemma OtherRowFails(m: Model, c: Command, t: Trust, p: Pos)
    requires c.ClrLine? && ModelOk(m) && NoArguments(c) && m.cursor.Some? && m.HasGrid() && m.h > 1 && !t.cursor
    requires p in m.cells && !IsBlank(m, p)
    ensures !SafeEverywhere(m, c, t)
  {
    var other, r := Cell('?', 9, true), CursorRow(m);
    var w := Witness(m, other, []);
    WitnessAgrees(m, other, [], t);
    ClearedChanges(m, r);
    if SomeToBlank(m, r) {
      var g := w.(cursor := Pos(0, if r.y1 == 0 then 1 else 0));
      var q :| q in m.cells && Inside(q, r) && m.cells[q] != Cell(' ', HeadAttr(m.cells, r.y1), true);
      ClrLineSteps(m, g, c);
      RowCell(g, c, q);
      NotSafe(m, g, c, t, q);
    } else {
      var g := w.(cursor := p);
      ClrLineSteps(m, g, c);
      var q := if Known(m, Pos(0, p.y)) then p else Pos(0, p.y);
      RowCell(g, c, q);
      SkipFails(m, g, c, t, q);
    }
  }

  /** A clear-line with arguments. */
  lemma ClrLineExact(m: Model, c: Command, t: Trust)
    requires c.ClrLine? && ModelOk(m) && !NoArguments(c)
    ensures SafeEverywhere(m, c, t) <==> Tracked(m, c, t)
  {
    if Tracked(m, c, t) {
      forall g | Agrees(m, g, t) ensures Safe(m, g, c, t) { TrackedIsSafe(m, g, c, t); }
    } else if c.count <= 0 {
      UncountedFails(m, c, t);
    } else {
      var p :| p in m.cells && Inside(p, ClearedStretch(m.w, m.h, Pos(0, 0), c)) && !BlankTracked(m, c, p);
      if !Known(m, Pos(0, c.row - 1)) {
        HeadUnknownFails(m, c, t, p);
      } else {
        BeyondFails(m, c, t, p);
      }
    }
  }

  lemma UncountedFails(m: Model, c: Command, t: Trust)
    requires c.ClrLine? && ModelOk(m) && !NoArguments(c) && c.count <= 0 && !Tracked(m, c, t)
    ensures !SafeEverywhere(m, c, t)
  {
    var r := CursorRow(m);
    var p :| p in m.cells && Inside(p, r) && m.cells[p] != Cell(' ', HeadAttr(m.cells, r.y1), true);
    ClearedChanges(m, r);
    var g := Witness(m, Cell('?', 7, true), []);
    WitnessAgrees(m, Cell('?', 7, true), [], t);
    ClrLineSteps(m, g, c);
    NotSafe(m, g, c, t, p);
  }

  /** A cell that rendering would have changed. */
  lemma SkipFails(m: Model, g: Screen, c: Command, t: Trust, p: Pos)
    requires Agrees(m, g, t) && !Project(m, c).render
    requires p in g.cells && p in Render(g, c).cells && Render(g, c).cells[p] != g.cells[p]
    ensures !SafeEverywhere(m, c, t)
  {
    assert !Safe(m, g, c, t);
  }

  /** What a counted clear-line makes of one cell, on the screen and on the shadow screen. */
  lemma CountedCell(m: Model, g: Screen, c: Command, p: Pos)
    requires c.ClrLine? && c.count > 0 && ModelOk(m) && m.HasGrid() && ScreenOk(g) && g.w == m.w && g.h == m.h
    requires p in m.cells && Inside(p, ClearedStretch(m.w, m.h, Pos(0, 0), c))
    ensures p in Render(g, c).cells && Render(g, c).cells[p] == Cell(' ', HeadAttr(g.cells, c.row - 1), true)
    ensures p in Project(m, c).model.cells
    ensures Project(m, c).model.cells[p] ==
            if Inside(p, CountedStretch(c)) then Cell(' ', HeadAttr(m.cells, c.row - 1), true) else m.cells[p]
    ensures !Project(m, c).render ==> Project(m, c).model.cells == m.cells
  {
    ClrLineSteps(m, g, c);
    var o, d := Cleared(m.w, m.h, m.cells, CountedStretch(c)), Cleared(g.w, g.h, g.cells, ClearedStretch(g.w, g.h, g.cursor, c));
    assert p in d && (p in o <==> Inside(p, CountedStretch(c)));
  }

  /** The renderer may know a colour that the shadow screen does not. */
  lemma HeadUnknownFails(m: Model, c: Command, t: Trust, p: Pos)
    requires c.ClrLine? && c.count > 0 && ModelOk(m) && m.HasGrid() && !Known(m, Pos(0, c.row - 1))
    requires p in m.cells && Inside(p, ClearedStretch(m.w, m.h, Pos(0, 0), c))
    ensures !SafeEverywhere(m, c, t)
  {
    var other := Cell('?', 9, true);
    var g := Witness(m, other, []);
    WitnessAgrees(m, other, [], t);
    var q := if Inside(p, CountedStretch(c)) then p else Pos(0, c.row - 1);
    CountedCell(m, g, c, q);
    if Project(m, c).render {
      RenderedMeansInside(m, c, q);
      NotSafe(m, g, c, t, q);
    } else {
      SkipFails(m, g, c, t, q);
    }
  }

  lemma RenderedMeansInside(m: Model, c: Command, q: Pos)
    requires c.ClrLine? && c.count > 0 && ModelOk(m) && m.HasGrid()
    requires q in m.cells && q.y == c.row - 1 && (Inside(q, CountedStretch(c)) || (q.x == 0 && c.column < 1))
    ensures Project(m, c).render ==> Inside(q, CountedStretch(c))
  {
    var r := CountedStretch(c);
    if r.x2 < r.x1 {
      var o := Cleared(m.w, m.h, m.cells, r);
      assert o == map[];
      assert m.cells + o == m.cells;
    }
  }

  /** Cells that only the renderer blanks. */
  lemma BeyondFails(m: Model, c: Command, t: Trust, p: Pos)
    requires c.ClrLine? && c.count > 0 && ModelOk(m) && m.HasGrid() && Known(m, Pos(0, c.row - 1))
    requires p in m.cells && Inside(p, ClearedStretch(m.w, m.h, Pos(0, 0), c)) && !BlankTracked(m, c, p)
    ensures !SafeEverywhere(m, c, t)
  {
    var other := Cell('?', 9, true);
    var g := Witness(m, other, []);
    WitnessAgrees(m, other, [], t);
    CountedCell(m, g, c, p);
    ClearedChanges(m, CountedStretch(c));
    if Project(m, c).render {
      NotSafe(m, g, c, t, p);
    } else {
      SkipFails(m, g, c, t, p);
    }
  }

  /** Tracked commands are exactly the safe ones, whatever the shadow screen knows. */
  lemma TrackedExactly(m: Model, c: Command, t: Trust)
    requires ModelOk(m)
    ensures SafeEverywhere(m, c, t) <==> Tracked(m, c, t)
  {
    match c
    case PutBox(_, _, _, _, _, _, _, _) => BoxExact(m, c, t);
    case ClrLine(_, _, _) => if NoArguments(c) { CursorLineExact(m, c, t); } else { ClrLineExact(m, c, t); }
    case KillBox => KillBoxExact(m, t);
    case PutLineNum(_) => NumbersExact(m, c, t);
    case PutColNum(_) => NumbersExact(m, c, t);
    case _ => forall g | Agrees(m, g, t) ensures Safe(m, g, c, t) { TrackedIsSafe(m, g, c, t); }
  }
}
