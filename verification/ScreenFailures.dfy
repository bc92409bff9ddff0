/** Where skipping goes wrong: for each kind of command that is not tracked, playbacks after
    which a cell differs from what full rendering would show. */
module ScreenFailures {
  import opened Basics
  import opened ScreenCells
  import opened ScreenModel
  import opened ScreenSafety
  import opened ScreenRuns

  // -------------------------------------------------------------------------- closing a box

  const CORNER := Pos(0, 0)
  const PLUS := Cell('+', 7, true)

  /** A screen of one cell that nobody has drawn. */
  function OneCell(cell: Cell): (v: Cells)
    ensures v.Keys == Positions(1, 1) && v[CORNER] == cell
  {
    assert forall p :: p in map[CORNER := cell] <==> OnScreen(p, 1, 1);
    map[CORNER := cell]
  }

  lemma OneCellOnly(v: Cells)
    requires v.Keys == Positions(1, 1)
    ensures v == OneCell(v[CORNER])
  {
    assert forall p | p in v :: p == CORNER;
  }

  const TINY_BOX := PutBox(1, 1, 1, 1, 0, 7, "", false)
  const TINY_WRITE := Write(1, 1, 0, 7, "+")

  lemma TinyBoxDrawn(m: Model, g: Screen)
    requires ModelOk(m) && m.w == m.h == 1 && ScreenOk(g) && g.w == g.h == 1
    ensures Project(m, TINY_BOX).model == m.(cells := OneCell(PLUS)) && Project(m, TINY_BOX).render
    ensures Render(g, TINY_BOX) == g.(cells := OneCell(PLUS), boxes := g.boxes + [g.cells])
  {
    var o := BoxCells(1, 1, TINY_BOX);
    assert CORNER in o && o[CORNER] == PLUS;
    OneCellOnly(m.cells + o);
    OneCellOnly(g.cells + o);
    assert Saved(g.cells, 1, 1, BoxOf(1, 1, TINY_BOX), false) == g.cells;
  }

  lemma TinyWriteDrawn(m: Model, g: Screen)
    requires ModelOk(m) && m.w == m.h == 1 && m.cells == OneCell(PLUS) && ScreenOk(g) && g.w == g.h == 1
    ensures !Project(m, TINY_WRITE).render && Render(g, TINY_WRITE).cells == OneCell(PLUS)
  {
    var o := WriteCells(1, 1, TINY_WRITE);
    assert CORNER in o && o[CORNER] == PLUS;
    OneCellOnly(m.cells + o);
    OneCellOnly(g.cells + o);
  }

  lemma TinyBoxKilled(g: Screen)
    requires ScreenOk(g) && g.w == g.h == 1 && g.line.None? && g.col.None?
    ensures var boxed := g.(cells := OneCell(PLUS), boxes := g.boxes + [g.cells]);
      ScreenOk(boxed) && Render(boxed, KillBox) == g
  {
    var boxed := g.(cells := OneCell(PLUS), boxes := g.boxes + [g.cells]);
    assert boxed.cells + g.cells == g.cells;
    assert boxed.boxes[..|boxed.boxes| - 1] == g.boxes;
  }

  /** Closing a box restores the screen but not the shadow screen: on a screen of one cell,
      the sign that the box showed, written again after the box is closed, is skipped and
      the cell stays as it was before. */
  lemma SkippingAfterKillBox(g: Screen)
    requires ScreenOk(g) && g.w == g.h == 1 && g.line.None? && g.col.None?
    ensures var s := Played(Start(g), [Seeding(None), Ran(TINY_BOX), Ran(KillBox), Ran(TINY_WRITE)]);
      s.shown.cells == g.cells && s.full.cells == OneCell(PLUS)
  {
    var s0 := After(Start(g), Seeding(None));
    TinyBoxDrawn(s0.model, g);
    TinyBoxKilled(g);
    var s1 := After(s0, Ran(TINY_BOX));
    var s2 := After(s1, Ran(KillBox));
    assert s2.shown == g == s2.full && s2.model == s1.model;
    TinyWriteDrawn(s2.model, g);
    PlayedFour(Start(g), Seeding(None), Ran(TINY_BOX), Ran(KillBox), Ran(TINY_WRITE));
  }

  lemma PlayedFour(s: Session, a: Event, b: Event, c: Event, d: Event)
    requires WellFormed(s) && EventOk(a) && EventOk(b) && EventOk(c) && EventOk(d)
    ensures WellFormed(After(s, a)) && WellFormed(After(After(s, a), b)) && WellFormed(After(After(After(s, a), b), c))
    ensures EventsOk([a, b, c, d]) && Played(s, [a, b, c, d]) == After(After(After(After(s, a), b), c), d)
  {
    PlayedThree(s, a, b, c);
    PlayedLast(s, [a, b, c], d);
    assert [a, b, c] + [d] == [a, b, c, d];
  }

  lemma PlayedThree(s: Session, a: Event, b: Event, c: Event)
    requires WellFormed(s) && EventOk(a) && EventOk(b) && EventOk(c)
    ensures WellFormed(After(s, a)) && WellFormed(After(After(s, a), b))
    ensures EventsOk([a, b, c]) && Played(s, [a, b, c]) == After(After(After(s, a), b), c)
  {
    PlayedTwo(s, a, b);
    PlayedLast(s, [a, b], c);
    assert [a, b] + [c] == [a, b, c];
  }

  lemma PlayedTwo(s: Session, a: Event, b: Event)
    requires WellFormed(s) && EventOk(a) && EventOk(b)
    ensures WellFormed(After(s, a)) && EventsOk([a, b]) && Played(s, [a, b]) == After(After(s, a), b)
  {
    PlayedLast(s, [], a);
    PlayedLast(s, [a], b);
    assert [] + [a] == [a] && [a] + [b] == [a, b];
  }

  /** Drawing what is there already changes nothing. */
  lemma NothingNew(v: Cells, o: Cells)
    requires forall p | p in o :: p in v && v[p] == o[p]
    ensures v + o == v
  {
  }

  // ------------------------------------------------------------------ left of the screen

  const LETTER_A := Cell('A', 7, true)
  const WRITE_A := Write(1, 1, 0, 7, "A")
  const CLEAR_ONE_LEFT := ClrLine(0, 1, 1)

  lemma WriteADrawn(w: nat, h: nat)
    requires w > 0 && h > 0
    ensures CORNER in WriteCells(w, h, WRITE_A) && WriteCells(w, h, WRITE_A)[CORNER] == LETTER_A
    ensures forall p | p in WriteCells(w, h, WRITE_A) :: p == CORNER
  {
  }

  /** Screens and shadow screen have the same size, at least one cell. */
  ghost predicate Sized(s: Session) {
    WellFormed(s) && s.model.w == s.shown.w == s.full.w > 0 && s.model.h == s.shown.h == s.full.h > 0
  }

  /** What the shadow screen, the screen and the fully rendered screen hold at one place. */
  ghost predicate Holds(s: Session, p: Pos, model: Cell, shown: Cell, full: Cell) {
    && Sized(s) && OnScreen(p, s.shown.w, s.shown.h)
    && s.model.cells[p] == model && s.shown.cells[p] == shown && s.full.cells[p] == full
  }

  /** Only the cells of the session differ. */
  ghost predicate OnlyCells(s: Session, t: Session) {
    && t.model == s.model.(cells := t.model.cells)
    && t.shown == s.shown.(cells := t.shown.cells) && t.full == s.full.(cells := t.full.cells)
  }

  lemma SeededSized(g: Screen)
    requires ScreenOk(g) && g.w > 0 && g.h > 0
    ensures var s := After(Start(g), Seeding(None));
      Sized(s) && s.shown == g == s.full && s.model == Seeded(UNSEEDED, g.w, g.h, None)
  {
  }

  lemma AfterWriteA(s: Session)
    requires Sized(s) && s.model.cells[CORNER] != LETTER_A
    ensures var t := After(s, Ran(WRITE_A)); Holds(t, CORNER, LETTER_A, LETTER_A, LETTER_A) && OnlyCells(s, t)
  {
    var o := WriteCells(s.model.w, s.model.h, WRITE_A);
    WriteADrawn(s.model.w, s.model.h);
    WriteSteps(s.model, s.shown, WRITE_A, o);
    WriteSteps(s.model, s.full, WRITE_A, o);
    assert (s.model.cells + o)[CORNER] == LETTER_A;
    AfterWellFormed(s, Ran(WRITE_A));
  }

  lemma AfterClearLeft(s: Session)
    requires Holds(s, CORNER, LETTER_A, LETTER_A, LETTER_A)
    ensures Holds(After(s, Ran(CLEAR_ONE_LEFT)), CORNER, LETTER_A, LETTER_A, Cell(' ', 7, true))
  {
    ClrLineSteps(s.model, s.full, CLEAR_ONE_LEFT);
    ClearedChanges(s.model, CountedStretch(CLEAR_ONE_LEFT));
    assert !SomeToBlank(s.model, CountedStretch(CLEAR_ONE_LEFT));
    AfterWellFormed(s, Ran(CLEAR_ONE_LEFT));
  }

  /** The shadow screen shortens a stretch that starts left of the screen to nothing, so the
      command is skipped; the renderer would have blanked the first cell. */
  lemma SkippingLeftOfTheScreen(g: Screen)
    requires ScreenOk(g) && g.w > 0 && g.h > 0
    ensures Holds(Played(Start(g), [Seeding(None), Ran(WRITE_A), Ran(CLEAR_ONE_LEFT)]), CORNER, LETTER_A, LETTER_A, Cell(' ', 7, true))
  {
    PlayedThree(Start(g), Seeding(None), Ran(WRITE_A), Ran(CLEAR_ONE_LEFT));
    SeededSized(g);
    AfterWriteA(After(Start(g), Seeding(None)));
    AfterClearLeft(After(After(Start(g), Seeding(None)), Ran(WRITE_A)));
  }

  // ---------------------------------------------------------------------------- half a shadow

  const SHADOWED_BOX := PutBox(1, 1, 1, 1, 0, 7, "", true)
  const WRITE_SHADE := Write(1, 3, 0, 8, " ")
  const STRAY := Pos(0, 2)

  lemma AfterShadowedBox(s: Session, cell: Cell)
    requires Sized(s) && s.model.w == 1 && s.model.h >= 3 && s.shown.cells[STRAY] == cell == s.full.cells[STRAY]
    ensures Holds(After(s, Ran(SHADOWED_BOX)), STRAY, SHADE, cell, cell)
  {
    var w, h := s.model.w, s.model.h;
    var r, o := BoxOf(w, h, SHADOWED_BOX), BoxCells(w, h, SHADOWED_BOX);
    assert r == Rect(0, 0, 0, 0);
    BoxSteps(s.model, s.shown, SHADOWED_BOX, r, o);
    BoxSteps(s.model, s.full, SHADOWED_BOX, r, o);
    HalfShadows(w, h, r, STRAY);
    AfterWellFormed(s, Ran(SHADOWED_BOX));
  }

  lemma AfterWriteShade(s: Session, cell: Cell)
    requires Holds(s, STRAY, SHADE, cell, cell) && s.model.w == 1
    ensures Holds(After(s, Ran(WRITE_SHADE)), STRAY, SHADE, cell, SHADE)
  {
    var o := WriteCells(s.model.w, s.model.h, WRITE_SHADE);
    assert STRAY in o && o[STRAY] == SHADE && forall p | p in o :: p == STRAY;
    NothingNew(s.model.cells, o);
    WriteSteps(s.model, s.full, WRITE_SHADE, o);
    AfterWellFormed(s, Ran(WRITE_SHADE));
  }

  /** With room only below, the shadow screen shades a cell the renderer does not: writing
      that shade there is skipped. */
  lemma SkippingUnderHalfAShadow(g: Screen)
    requires ScreenOk(g) && g.w == 1 && g.h >= 3
    ensures Holds(Played(Start(g), [Seeding(None), Ran(SHADOWED_BOX), Ran(WRITE_SHADE)]), STRAY, SHADE, g.cells[STRAY], SHADE)
  {
    PlayedThree(Start(g), Seeding(None), Ran(SHADOWED_BOX), Ran(WRITE_SHADE));
    SeededSized(g);
    AfterShadowedBox(After(Start(g), Seeding(None)), g.cells[STRAY]);
    AfterWriteShade(After(After(Start(g), Seeding(None)), Ran(SHADOWED_BOX)), g.cells[STRAY]);
  }

  // ------------------------------------------------------------------------ numbers and cursor

  const CLEAR := ClearScreen(7)
  const EMPTY := Cell(' ', 7, true)

  /** The shadow screen knows every cell to be blank. */
  ghost predicate AllBlank(s: Session) {
    Sized(s) && s.model.cells == BlankScreen(s.model.w, s.model.h, 7)
  }

  lemma AfterFirstClear(s: Session)
    requires Sized(s) && forall p | p in s.model.cells :: !s.model.cells[p].known
    ensures var t := After(s, Ran(CLEAR));
      && AllBlank(t) && t.shown == s.shown.(cells := t.shown.cells, cursor := CORNER, boxes := [])
      && t.full == s.full.(cells := t.full.cells, cursor := CORNER, boxes := [])
      && t.shown.cells == BlankScreen(s.shown.w, s.shown.h, 7) == t.full.cells
      && t.model.cursor == Some(Pos(1, 1)) && t.model.line.None? && t.model.col.None?
  {
    var o := BlankScreen(s.model.w, s.model.h, 7);
    assert s.model.cells + o == o && s.shown.cells + o == o && s.full.cells + o == o;
    assert s.model.cells[CORNER] != o[CORNER];
    AfterWellFormed(s, Ran(CLEAR));
  }

  /** A second clear-screen is skipped, whatever the screen shows. */
  lemma AfterSkippedClear(s: Session)
    requires AllBlank(s)
    ensures var t := After(s, Ran(CLEAR));
      && AllBlank(t) && t.shown == s.shown && t.full.cells == BlankScreen(s.full.w, s.full.h, 7) && t.full.cursor == CORNER
      && t.model == s.model.(cursor := Some(Pos(1, 1)), line := None, col := None)
  {
    var o := BlankScreen(s.model.w, s.model.h, 7);
    NothingNew(s.model.cells, o);
    assert s.full.cells + o == o;
    AfterWellFormed(s, Ran(CLEAR));
  }

  const SHOW_LINE := PutLineNum(5)

  /** Where the number field begins to be written. */
  function FieldStart(w: nat, h: nat, col: Option<int>): Pos {
    Pos(Max(Max(0, w - 24), w - |"L:" + NumberText(Some(5)) + " C:" + NumberText(col)|), h - 1)
  }

  lemma FieldBegins(w: nat, h: nat, col: Option<int>)
    requires w > 0 && h > 0
    ensures var p := FieldStart(w, h, col);
      OnScreen(p, w, h) && p in Numbers(w, h, Some(5), col) && Numbers(w, h, Some(5), col)[p] == Cell('L', 7, true)
  {
  }

  lemma NumberShown(s: Session, o: Cells, p: Pos, cell: Cell)
    requires AllBlank(s) && s.model.line.None? && OnScreen(p, s.shown.w, s.shown.h) && p in o && o[p] == cell
    requires Render(s.shown, SHOW_LINE).cells == s.shown.cells + o && Render(s.full, SHOW_LINE).cells == s.full.cells + o
    requires Project(s.model, SHOW_LINE).model.cells == s.model.cells
    ensures AllBlank(After(s, Ran(SHOW_LINE))) && Holds(After(s, Ran(SHOW_LINE)), p, EMPTY, cell, cell)
  {
    RenderedOk(s.shown, SHOW_LINE);
    RenderedOk(s.full, SHOW_LINE);
    AfterWellFormed(s, Ran(SHOW_LINE));
  }

  lemma AfterShowLine(s: Session)
    requires AllBlank(s) && s.model.line.None? && s.shown.col == s.full.col
    ensures var t := After(s, Ran(SHOW_LINE)); var p := FieldStart(s.shown.w, s.shown.h, s.shown.col);
      AllBlank(t) && Holds(t, p, EMPTY, Cell('L', 7, true), Cell('L', 7, true))
  {
    var o := Numbers(s.shown.w, s.shown.h, Some(5), s.shown.col);
    FieldBegins(s.shown.w, s.shown.h, s.shown.col);
    NumberSteps(s.model, s.shown, SHOW_LINE, o);
    NumberSteps(s.model, s.full, SHOW_LINE, o);
    NumberShown(s, o, FieldStart(s.shown.w, s.shown.h, s.shown.col), Cell('L', 7, true));
  }

  /** The shadow screen does not see the numbers: clearing the screen again is skipped and
      they stay. */
  lemma SkippingOverTheNumbers(g: Screen)
    requires ScreenOk(g) && g.w > 0 && g.h > 0
    ensures Holds(Played(Start(g), [Seeding(None), Ran(CLEAR), Ran(SHOW_LINE), Ran(CLEAR)]),
                  FieldStart(g.w, g.h, g.col), EMPTY, Cell('L', 7, true), EMPTY)
  {
    PlayedFour(Start(g), Seeding(None), Ran(CLEAR), Ran(SHOW_LINE), Ran(CLEAR));
    SeededSized(g);
    var s1 := After(Start(g), Seeding(None));
    AfterFirstClear(s1);
    var s2 := After(s1, Ran(CLEAR));
    AfterShowLine(s2);
    AfterSkippedClear(After(s2, Ran(SHOW_LINE)));
  }

  const DOWN := Gotoxy(1, 2)
  const CLEAR_ROW := ClrLine(0, 0, 0)

  lemma AfterDown(s: Session)
    requires AllBlank(s) && s.model.h >= 2 && s.model.cursor == Some(Pos(1, 1))
    ensures var t := After(s, Ran(DOWN)); AllBlank(t) && t.shown.cursor == Pos(0, 1) && t.shown.h == s.shown.h
  {
    AfterWellFormed(s, Ran(DOWN));
  }

  lemma AfterClearRow(s: Session)
    requires Holds(s, CORNER, LETTER_A, LETTER_A, LETTER_A)
    requires s.model.cursor == Some(Pos(1, 1)) && s.shown.cursor == Pos(0, 1) && s.full.cursor == CORNER && s.model.h >= 2
    ensures Holds(After(s, Ran(CLEAR_ROW)), CORNER, EMPTY, LETTER_A, EMPTY)
  {
    ClrLineSteps(s.model, s.shown, CLEAR_ROW);
    ClrLineSteps(s.model, s.full, CLEAR_ROW);
    assert CursorRow(s.model) == Rect(0, 0, s.model.w - 1, 0);
    ClearedChanges(s.model, CursorRow(s.model));
    assert Inside(CORNER, CursorRow(s.model)) && s.model.cells[CORNER] != EMPTY;
    AfterWellFormed(s, Ran(CLEAR_ROW));
  }

  lemma PlayedSix(s: Session, a: Event, b: Event, c: Event, d: Event, e: Event, f: Event)
    requires WellFormed(s) && EventOk(a) && EventOk(b) && EventOk(c) && EventOk(d) && EventOk(e) && EventOk(f)
    ensures EventsOk([a, b, c, d]) && EventsOk([a, b, c, d, e, f])
    ensures var t := Played(s, [a, b, c, d]);
      WellFormed(After(t, e)) && Played(s, [a, b, c, d, e, f]) == After(After(t, e), f)
  {
    PlayedLast(s, [a, b, c, d], e);
    PlayedLast(s, [a, b, c, d, e], f);
    assert [a, b, c, d] + [e] == [a, b, c, d, e] && [a, b, c, d, e] + [f] == [a, b, c, d, e, f];
  }

  /** A skipped clear-screen leaves the cursor where it was: a clear-line without arguments
      then blanks another row than it would have. */
  lemma SkippingLeavesTheCursor(g: Screen)
    requires ScreenOk(g) && g.w > 0 && g.h >= 2
    ensures Holds(Played(Start(g), [Seeding(None), Ran(CLEAR), Ran(DOWN), Ran(CLEAR), Ran(WRITE_A), Ran(CLEAR_ROW)]),
                  CORNER, EMPTY, LETTER_A, EMPTY)
  {
    PlayedSix(Start(g), Seeding(None), Ran(CLEAR), Ran(DOWN), Ran(CLEAR), Ran(WRITE_A), Ran(CLEAR_ROW));
    PlayedFour(Start(g), Seeding(None), Ran(CLEAR), Ran(DOWN), Ran(CLEAR));
    SeededSized(g);
    var s1 := After(Start(g), Seeding(None));
    AfterFirstClear(s1);
    var s2 := After(s1, Ran(CLEAR));
    AfterDown(s2);
    var s3 := After(s2, Ran(DOWN));
    AfterSkippedClear(s3);
    var s4 := After(s3, Ran(CLEAR));
    AfterWriteA(s4);
    AfterClearRow(After(s4, Ran(WRITE_A)));
  }
}
