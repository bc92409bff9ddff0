/** Whole playbacks: the screen when redundant commands are skipped, beside the screen when
    every command is rendered. */
module ScreenRuns {
  import opened Basics
  import opened ScreenCells
  import opened ScreenModel
  import opened ScreenSafety

  datatype Event =
    | Ran(command: Command)             // judged, and rendered if asked for
    | Broke(command: Command)           // rendering was asked for and failed
    | Dropped                           // the shadow screen is thrown away
    | Seeding(cursor: Option<Pos>)      // and set up again from the runtime
    | Disturbed(screen: Screen)         // somebody else drew on the screen

  /** `shown` is the screen as playback leaves it, `full` the same with nothing skipped,
      `tracked` whether all commands so far were tracked and alike for both screens. */
  datatype Session = Session(model: Model, shown: Screen, full: Screen, trust: Trust, tracked: bool)

  ghost predicate EventOk(e: Event) { e.Disturbed? ==> ScreenOk(e.screen) }

  ghost predicate WellFormed(s: Session) { ModelOk(s.model) && ScreenOk(s.shown) && ScreenOk(s.full) }

  predicate UsesCursor(c: Command) { c.ClrLine? && NoArguments(c) }

  /** A rendered command finds the same cursor or the same saved box on both screens, if it
      looks at it. */
  predicate Alike(m: Model, c: Command, t: Trust)
    requires ModelOk(m)
  {
    Project(m, c).render ==> (UsesCursor(c) ==> t.cursor) && (c.KillBox? ==> t.boxes)
  }

  ghost function After(s: Session, e: Event): Session
    requires WellFormed(s)
  {
    match e
    case Ran(c) =>
      Session(Project(s.model, c).model, Shown(s.model, s.shown, c), Render(s.full, c),
              NextTrust(s.model, c, s.trust), s.tracked && Tracked(s.model, c, s.trust) && Alike(s.model, c, s.trust))
    case Broke(_) => s.(model := UNSEEDED)
    case Dropped => s.(model := UNSEEDED)
    case Seeding(cursor) =>
      s.(model := Seeded(s.model, s.shown.w, s.shown.h, cursor), trust := s.trust.(cursor := false))
    case Disturbed(g) => s.(model := UNSEEDED, shown := g, full := g, trust := Trust(false, true))
  }

  /** The two screens show the same. */
  ghost predicate Same(a: Screen, b: Screen, t: Trust) {
    && a.w == b.w && a.h == b.h && a.cells == b.cells && a.line == b.line && a.col == b.col
    && (t.cursor && a.w > 0 && a.h > 0 ==> a.cursor == b.cursor)
    && (t.boxes && a.w > 0 && a.h > 0 ==> a.boxes == b.boxes)
  }

  ghost predicate Inv(s: Session) {
    && WellFormed(s)
    && (s.tracked ==> Agrees(s.model, s.shown, s.trust) && Same(s.shown, s.full, s.trust))
  }

  lemma AfterWellFormed(s: Session, e: Event)
    requires WellFormed(s) && EventOk(e)
    ensures WellFormed(After(s, e))
  {
    if e.Ran? {
      ProjectedOk(s.model, e.command);
      RenderedOk(s.shown, e.command);
      RenderedOk(s.full, e.command);
    }
  }

  /** Only a clear-line without arguments looks at the cursor and only closing a box looks
      at the saved boxes. */
  lemma RenderIgnores(a: Screen, b: Screen, c: Command)
    requires ScreenOk(a) && ScreenOk(b) && b == a.(cursor := b.cursor, boxes := b.boxes)
    requires a.w > 0 && a.h > 0 ==> (UsesCursor(c) ==> a.cursor == b.cursor) && (c.KillBox? ==> a.boxes == b.boxes)
    ensures Render(b, c).cells == Render(a, c).cells
  {
    if a.w > 0 && a.h > 0 {
      if c.ClrLine? { ClrLineIgnores(a, b, c); } else if c.KillBox? {} else { MostIgnore(a, b, c); }
    }
  }

  lemma ClrLineIgnores(a: Screen, b: Screen, c: Command)
    requires ScreenOk(a) && ScreenOk(b) && b == a.(cursor := b.cursor, boxes := b.boxes) && a.w > 0 && a.h > 0
    requires c.ClrLine? && (UsesCursor(c) ==> a.cursor == b.cursor)
    ensures Render(b, c).cells == Render(a, c).cells
  {
    assert ClearedStretch(a.w, a.h, a.cursor, c) == ClearedStretch(b.w, b.h, b.cursor, c);
  }

  lemma MostIgnore(a: Screen, b: Screen, c: Command)
    requires ScreenOk(a) && ScreenOk(b) && b == a.(cursor := b.cursor, boxes := b.boxes) && a.w > 0 && a.h > 0
    requires !c.ClrLine? && !c.KillBox?
    ensures Render(b, c).cells == Render(a, c).cells
  {
  }

  lemma RenderedNumbers(a: Screen, b: Screen, c: Command)
    requires ScreenOk(a) && ScreenOk(b) && b == a.(cursor := b.cursor, boxes := b.boxes)
    ensures Render(b, c).line == Render(a, c).line && Render(b, c).col == Render(a, c).col
    ensures Render(b, c).w == Render(a, c).w && Render(b, c).h == Render(a, c).h
  {
  }

  lemma RenderedCursor(a: Screen, b: Screen, c: Command)
    requires ScreenOk(a) && ScreenOk(b) && a.w == b.w && a.h == b.h
    ensures a.cursor == b.cursor ==> Render(a, c).cursor == Render(b, c).cursor
    ensures (c.Gotoxy? || c.ClearScreen?) && a.w > 0 && a.h > 0 ==> Render(a, c).cursor == Render(b, c).cursor
  {
  }

  lemma RenderedBoxes(a: Screen, b: Screen, c: Command)
    requires ScreenOk(a) && ScreenOk(b) && a.w == b.w && a.h == b.h && a.cells == b.cells
    ensures a.boxes == b.boxes ==> Render(a, c).boxes == Render(b, c).boxes
    ensures c.ClearScreen? && a.w > 0 && a.h > 0 ==> Render(a, c).boxes == Render(b, c).boxes
  {
  }

  lemma RenderedSame(m: Model, a: Screen, b: Screen, c: Command, t: Trust)
    requires ModelOk(m) && ScreenOk(a) && ScreenOk(b) && Same(a, b, t) && Alike(m, c, t) && Project(m, c).render
    ensures Same(Render(a, c), Render(b, c), NextTrust(m, c, t))
  {
    RenderIgnores(a, b, c);
    RenderedNumbers(a, b, c);
    RenderedOk(a, c);
    RenderedCursor(a, b, c);
    RenderedBoxes(a, b, c);
  }

  /** A skipped command leaves the screen alone, and rendering it would have moved the
      cursor or dropped saved boxes at most. */
  lemma SkippedSame(m: Model, a: Screen, b: Screen, c: Command, t: Trust)
    requires Agrees(m, a, t) && ScreenOk(b) && Same(a, b, t) && Tracked(m, c, t) && !Project(m, c).render
    ensures Same(a, Render(b, c), NextTrust(m, c, t))
  {
    assert Agrees(m, b, t);
    TrackedIsSafe(m, b, c, t);
  }

  lemma RanKeepsInv(s: Session, c: Command)
    requires Inv(s)
    ensures Inv(After(s, Ran(c)))
  {
    AfterWellFormed(s, Ran(c));
    if s.tracked && Tracked(s.model, c, s.trust) && Alike(s.model, c, s.trust) {
      TrackedIsSafe(s.model, s.shown, c, s.trust);
      if Project(s.model, c).render {
        RenderedSame(s.model, s.shown, s.full, c, s.trust);
      } else {
        SkippedSame(s.model, s.shown, s.full, c, s.trust);
      }
    }
  }

  lemma AfterKeepsInv(s: Session, e: Event)
    requires Inv(s) && EventOk(e)
    ensures Inv(After(s, e))
  {
    AfterWellFormed(s, e);
    if e.Ran? { RanKeepsInv(s, e.command); }
  }

  ghost predicate EventsOk(events: seq<Event>) {
    forall k | 0 <= k < |events| :: EventOk(events[k])
  }

  ghost function Played(s: Session, events: seq<Event>): (t: Session)
    requires WellFormed(s) && EventsOk(events)
    ensures WellFormed(t)
    decreases |events|
  {
    if events == [] then s
    else
      var before := Played(s, events[..|events| - 1]);
      AfterWellFormed(before, events[|events| - 1]);
      After(before, events[|events| - 1])
  }

  lemma PlayedLast(s: Session, events: seq<Event>, e: Event)
    requires WellFormed(s) && EventsOk(events) && EventOk(e)
    ensures EventsOk(events + [e]) && Played(s, events + [e]) == After(Played(s, events), e)
  {
    assert (events + [e])[..|events|] == events;
  }

  function Start(g: Screen): Session {
    Session(UNSEEDED, g, g, Trust(false, true), true)
  }

  lemma {:induction false} PlayedKeepsInv(s: Session, events: seq<Event>)
    requires Inv(s) && EventsOk(events)
    ensures Inv(Played(s, events))
    decreases |events|
  {
    if events != [] {
      var front := events[..|events| - 1];
      PlayedKeepsInv(s, front);
      AfterKeepsInv(Played(s, front), events[|events| - 1]);
    }
  }

  /** Skipping is safe: whatever the commands, failures, disturbances and fresh starts, if
      every command was tracked when it ran, the screen shows in every cell what it would
      show had nothing been skipped. */
  lemma SkippingIsSafe(g: Screen, events: seq<Event>)
    requires ScreenOk(g) && EventsOk(events)
    ensures var s := Played(Start(g), events); s.tracked ==> s.shown.cells == s.full.cells
  {
    PlayedKeepsInv(Start(g), events);
  }
}
