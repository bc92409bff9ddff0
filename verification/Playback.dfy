/** Deferred UI playback: a queue of command lists that survives between pumps, drained in
    slices of at most 48 commands
    (coprocessor/MRCoprocessorDeferredPlayback.cpp). */
module Playback {
  import opened Basics
  import opened ScreenCells
  import opened ScreenModel
  import opened ScreenSafety
  import opened ScreenRuns

  const BUDGET: nat := 48
  const SLICE_MILLIS: nat := 2

  datatype Playback = Playback(documentId: nat, displayName: string, commands: seq<Command>, nextIndex: nat,
                               applied: nat, skipped: nat, failed: nat, observedEpoch: nat,
                               waiting: bool, resumeAfter: nat, model: Model)

  /** What the pump asks of its surroundings, by the number of the question: the time, whether
      a rendering works, where the cursor is, and how often a rendering counted the screen
      as changed. */
  datatype Host = Host(clock: nat -> nat, succeeds: nat -> bool, cursor: nat -> Option<Pos>, mutations: nat -> nat)

  function Delays(commands: seq<Command>): nat {
    if commands == [] then 0
    else Delays(commands[..|commands| - 1]) + (if commands[|commands| - 1].Delay? then 1 else 0)
  }

  lemma DelaysNext(commands: seq<Command>, i: nat)
    requires i < |commands|
    ensures Delays(commands[..i + 1]) == Delays(commands[..i]) + (if commands[i].Delay? then 1 else 0)
  {
    assert commands[..i + 1][..i] == commands[..i];
  }

  /** Every command consumed was applied, skipped, failed or a delay. */
  ghost predicate Accounted(p: Playback) {
    && p.nextIndex <= |p.commands|
    && p.applied + p.skipped + p.failed + Delays(p.commands[..p.nextIndex]) == p.nextIndex
  }

  ghost predicate PlaybackOk(p: Playback) {
    && Accounted(p) && ModelOk(p.model) && 0 < |p.commands| && (p.waiting ==> p.resumeAfter > 0)
  }

  predicate Untouched(p: Playback) {
    && p.nextIndex == 0 && p.applied == p.skipped == p.failed == 0
    && p.observedEpoch == 0 && !p.waiting && p.model == UNSEEDED
  }

  function Fresh(documentId: nat, displayName: string, commands: seq<Command>): (p: Playback)
    ensures Untouched(p) && (commands != [] ==> PlaybackOk(p))
  {
    Playback(documentId, displayName, commands, 0, 0, 0, 0, 0, false, 0, UNSEEDED)
  }

  // ----------------------------------------------------------------- what happened to a command

  /** What became of a command, and by how much the count of screen changes grew. */
  datatype Outcome = Delayed | Skipped | Applied(changes: nat) | Failed(changes: nat)

  datatype Kind = Delaying | Skipping | Applying | Failing

  function KindOf(o: Outcome): Kind {
    match o
    case Delayed => Delaying
    case Skipped => Skipping
    case Applied(_) => Applying
    case Failed(_) => Failing
  }

  /** Command `index` of playback `id`, its outcome, and the number of the question that was
      put to the surroundings about it. */
  datatype Turn = Turn(id: nat, index: nat, command: Command, outcome: Outcome, tick: nat)

  type Lists = map<nat, seq<Command>>

  /** The next command of the same playback, or the first of the next one once this is done. */
  predicate Follows(a: Turn, b: Turn, lists: Lists) {
    || (b.id == a.id && b.index == a.index + 1)
    || (b.id == a.id + 1 && b.index == 0 && a.id in lists && a.index + 1 == |lists[a.id]|)
  }

  predicate IsTurn(t: Turn, lists: Lists) {
    t.id in lists && t.index < |lists[t.id]| && lists[t.id][t.index] == t.command && (t.outcome.Delayed? <==> t.command.Delay?)
  }

  /** From the first playback on every command once, in order, and one playback after the
      other; none is left out. */
  ghost predicate InOrder(log: seq<Turn>, lists: Lists) {
    && (log != [] ==> log[0].id == 1 && log[0].index == 0)
    && (forall i | 0 <= i < |log| :: IsTurn(log[i], lists))
    && (forall i | 0 < i < |log| :: Follows(log[i - 1], log[i], lists))
  }

  /** The log ends with turn `index - 1` of playback `id`, or, for index 0, with the end of
      the playback before it. */
  ghost predicate StandsAt(log: seq<Turn>, lists: Lists, id: nat, index: nat) {
    if index > 0 then log != [] && log[|log| - 1].id == id && log[|log| - 1].index == index - 1
    else if log == [] then id == 1
    else log[|log| - 1].id + 1 == id && log[|log| - 1].id in lists && log[|log| - 1].index + 1 == |lists[log[|log| - 1].id]|
  }

  lemma TurnTaken(log: seq<Turn>, lists: Lists, t: Turn)
    requires InOrder(log, lists) && StandsAt(log, lists, t.id, t.index) && IsTurn(t, lists)
    ensures InOrder(log + [t], lists) && StandsAt(log + [t], lists, t.id, t.index + 1)
  {
  }

  /** In such a log no command has two turns. */
  lemma {:induction false} LaterTurns(log: seq<Turn>, lists: Lists, i: nat, j: nat)
    requires InOrder(log, lists) && i < j < |log|
    ensures log[i].id < log[j].id || (log[i].id == log[j].id && log[i].index < log[j].index)
    decreases j - i
  {
    assert Follows(log[j - 1], log[j], lists);
    if i < j - 1 { LaterTurns(log, lists, i, j - 1); }
  }

  /** Before a turn of a playback it has had all its earlier ones. */
  lemma {:induction false} AllEarlierTurns(log: seq<Turn>, lists: Lists, j: nat, k: nat)
    requires InOrder(log, lists) && j < |log| && k <= log[j].index
    ensures exists i :: 0 <= i <= j && log[i].id == log[j].id && log[i].index == k
    decreases j
  {
    if k < log[j].index {
      assert Follows(log[j - 1], log[j], lists);
      AllEarlierTurns(log, lists, j - 1, k);
    }
  }

  /** Every playback before the one that has the last turn has had all its turns. */
  lemma {:induction false} EarlierPlaybacksRan(log: seq<Turn>, lists: Lists, id: nat, k: nat)
    requires InOrder(log, lists) && log != [] && 0 < id < log[|log| - 1].id && id in lists && k < |lists[id]|
    ensures exists i :: 0 <= i < |log| && log[i].id == id && log[i].index == k
    decreases |log|
  {
    var n := |log| - 1;
    assert n > 0 && Follows(log[n - 1], log[n], lists);
    var front := log[..n];
    assert InOrder(front, lists) by {
      forall i | 0 < i < |front| ensures Follows(front[i - 1], front[i], lists) { assert Follows(log[i - 1], log[i], lists); }
    }
    if log[n - 1].id == id {
      AllEarlierTurns(log, lists, n - 1, k);
    } else {
      EarlierPlaybacksRan(front, lists, id, k);
      var i :| 0 <= i < |front| && front[i].id == id && front[i].index == k;
      assert log[i].id == id && log[i].index == k;
    }
  }

  /** How many commands of the playback had this outcome. */
  function Tally(log: seq<Turn>, id: nat, kind: Kind): nat {
    if log == [] then 0
    else
      var t := log[|log| - 1];
      Tally(log[..|log| - 1], id, kind) + (if t.id == id && KindOf(t.outcome) == kind then 1 else 0)
  }

  lemma TallyLast(log: seq<Turn>, t: Turn, id: nat, kind: Kind)
    ensures Tally(log + [t], id, kind) == Tally(log, id, kind) + (if t.id == id && KindOf(t.outcome) == kind then 1 else 0)
  {
    assert (log + [t])[..|log|] == log;
  }

  lemma {:induction false} TallyNothing(log: seq<Turn>, id: nat, kind: Kind)
    requires forall i | 0 <= i < |log| :: log[i].id != id
    ensures Tally(log, id, kind) == 0
    decreases |log|
  {
    if log != [] { TallyNothing(log[..|log| - 1], id, kind); }
  }

  /** The counts of the playback are those of its turns. */
  ghost predicate Counted(p: Playback, log: seq<Turn>, id: nat) {
    && p.applied == Tally(log, id, Applying) && p.skipped == Tally(log, id, Skipping) && p.failed == Tally(log, id, Failing)
  }

  // --------------------------------------------------------------------------------- the history

  /** The screen at first, what happened to it and the shadow screen since, the commands
      consumed, and all command lists ever queued. */
  datatype History = History(first: Screen, events: seq<Event>, log: seq<Turn>, lists: Lists)

  /** The outcome is the one the shadow screen and the renderer gave. */
  predicate Fits(m: Model, e: Event, o: Outcome)
    requires ModelOk(m) && (e.Ran? || e.Broke?)
  {
    if e.Broke? then o.Failed? && Project(m, e.command).render
    else if Project(m, e.command).render then o.Applied? else o.Skipped?
  }

  ghost function SessionOf(first: Screen, events: seq<Event>): Session
    requires ScreenOk(first) && EventsOk(events)
  {
    Played(Start(first), events)
  }

  /** The events are those of the consumed commands, in their order and with their outcomes,
      and nothing is logged that did not happen; delays leave no event. */
  ghost predicate Told(first: Screen, events: seq<Event>, log: seq<Turn>)
    requires ScreenOk(first) && EventsOk(events)
    decreases |events| + |log|
  {
    if log != [] && log[|log| - 1].outcome.Delayed? then Told(first, events, log[..|log| - 1])
    else if events == [] then log == []
    else
      var e, before := events[|events| - 1], events[..|events| - 1];
      if e.Ran? || e.Broke? then
        && log != [] && log[|log| - 1].command == e.command
        && Fits(SessionOf(first, before).model, e, log[|log| - 1].outcome)
        && Told(first, before, log[..|log| - 1])
      else Told(first, before, log)
  }

  lemma ToldDelay(first: Screen, events: seq<Event>, log: seq<Turn>, t: Turn)
    requires ScreenOk(first) && EventsOk(events) && Told(first, events, log) && t.outcome.Delayed?
    ensures Told(first, events, log + [t])
  {
    assert (log + [t])[..|log|] == log;
  }

  lemma ToldWork(first: Screen, events: seq<Event>, log: seq<Turn>, e: Event, t: Turn)
    requires ScreenOk(first) && EventsOk(events) && Told(first, events, log)
    requires (e.Ran? || e.Broke?) && t.command == e.command && !t.outcome.Delayed? && Fits(SessionOf(first, events).model, e, t.outcome)
    ensures EventsOk(events + [e]) && Told(first, events + [e], log + [t])
  {
    assert (log + [t])[..|log|] == log && (events + [e])[..|events|] == events;
  }

  lemma {:induction false} ToldNote(first: Screen, events: seq<Event>, log: seq<Turn>, e: Event)
    requires ScreenOk(first) && EventsOk(events) && Told(first, events, log) && EventOk(e) && !e.Ran? && !e.Broke?
    ensures EventsOk(events + [e]) && Told(first, events + [e], log)
    decreases |log|
  {
    assert (events + [e])[..|events|] == events;
    if log != [] && log[|log| - 1].outcome.Delayed? { ToldNote(first, events, log[..|log| - 1], e); }
  }

  ghost predicate HistoryOk(h: History) {
    && ScreenOk(h.first) && EventsOk(h.events) && InOrder(h.log, h.lists) && Told(h.first, h.events, h.log)
  }

  ghost function Now(h: History): (s: Session)
    requires HistoryOk(h)
    ensures Inv(s)
  {
    PlayedKeepsInv(Start(h.first), h.events);
    SessionOf(h.first, h.events)
  }

  /** What the screen shows for whole histories: if every command was tracked, every cell is
      as if no command had been skipped. */
  lemma HistoryIsSafe(h: History)
    requires HistoryOk(h)
    ensures Now(h).tracked ==> Now(h).shown.cells == Now(h).full.cells
  {
    SkippingIsSafe(h.first, h.events);
  }

  function Noted(h: History, e: Event): History { h.(events := h.events + [e]) }

  lemma NotedOk(h: History, e: Event)
    requires HistoryOk(h) && EventOk(e) && !e.Ran? && !e.Broke?
    ensures HistoryOk(Noted(h, e)) && Now(Noted(h, e)) == After(Now(h), e)
  {
    ToldNote(h.first, h.events, h.log, e);
    PlayedLast(Start(h.first), h.events, e);
  }

  // ------------------------------------------------------------------------------- the queue

  /** A stored playback under its number. */
  datatype Entry = Entry(id: nat, playback: Playback)

  /** The store listed by ascending number, up to the last number given; only the first
      playback has been started. */
  ghost predicate QueueOk(queue: seq<Entry>, lastId: nat, lists: Lists) {
    && (forall id | id in lists :: 0 < id <= lastId)
    && (forall k | 0 <= k < |queue| :: PlaybackOk(queue[k].playback) && queue[k].id in lists && lists[queue[k].id] == queue[k].playback.commands)
    && (forall k | 0 <= k < |queue| :: queue[k].id == lastId - |queue| + 1 + k)
    && (forall k | 1 <= k < |queue| :: Untouched(queue[k].playback))
  }

  /** Where the log stands: before the first playback of the queue, or inside it; with an
      empty queue, at the end of all there were. */
  ghost predicate LogFits(log: seq<Turn>, lists: Lists, queue: seq<Entry>, lastId: nat) {
    if queue != [] then StandsAt(log, lists, queue[0].id, queue[0].playback.nextIndex) && Counted(queue[0].playback, log, queue[0].id)
    else StandsAt(log, lists, lastId + 1, 0)
  }

  /** The stored shadow screen is that of the session as long as nobody else drew. */
  ghost predicate ModelInUse(p: Playback, epoch: nat, s: Session) {
    && p.observedEpoch <= epoch
    && s.model == (if p.observedEpoch == epoch then p.model else UNSEEDED)
    && (p.observedEpoch == 0 ==> p.model == UNSEEDED)
  }

  ghost predicate SessionFits(s: Session, queue: seq<Entry>, screen: Screen, epoch: nat) {
    && s.shown == screen && epoch > 0
    && if queue != [] then ModelInUse(queue[0].playback, epoch, s) else s.model == UNSEEDED
  }

  lemma InOrderExtended(log: seq<Turn>, lists: Lists, id: nat, commands: seq<Command>)
    requires InOrder(log, lists) && id !in lists
    ensures InOrder(log, lists[id := commands])
  {
    forall i | 0 < i < |log| ensures Follows(log[i - 1], log[i], lists[id := commands]) {
      assert Follows(log[i - 1], log[i], lists);
    }
  }

  /** A playback that comes after every turn so far has no turn yet. */
  lemma LaterHasNoTurn(log: seq<Turn>, lists: Lists, id: nat, p: Playback)
    requires InOrder(log, lists) && (log != [] ==> log[|log| - 1].id < id) && Untouched(p)
    ensures Counted(p, log, id)
  {
    forall i | 0 <= i < |log| ensures log[i].id != id {
      if i < |log| - 1 { LaterTurns(log, lists, i, |log| - 1); }
    }
    TallyNothing(log, id, Applying);
    TallyNothing(log, id, Skipping);
    TallyNothing(log, id, Failing);
  }

  /** Queue, history, screen and count of changes go together. */
  ghost predicate StoreOk(queue: seq<Entry>, lastId: nat, h: History, screen: Screen, epoch: nat) {
    && QueueOk(queue, lastId, h.lists) && HistoryOk(h) && LogFits(h.log, h.lists, queue, lastId) && SessionFits(Now(h), queue, screen, epoch)
  }

  lemma EnqueuedQueue(queue: seq<Entry>, lastId: nat, lists: Lists, p: Playback)
    requires QueueOk(queue, lastId, lists) && PlaybackOk(p) && Untouched(p)
    ensures QueueOk(queue + [Entry(lastId + 1, p)], lastId + 1, lists[lastId + 1 := p.commands])
  {
  }

  lemma EnqueuedLog(queue: seq<Entry>, lastId: nat, log: seq<Turn>, lists: Lists, p: Playback)
    requires QueueOk(queue, lastId, lists) && InOrder(log, lists) && LogFits(log, lists, queue, lastId) && Untouched(p)
    ensures LogFits(log, lists[lastId + 1 := p.commands], queue + [Entry(lastId + 1, p)], lastId + 1)
  {
    if queue == [] { LaterHasNoTurn(log, lists, lastId + 1, p); }
    assert queue != [] ==> (queue + [Entry(lastId + 1, p)])[0] == queue[0];
  }

  lemma EnqueuedHistory(h: History, id: nat, commands: seq<Command>)
    requires HistoryOk(h) && id !in h.lists
    ensures HistoryOk(h.(lists := h.lists[id := commands])) && Now(h.(lists := h.lists[id := commands])) == Now(h)
  {
    InOrderExtended(h.log, h.lists, id, commands);
  }

  lemma Enqueued(queue: seq<Entry>, lastId: nat, h: History, screen: Screen, epoch: nat, p: Playback, more: seq<Entry>, next: History)
    requires StoreOk(queue, lastId, h, screen, epoch) && PlaybackOk(p) && Untouched(p)
    requires more == queue + [Entry(lastId + 1, p)] && next == h.(lists := h.lists[lastId + 1 := p.commands])
    ensures StoreOk(more, lastId + 1, next, screen, epoch)
  {
    EnqueuedQueue(queue, lastId, h.lists, p);
    EnqueuedLog(queue, lastId, h.log, h.lists, p);
    EnqueuedHistory(h, lastId + 1, p.commands);
    assert queue != [] ==> more[0] == queue[0];
  }

  // -------------------------------------------------------------------------------- one slice

  /** A playback taken from the store, and the history that goes with it. */
  ghost predicate Running(id: nat, p: Playback, epoch: nat, h: History, screen: Screen) {
    && PlaybackOk(p) && HistoryOk(h) && Now(h).shown == screen && Now(h).model == p.model
    && p.observedEpoch == epoch && epoch > 0
    && id in h.lists && h.lists[id] == p.commands && StandsAt(h.log, h.lists, id, p.nextIndex) && Counted(p, h.log, id)
  }

  lemma StillAccounted(p: Playback, q: Playback)
    requires PlaybackOk(p) && p.nextIndex < |p.commands| && q.commands == p.commands && q.nextIndex == p.nextIndex + 1
    requires q.applied + q.skipped + q.failed
          == p.applied + p.skipped + p.failed + (if p.commands[p.nextIndex].Delay? then 0 else 1)
    ensures Accounted(q)
  {
    DelaysNext(p.commands, p.nextIndex);
  }

  /** What the shadow screen and the renderer make of the next command. */
  function Judged(p: Playback, host: Host, tick: nat): Outcome
    requires ModelOk(p.model) && p.nextIndex < |p.commands|
  {
    var c := p.commands[p.nextIndex];
    if c.Delay? then Delayed
    else if !Project(p.model, c).render then Skipped
    else if host.succeeds(tick) then Applied(host.mutations(tick))
    else Failed(host.mutations(tick))
  }

  function EventOf(o: Outcome, c: Command): Event {
    if o.Failed? then Broke(c) else Ran(c)
  }

  function TurnOf(id: nat, p: Playback, o: Outcome, tick: nat): Turn
    requires p.nextIndex < |p.commands|
  {
    Turn(id, p.nextIndex, p.commands[p.nextIndex], o, tick)
  }

  function Continued(h: History, id: nat, p: Playback, o: Outcome, tick: nat): History
    requires p.nextIndex < |p.commands|
  {
    h.(log := h.log + [TurnOf(id, p, o, tick)],
       events := if o.Delayed? then h.events else h.events + [EventOf(o, p.commands[p.nextIndex])])
  }

  function Changes(o: Outcome): nat { if o.Applied? || o.Failed? then o.changes else 0 }

  function Consumed(p: Playback, o: Outcome, epoch: nat, now: nat): Playback
    requires ModelOk(p.model) && p.nextIndex < |p.commands| && (o.Delayed? <==> p.commands[p.nextIndex].Delay?)
  {
    var c := p.commands[p.nextIndex];
    var next := p.(nextIndex := p.nextIndex + 1);
    match o
    case Delayed => if c.millis > 0 then next.(waiting := true, resumeAfter := now + c.millis) else next
    case Skipped => next.(skipped := p.skipped + 1, model := Project(p.model, c).model)
    case Applied(n) => next.(applied := p.applied + 1, model := Project(p.model, c).model, observedEpoch := epoch + n)
    case Failed(n) => next.(failed := p.failed + 1, model := UNSEEDED, observedEpoch := epoch + n)
  }

  /** The outcome is one the shadow screen allows. */
  predicate Allowed(p: Playback, o: Outcome)
    requires ModelOk(p.model) && p.nextIndex < |p.commands|
  {
    var c := p.commands[p.nextIndex];
    if c.Delay? then o.Delayed? else if Project(p.model, c).render then o.Applied? || o.Failed? else o.Skipped?
  }

  lemma ContinuedOk(id: nat, p: Playback, o: Outcome, tick: nat, epoch: nat, h: History, screen: Screen)
    requires Running(id, p, epoch, h, screen) && p.nextIndex < |p.commands| && Allowed(p, o)
    ensures var next := Continued(h, id, p, o, tick);
      && HistoryOk(next) && StandsAt(next.log, next.lists, id, p.nextIndex + 1)
      && Now(next) == if o.Delayed? then Now(h) else After(Now(h), EventOf(o, p.commands[p.nextIndex]))
  {
    var c, t := p.commands[p.nextIndex], TurnOf(id, p, o, tick);
    TurnTaken(h.log, h.lists, t);
    if o.Delayed? {
      ToldDelay(h.first, h.events, h.log, t);
    } else {
      ToldWork(h.first, h.events, h.log, EventOf(o, c), t);
      PlayedLast(Start(h.first), h.events, EventOf(o, c));
    }
  }

  lemma CountsNext(p: Playback, q: Playback, log: seq<Turn>, t: Turn, id: nat)
    requires Counted(p, log, id) && t.id == id
    requires q.applied == p.applied + (if t.outcome.Applied? then 1 else 0)
    requires q.skipped == p.skipped + (if t.outcome.Skipped? then 1 else 0)
    requires q.failed == p.failed + (if t.outcome.Failed? then 1 else 0)
    ensures Counted(q, log + [t], id)
  {
    TallyLast(log, t, id, Applying);
    TallyLast(log, t, id, Skipping);
    TallyLast(log, t, id, Failing);
  }

  /** One consumed command keeps the accounts, the order and the agreement of the shadow
      screen with the screen. */
  lemma ConsumedRuns(id: nat, p: Playback, o: Outcome, tick: nat, epoch: nat, now: nat, h: History, screen: Screen)
    requires Running(id, p, epoch, h, screen) && p.nextIndex < |p.commands| && Allowed(p, o)
    ensures ScreenOk(screen) && Running(id, Consumed(p, o, epoch, now), epoch + Changes(o), Continued(h, id, p, o, tick),
                    if o.Applied? then Render(screen, p.commands[p.nextIndex]) else screen)
  {
    ContinuedOk(id, p, o, tick, epoch, h, screen);
    CountsNext(p, Consumed(p, o, epoch, now), h.log, TurnOf(id, p, o, tick), id);
    ConsumedOk(p, o, epoch, now);
    if !o.Delayed? { ConsumedShows(p, o, epoch, now, Now(h)); }
  }

  lemma ConsumedOk(p: Playback, o: Outcome, epoch: nat, now: nat)
    requires PlaybackOk(p) && p.nextIndex < |p.commands| && Allowed(p, o)
    ensures PlaybackOk(Consumed(p, o, epoch, now))
  {
    StillAccounted(p, Consumed(p, o, epoch, now));
    ProjectedOk(p.model, p.commands[p.nextIndex]);
  }

  /** Screen and shadow screen after a command are those of its event. */
  lemma ConsumedShows(p: Playback, o: Outcome, epoch: nat, now: nat, s: Session)
    requires WellFormed(s) && s.model == p.model && p.nextIndex < |p.commands| && Allowed(p, o) && !o.Delayed?
    ensures var c := p.commands[p.nextIndex];
      var t := After(s, EventOf(o, c));
      t.model == Consumed(p, o, epoch, now).model && t.shown == if o.Applied? then Render(s.shown, c) else s.shown
  {
  }

  /** What the loop does with one command, said without its outcome: a delay of some length is waited for from now on and
      ends the slice; any other command is counted as skipped if it need not be rendered, else as applied or failed as the
      renderer answers. */
  lemma ConsumedExactly(p: Playback, host: Host, tick: nat, epoch: nat)
    requires ModelOk(p.model) && p.nextIndex < |p.commands|
    ensures var q := Consumed(p, Judged(p, host, tick), epoch, host.clock(tick));
      && q.commands == p.commands && q.nextIndex == p.nextIndex + 1 && q.documentId == p.documentId && q.displayName == p.displayName
      && match p.commands[p.nextIndex]
         case Delay(millis) =>
           && q.applied == p.applied && q.skipped == p.skipped && q.failed == p.failed && q.model == p.model
           && if millis > 0 then q.waiting && q.resumeAfter == host.clock(tick) + millis else q.waiting == p.waiting && q.resumeAfter == p.resumeAfter
         case c =>
           var rendered, works := Project(p.model, c).render, host.succeeds(tick);
           && q.waiting == p.waiting && q.resumeAfter == p.resumeAfter
           && q.applied == p.applied + (if rendered && works then 1 else 0)
           && q.skipped == p.skipped + (if rendered then 0 else 1)
           && q.failed == p.failed + (if rendered && !works then 1 else 0)
           && q.model == (if rendered && !works then UNSEEDED else Project(p.model, c).model)
           && q.observedEpoch == if rendered then epoch + host.mutations(tick) else p.observedEpoch
  {
  }

  /** The playback as a slice starts with it: no longer waiting, its shadow screen thrown
      away if somebody else drew since, and set up again if need be. */
  function Prepared(p: Playback, epoch: nat, screen: Screen, cursor: Option<Pos>): Playback {
    var model := if p.observedEpoch == 0 || p.observedEpoch == epoch then p.model else UNSEEDED;
    p.(waiting := false, resumeAfter := 0, observedEpoch := epoch,
       model := if model.seeded then model else Seeded(model, screen.w, screen.h, cursor))
  }

  ghost function PreparedHistory(h: History, cursor: Option<Pos>): History
    requires HistoryOk(h)
  {
    if Now(h).model.seeded then h else Noted(h, Seeding(cursor))
  }

  lemma PreparedRuns(queue: seq<Entry>, lastId: nat, epoch: nat, h: History, screen: Screen, cursor: Option<Pos>)
    requires queue != [] && StoreOk(queue, lastId, h, screen, epoch)
    ensures Running(queue[0].id, Prepared(queue[0].playback, epoch, screen, cursor), epoch, PreparedHistory(h, cursor), screen)
  {
    NotedOk(h, Seeding(cursor));
  }

  lemma Stored(queue: seq<Entry>, lastId: nat, epoch: nat, h: History, screen: Screen, p: Playback)
    requires queue != [] && QueueOk(queue, lastId, h.lists) && Running(queue[0].id, p, epoch, h, screen)
    ensures StoreOk(queue[0 := queue[0].(playback := p)], lastId, h, screen, epoch)
  {
  }

  /** The first playback is done; the next, if any, is untouched. */
  lemma Erased(queue: seq<Entry>, lastId: nat, epoch: nat, h: History, screen: Screen, p: Playback)
    requires queue != [] && QueueOk(queue, lastId, h.lists) && Running(queue[0].id, p, epoch, h, screen) && p.nextIndex == |p.commands|
    ensures StoreOk(queue[1..], lastId, Noted(h, Dropped), screen, epoch)
  {
    NotedOk(h, Dropped);
    if |queue| > 1 {
      assert queue[1..][0] == queue[1];
      LaterHasNoTurn(h.log, h.lists, queue[1].id, queue[1].playback);
    }
  }

  // --------------------------------------------------------------------------------- the class

  /** The time was not up when the turn began, and its outcome is what the surroundings answered. */
  predicate Answered(t: Turn, host: Host, deadline: nat) {
    host.clock(t.tick) < deadline && match t.outcome
    case Applied(n) => host.succeeds(t.tick) && n == host.mutations(t.tick)
    case Failed(n) => !host.succeeds(t.tick) && n == host.mutations(t.tick)
    case _ => true
  }

  /** What a pump may add to the history between two questions: turns, each with an answer of
      its own, their events, and no drawing by others. */
  ghost predicate Extends(h: History, next: History, host: Host, deadline: nat, from: nat, to: nat) {
    && next.first == h.first && next.lists == h.lists && h.log <= next.log && h.events <= next.events && from <= to
    && (forall i | |h.events| <= i < |next.events| :: !next.events[i].Disturbed?)
    && (forall i | |h.log| <= i < |next.log| :: Answered(next.log[i], host, deadline) && from <= next.log[i].tick < to)
    && (forall i, j | |h.log| <= i < j < |next.log| :: next.log[i].tick < next.log[j].tick)
  }

  lemma ExtendsThen(a: History, b: History, c: History, host: Host, deadline: nat, from: nat, mid: nat, to: nat)
    requires Extends(a, b, host, deadline, from, mid) && Extends(b, c, host, deadline, mid, to)
    ensures Extends(a, c, host, deadline, from, to)
  {
    forall i | |a.events| <= i < |c.events| ensures !c.events[i].Disturbed? {
      if i < |b.events| { assert c.events[i] == b.events[i]; }
    }
    forall i | 0 <= i < |b.log| ensures c.log[i] == b.log[i] {}
  }

  /** `n` turns of playback `id` have been added. */
  ghost predicate Sliced(h: History, next: History, host: Host, deadline: nat, id: nat, n: int, from: nat, to: nat) {
    && Extends(h, next, host, deadline, from, to) && |next.log| == |h.log| + n
    && forall i | |h.log| <= i < |next.log| :: next.log[i].id == id
  }

  lemma SlicedNext(h: History, next: History, host: Host, deadline: nat, id: nat, n: int, p: Playback, from: nat, tick: nat)
    requires Sliced(h, next, host, deadline, id, n, from, tick) && ModelOk(p.model) && p.nextIndex < |p.commands|
    requires host.clock(tick) < deadline
    ensures Sliced(h, Continued(next, id, p, Judged(p, host, tick), tick), host, deadline, id, n + 1, from, tick + 1)
  {
    var last := Continued(next, id, p, Judged(p, host, tick), tick);
    assert Extends(next, last, host, deadline, tick, tick + 1);
    ExtendsThen(h, next, last, host, deadline, from, tick, tick + 1);
    forall i | |h.log| <= i < |last.log| ensures last.log[i].id == id {
      if i < |next.log| { assert last.log[i] == next.log[i]; }
    }
  }

  lemma SliceExtends(h: History, cursor: Option<Pos>, run: History, host: Host, deadline: nat, from: nat, to: nat)
    requires HistoryOk(h) && Extends(PreparedHistory(h, cursor), run, host, deadline, from, to)
    ensures Extends(h, run, host, deadline, from, to)
  {
    assert Extends(h, PreparedHistory(h, cursor), host, deadline, from, from);
    ExtendsThen(h, PreparedHistory(h, cursor), run, host, deadline, from, from, to);
  }

  lemma DropExtends(h: History, run: History, host: Host, deadline: nat, from: nat, to: nat)
    requires Extends(h, run, host, deadline, from, to)
    ensures Extends(h, Noted(run, Dropped), host, deadline, from, to)
  {
    assert Extends(run, Noted(run, Dropped), host, deadline, to, to);
    ExtendsThen(h, run, Noted(run, Dropped), host, deadline, from, to, to);
  }

  /** An answer of the clock, asked between two ticks, was not before the deadline. */
  ghost predicate TimeIsUp(host: Host, deadline: nat, from: nat, to: nat) {
    exists k :: from <= k <= to && deadline <= host.clock(k)
  }

  /** Between two ticks the clock was asked and the delay was not over. */
  ghost predicate TooEarly(p: Playback, host: Host, from: nat, to: nat) {
    exists k :: from <= k <= to && host.clock(k) < p.resumeAfter
  }

  /** A millisecond after an answer of the clock. */
  ghost predicate Soon(due: nat, host: Host, from: nat, to: nat) {
    exists k :: from <= k <= to && due == host.clock(k) + 1
  }

  /** Why a pump stops before playback `p` is done, and when it wants to come back: at the end
      of a delay, which it has just met or found not yet over; or soon, since the budget is
      spent, the time is up or a delay of no length came. */
  ghost predicate ComesBack(due: nat, p: Playback, host: Host, deadline: nat, spent: bool, paused: bool, from: nat, to: nat) {
    || (p.waiting && due == p.resumeAfter && (paused || TooEarly(p, host, from, to)))
    || (Soon(due, host, from, to) && (spent || TimeIsUp(host, deadline, from, to) || (paused && !p.waiting)))
  }

  /** The first playback waits, and the clock asked at this tick is before its time. */
  ghost predicate DelayIsNotOver(queue: seq<Entry>, host: Host, tick: nat) {
    queue != [] && queue[0].playback.waiting && host.clock(tick) < queue[0].playback.resumeAfter
  }

  /** A bound on the ticks of a pump: one for each turn, and two for each playback it looks at. */
  function AskedAtMost(turns: int, erased: int): int { turns + 2 * erased + 3 }

  /** The last of the turns added is a delay. */
  ghost predicate Paused(log: seq<Turn>, next: seq<Turn>) {
    |log| < |next| && next[|next| - 1].outcome.Delayed?
  }

  /** A pump that last asked at tick `to`: what it added, and why it stopped. */
  ghost predicate PumpedUntil(to: nat, h: History, next: History, before: seq<Entry>, after: seq<Entry>, due: nat, host: Host, deadline: nat) {
    && Extends(h, next, host, deadline, 1, to) && to <= AskedAtMost(|next.log| - |h.log|, |before| - |after|)
    && (after != [] ==>
          ComesBack(due, after[0].playback, host, deadline, |next.log| == |h.log| + BUDGET, Paused(h.log, next.log), 1, to))
  }

  class PlaybackQueue {
    var queue: seq<Entry>
    var lastId: nat
    var screen: Screen
    var epoch: nat
    ghost var history: History

    ghost predicate Valid()
      reads this
    {
      StoreOk(queue, lastId, history, screen, epoch)
    }

    constructor (screen: Screen)
      requires ScreenOk(screen)
      ensures Valid() && queue == [] && history == History(screen, [], [], map[])
    {
      queue, lastId, epoch := [], 0, 1;
      this.screen := screen;
      history := History(screen, [], [], map[]);
    }

    /** `queueDeferredMacroUiPlayback`: a new playback goes behind all others; an empty list is
        ignored. */
    method Enqueue(documentId: nat, displayName: string, commands: seq<Command>)
      requires Valid()
      modifies this`queue, this`lastId, this`history
      ensures Valid()
      ensures lastId == old(lastId) + (if commands == [] then 0 else 1)
      ensures queue == old(queue) + (if commands == [] then [] else [Entry(lastId, Fresh(documentId, displayName, commands))])
      ensures history == old(history).(lists := if commands == [] then old(history).lists else old(history).lists[lastId := commands])
    {
      if commands != [] { Append(Fresh(documentId, displayName, commands)); }
    }

    method Append(p: Playback)
      requires Valid() && PlaybackOk(p) && Untouched(p)
      modifies this`queue, this`lastId, this`history
      ensures Valid() && lastId == old(lastId) + 1 && queue == old(queue) + [Entry(lastId, p)]
      ensures history == old(history).(lists := old(history).lists[lastId := p.commands])
    {
      var more := queue + [Entry(lastId + 1, p)];
      ghost var next := history.(lists := history.lists[lastId + 1 := p.commands]);
      Enqueued(queue, lastId, history, screen, epoch, p, more, next);
      queue, lastId, history := more, lastId + 1, next;
    }

    /** Somebody else draws on the screen; the program counts every such change. */
    method Disturb(drawn: Screen, changes: nat)
      requires Valid() && ScreenOk(drawn) && changes > 0
      modifies this`screen, this`epoch, this`history
      ensures Valid() && screen == drawn && history == Noted(old(history), Disturbed(drawn))
    {
      NotedOk(history, Disturbed(drawn));
      screen, epoch, history := drawn, epoch + changes, Noted(history, Disturbed(drawn));
    }

    /** One command of the playback being run. */
    method Consume(id: nat, p: Playback, host: Host, tick: nat) returns (q: Playback)
      requires Running(id, p, epoch, history, screen) && p.nextIndex < |p.commands|
      modifies this`screen, this`epoch, this`history
      ensures Running(id, q, epoch, history, screen)
      ensures var o := Judged(p, host, tick);
        && q == Consumed(p, o, old(epoch), host.clock(tick)) && history == Continued(old(history), id, p, o, tick)
        && epoch == old(epoch) + (match o case Applied(n) => n case Failed(n) => n case _ => 0)
        && screen == if o.Applied? then Render(old(screen), p.commands[p.nextIndex]) else old(screen)
    {
      var c, o := p.commands[p.nextIndex], Judged(p, host, tick);
      ConsumedRuns(id, p, o, tick, epoch, host.clock(tick), history, screen);
      q := Consumed(p, o, epoch, host.clock(tick));
      screen, epoch, history := if o.Applied? then Render(screen, c) else screen, epoch + Changes(o), Continued(history, id, p, o, tick);
    }

    method ConsumeNext(id: nat, p: Playback, host: Host, ghost deadline: nat, tick: nat, ghost h: History, ghost n: int, ghost from: nat) returns (q: Playback)
      requires Running(id, p, epoch, history, screen) && p.nextIndex < |p.commands| && Sliced(h, history, host, deadline, id, n, from, tick) && n >= 0
      requires host.clock(tick) < deadline
      modifies this`screen, this`epoch, this`history
      ensures Running(id, q, epoch, history, screen) && Sliced(h, history, host, deadline, id, n + 1, from, tick + 1)
      ensures p.commands[p.nextIndex].Delay? ==> Paused(h.log, history.log)
      ensures q.waiting ==> p.waiting || p.commands[p.nextIndex].Delay?
    {
      SlicedNext(h, history, host, deadline, id, n, p, from, tick);
      ghost var next := Continued(history, id, p, Judged(p, host, tick), tick);
      q := Consume(id, p, host, tick);
      assert history == next;
    }

    /** The inner loop of the pump: commands of one playback until the budget, the time or a
        delay ends the slice. */
    method RunSlice(id: nat, p: Playback, host: Host, start: nat, budget: nat, deadline: nat)
      returns (q: Playback, tick: nat, remaining: nat)
      requires Running(id, p, epoch, history, screen) && !p.waiting
      modifies this`screen, this`epoch, this`history
      ensures Running(id, q, epoch, history, screen) && remaining <= budget && tick == start + budget - remaining
      ensures Sliced(old(history), history, host, deadline, id, budget - remaining, start, tick)
      ensures q.nextIndex == |q.commands| || remaining == 0 || TimeIsUp(host, deadline, start, tick) || Paused(old(history).log, history.log)
      ensures q.waiting ==> Paused(old(history).log, history.log)
    {
      q, tick, remaining := p, start, budget;
      var paused := false;
      while q.nextIndex < |q.commands| && remaining > 0 && !paused && host.clock(tick) < deadline
        invariant Running(id, q, epoch, history, screen) && remaining <= budget && tick == start + budget - remaining
        invariant Sliced(old(history), history, host, deadline, id, budget - remaining, start, tick)
        invariant (paused ==> Paused(old(history).log, history.log)) && (q.waiting ==> paused)
        decreases remaining
      {
        paused := q.commands[q.nextIndex].Delay?;
        q := ConsumeNext(id, q, host, deadline, tick, old(history), budget - remaining, start);
        remaining, tick := remaining - 1, tick + 1;
      }
    }

    /** After a slice: a playback that is done is erased, any other stored. */
    method Settle(p: Playback) returns (done: bool)
      requires queue != [] && QueueOk(queue, lastId, history.lists) && Running(queue[0].id, p, epoch, history, screen)
      modifies this`queue, this`history
      ensures Valid()
      ensures done == (p.nextIndex == |p.commands| && !p.waiting)
      ensures queue == if done then old(queue)[1..] else old(queue)[0 := old(queue)[0].(playback := p)]
      ensures history == (if done then Noted(old(history), Dropped) else old(history)) && history.log == old(history).log
    {
      done := p.nextIndex >= |p.commands| && !p.waiting;
      if done {
        Erased(queue, lastId, epoch, history, screen, p);
        queue, history := queue[1..], Noted(history, Dropped);
      } else {
        Stored(queue, lastId, epoch, history, screen, p);
        queue := queue[0 := queue[0].(playback := p)];
      }
    }

    /** Before a slice: the epoch check, and a fresh shadow screen if need be. */
    method Prepare(cursor: Option<Pos>) returns (p: Playback)
      requires Valid() && queue != []
      modifies this`history
      ensures Running(queue[0].id, p, epoch, history, screen)
      ensures p == Prepared(queue[0].playback, epoch, screen, cursor)
      ensures history == PreparedHistory(old(history), cursor) && history.log == old(history).log
    {
      PreparedRuns(queue, lastId, epoch, history, screen, cursor);
      history := PreparedHistory(history, cursor);
      p := Prepared(queue[0].playback, epoch, screen, cursor);
    }

    /** A slice of the first playback. */
    method RunPrepared(host: Host, start: nat, budget: nat, deadline: nat) returns (p: Playback, tick: nat, remaining: nat)
      requires Valid() && queue != []
      modifies this`screen, this`epoch, this`history
      ensures Running(queue[0].id, p, epoch, history, screen) && Extends(old(history), history, host, deadline, start, tick)
      ensures remaining <= budget && |history.log| - |old(history).log| == budget - remaining && tick == start + budget - remaining
      ensures p.nextIndex == |p.commands| || remaining == 0 || TimeIsUp(host, deadline, start, tick) || Paused(old(history).log, history.log)
      ensures p.waiting ==> Paused(old(history).log, history.log)
    {
      p := Prepare(host.cursor(start));
      p, tick, remaining := RunSlice(queue[0].id, p, host, start, budget, deadline);
      SliceExtends(old(history), host.cursor(start), history, host, deadline, start, tick);
    }

    /** A slice of the first playback, which is then erased or stored. */
    method RunFirst(host: Host, start: nat, budget: nat, deadline: nat) returns (done: bool, due: nat, tick: nat, remaining: nat)
      requires Valid() && queue != []
      modifies this`queue, this`screen, this`epoch, this`history
      ensures Valid() && Extends(old(history), history, host, deadline, start, tick)
      ensures remaining <= budget && |history.log| - |old(history).log| == budget - remaining && tick == start + budget - remaining
      ensures |queue| == |old(queue)| - (if done then 1 else 0) && (!done ==> due > 0)
      ensures !done ==>
        ComesBack(due, queue[0].playback, host, deadline, remaining == 0, Paused(old(history).log, history.log), start, tick)
    {
      var p;
      p, tick, remaining := RunPrepared(host, start, budget, deadline);
      due := if p.waiting then p.resumeAfter else host.clock(tick) + 1;
      DropExtends(old(history), history, host, deadline, start, tick);
      done := Settle(p);
    }

    /** One turn of the outer loop of the pump: a slice of the first playback, unless the
        budget is spent, the time is up or its delay is not over. */
    method RunNext(host: Host, start: nat, budget: nat, deadline: nat) returns (done: bool, due: nat, tick: nat, remaining: nat)
      requires Valid() && queue != []
      modifies this`queue, this`screen, this`epoch, this`history
      ensures Valid() && Extends(old(history), history, host, deadline, start, tick)
      ensures remaining <= budget && |history.log| - |old(history).log| == budget - remaining
      ensures if done then tick == start + 2 + budget - remaining else tick <= start + 2 + budget - remaining
      ensures |queue| == |old(queue)| - (if done then 1 else 0) && (!done ==> due > 0)
      ensures !done ==>
        ComesBack(due, queue[0].playback, host, deadline, remaining == 0, Paused(old(history).log, history.log), start, tick)
      ensures DelayIsNotOver(old(queue), host, start + 1) ==> !done && queue == old(queue) && history == old(history) && screen == old(screen)
    {
      var p := queue[0].playback;
      if budget == 0 || host.clock(start) >= deadline { return false, host.clock(start + 1) + 1, start + 1, budget; }
      if p.waiting && host.clock(start + 1) < p.resumeAfter { return false, p.resumeAfter, start + 1, budget; }
      done, due, tick, remaining := RunFirst(host, start + 2, budget, deadline);
    }

    /** The outer loop of the pump. `to` is the last tick at which it asked. */
    method Drain(host: Host, deadline: nat) returns (due: nat, ghost to: nat)
      requires Valid()
      modifies this`queue, this`screen, this`epoch, this`history
      ensures Valid() && |history.log| <= |old(history).log| + BUDGET && Extends(old(history), history, host, deadline, 1, to)
      ensures |queue| <= |old(queue)| && to <= AskedAtMost(|history.log| - |old(history).log|, |old(queue)| - |queue|)
      ensures due == 0 <==> queue == []
      ensures queue != [] ==>
        ComesBack(due, queue[0].playback, host, deadline, |history.log| == |old(history).log| + BUDGET, Paused(old(history).log, history.log), 1, to)
      ensures DelayIsNotOver(old(queue), host, 2) ==> queue == old(queue) && history == old(history) && screen == old(screen)
    {
      var tick: nat, remaining := 1, BUDGET;
      while queue != []
        invariant Valid() && Extends(old(history), history, host, deadline, 1, tick) && |history.log| - |old(history).log| == BUDGET - remaining
        invariant DelayIsNotOver(old(queue), host, 2) ==> tick == 1 && queue == old(queue) && history == old(history) && screen == old(screen)
        invariant |queue| <= |old(queue)| && tick == 1 + BUDGET - remaining + 2 * (|old(queue)| - |queue|)
        decreases |queue|
      {
        var done, later;
        ghost var before, asked := history, tick;
        done, later, tick, remaining := RunNext(host, tick, remaining, deadline);
        ExtendsThen(old(history), before, history, host, deadline, 1, asked, tick);
        if !done { return later, tick; }
      }
      due, to := 0, tick;
    }

    /** `pumpDeferredMacroUiPlayback`: the time at which to come back, or 0. At most 48
        commands are consumed, in order, each judged and rendered as its turn says; fewer only
        if none are left, the time was up when the clock was asked, or a delay is not over; none
        after the time was up, and nothing at all before the delay of the first is over. */
    method Pump(host: Host) returns (due: nat, ghost to: nat)
      requires Valid()
      modifies this`queue, this`screen, this`epoch, this`history
      ensures Valid() && |history.log| <= |old(history).log| + BUDGET && |queue| <= |old(queue)|
      ensures PumpedUntil(to, old(history), history, old(queue), queue, due, host, host.clock(0) + SLICE_MILLIS)
      ensures due == 0 <==> queue == []
      ensures DelayIsNotOver(old(queue), host, 2) ==> queue == old(queue) && history == old(history) && screen == old(screen)
      ensures screen == Now(history).shown && (Now(history).tracked ==> screen.cells == Now(history).full.cells)
    {
      due, to := Drain(host, host.clock(0) + SLICE_MILLIS);
      HistoryIsSafe(history);
    }
  }
}
