/** The runtime scheduler: periodic consumers, a cached next pump time, and the tick history. */
module Scheduler {

  type ConsumerId = nat

  /** nextDue 0 means "due at the first pump"; activeSession 0 means no unfinished session. */
  datatype Consumer = Consumer(intervalMs: nat, activeSession: nat, nextDue: nat)

  datatype EventKind = ConsumerRegistered | ConsumerRemoved | TickDue | TickStarted | TickFinished | TickStartFailed | TickSkipped

  datatype Event = Event(consumerId: ConsumerId, kind: EventKind, session: nat, blocking: nat, dueAt: nat, observedAt: nat)

  predicate IsTick(e: Event) { e.kind == TickDue || e.kind == TickSkipped }

  /** What a full scan at `now` calls due. */
  predicate Due(c: Consumer, now: nat) { c.nextDue == 0 || c.nextDue <= now }

  function AfterScan(c: Consumer, now: nat): Consumer {
    if Due(c, now) then c.(nextDue := now + c.intervalMs) else c
  }

  /** The one event a due consumer gets: due, or skipped while its previous session is unfinished. */
  function TickOf(id: ConsumerId, c: Consumer, now: nat): Event {
    var dueAt := if c.nextDue == 0 then now else c.nextDue;
    if c.activeSession != 0 then Event(id, TickSkipped, 0, c.activeSession, dueAt, now) else Event(id, TickDue, 0, 0, dueAt, now)
  }

  /** The cached pump time is 0 or a lower bound on every next due time. */
  predicate CacheOk(nextPump: nat, consumers: map<ConsumerId, Consumer>) {
    nextPump != 0 ==> forall id :: id in consumers ==> nextPump <= consumers[id].nextDue
  }

  ghost predicate IsMinimum(t: nat, consumers: map<ConsumerId, Consumer>) {
    && (forall id :: id in consumers ==> t <= consumers[id].nextDue)
    && exists id :: id in consumers && consumers[id].nextDue == t
  }

  ghost predicate IsTickFor(e: Event, consumers: map<ConsumerId, Consumer>, ids: set<ConsumerId>, now: nat) {
    && e.consumerId in ids && e.consumerId in consumers
    && Due(consumers[e.consumerId], now) && e == TickOf(e.consumerId, consumers[e.consumerId], now)
  }

  /** Exactly one tick for every due consumer among `ids`, in some order, and nothing else. */
  ghost predicate TicksFor(ticks: seq<Event>, consumers: map<ConsumerId, Consumer>, ids: set<ConsumerId>, now: nat) {
    && (forall i :: 0 <= i < |ticks| ==> IsTickFor(ticks[i], consumers, ids, now))
    && (forall i, j :: 0 <= i < j < |ticks| ==> ticks[i].consumerId != ticks[j].consumerId)
    && forall id :: id in ids && id in consumers && Due(consumers[id], now) ==> TickOf(id, consumers[id], now) in ticks
  }

  /** Two ticks of one consumer are at least its interval apart. */
  ghost predicate Spaced(history: seq<Event>, intervals: map<ConsumerId, nat>) {
    forall i, j :: 0 <= i < j < |history| ==> SpacedPair(history[i], history[j], intervals)
  }

  predicate SpacedPair(e: Event, f: Event, intervals: map<ConsumerId, nat>) {
    IsTick(e) && IsTick(f) && e.consumerId == f.consumerId && e.consumerId in intervals ==>
      e.observedAt + intervals[e.consumerId] <= f.observedAt
  }

  /** A consumer that has ticked is next due no earlier than one interval after each tick, and exactly that after one of them. */
  ghost predicate TickedBefore(history: seq<Event>, consumers: map<ConsumerId, Consumer>) {
    && (forall i :: 0 <= i < |history| && IsTick(history[i]) && history[i].consumerId in consumers ==>
          history[i].observedAt + consumers[history[i].consumerId].intervalMs <= consumers[history[i].consumerId].nextDue)
    && forall id :: id in consumers && consumers[id].nextDue != 0 ==> HasTick(history, id, consumers[id].nextDue - consumers[id].intervalMs)
  }

  ghost predicate HasTick(history: seq<Event>, id: ConsumerId, at: int) {
    history != [] && (IsTickAt(history[|history| - 1], id, at) || HasTick(history[..|history| - 1], id, at))
  }

  predicate IsTickAt(e: Event, id: ConsumerId, at: int) { IsTick(e) && e.consumerId == id && e.observedAt == at }

  lemma {:induction false} HasTickExactly(history: seq<Event>, id: ConsumerId, at: int)
    ensures HasTick(history, id, at) <==> exists i :: 0 <= i < |history| && IsTickAt(history[i], id, at)
  {
    if history != [] {
      var n := |history| - 1;
      HasTickExactly(history[..n], id, at);
      if i :| 0 <= i < |history| && IsTickAt(history[i], id, at) {
        assert i < n ==> IsTickAt(history[..n][i], id, at);
      }
      if i :| 0 <= i < n && IsTickAt(history[..n][i], id, at) {
        assert IsTickAt(history[i], id, at);
      }
    }
  }

  /** Every tick of the consumer so far was at least `interval` before `now`. */
  ghost predicate IntervalOver(history: seq<Event>, id: ConsumerId, interval: nat, now: nat) {
    forall i :: 0 <= i < |history| && IsTick(history[i]) && history[i].consumerId == id ==> history[i].observedAt + interval <= now
  }

  /** Due is the same as: no tick yet, or an interval has passed since every one. */
  lemma DueIffIntervalOver(history: seq<Event>, consumers: map<ConsumerId, Consumer>, id: ConsumerId, now: nat)
    requires TickedBefore(history, consumers) && id in consumers && consumers[id].intervalMs > 0
    ensures Due(consumers[id], now) <==> IntervalOver(history, id, consumers[id].intervalMs, now)
  {
    var c := consumers[id];
    if IntervalOver(history, id, c.intervalMs, now) && c.nextDue != 0 {
      HasTickExactly(history, id, c.nextDue - c.intervalMs);
      var i :| 0 <= i < |history| && IsTickAt(history[i], id, c.nextDue - c.intervalMs);
    }
  }

  lemma HasTickStill(history: seq<Event>, more: seq<Event>, id: ConsumerId, at: int)
    requires HasTick(history, id, at)
    ensures HasTick(history + more, id, at)
  {
    HasTickExactly(history, id, at);
    var i :| 0 <= i < |history| && IsTickAt(history[i], id, at);
    assert IsTickAt((history + more)[i], id, at);
    HasTickExactly(history + more, id, at);
  }

  /** An event that is no tick, and consumers that keep interval and due time, or are new. */
  lemma StillTicked(history: seq<Event>, consumers: map<ConsumerId, Consumer>, e: Event, after: map<ConsumerId, Consumer>)
    requires TickedBefore(history, consumers) && !IsTick(e)
    requires forall id :: id in after ==>
      if id in consumers then after[id].intervalMs == consumers[id].intervalMs && after[id].nextDue == consumers[id].nextDue
      else after[id].nextDue == 0 && forall i :: 0 <= i < |history| ==> history[i].consumerId != id
    ensures TickedBefore(history + [e], after)
  {
    forall id | id in after && after[id].nextDue != 0 ensures HasTick(history + [e], id, after[id].nextDue - after[id].intervalMs) {
      HasTickStill(history, [e], id, after[id].nextDue - after[id].intervalMs);
    }
  }

  /**
   * A pump said without the scan: a consumer that has never ticked or not for an interval gets one tick, is next due an
   * interval from now, and is to start if its last session has ended; all others are as they were.
   */
  ghost predicate Pumped(history: seq<Event>, before: map<ConsumerId, Consumer>, ticks: seq<Event>, after: map<ConsumerId, Consumer>,
                         toStart: set<ConsumerId>, now: nat) {
    && after.Keys == before.Keys
    && (forall id :: id in before ==>
          if IntervalOver(history, id, before[id].intervalMs, now)
          then
            && after[id] == before[id].(nextDue := now + before[id].intervalMs) && (id in toStart <==> before[id].activeSession == 0)
            && TicksOnce(ticks, Event(id, if id in toStart then TickDue else TickSkipped, 0, before[id].activeSession,
                                      if before[id].nextDue == 0 then now else before[id].nextDue, now))
          else after[id] == before[id] && id !in toStart && forall i :: 0 <= i < |ticks| ==> ticks[i].consumerId != id)
    && toStart <= before.Keys
    && forall i :: 0 <= i < |ticks| ==> ticks[i].consumerId in before
  }

  ghost predicate TicksOnce(ticks: seq<Event>, e: Event) { exists i: nat :: IsOnlyTick(ticks, i, e) }

  ghost predicate IsOnlyTick(ticks: seq<Event>, i: nat, e: Event) {
    i < |ticks| && ticks[i] == e && forall j :: 0 <= j < |ticks| && ticks[j].consumerId == e.consumerId ==> j == i
  }

  lemma ScanPumps(history: seq<Event>, consumers: map<ConsumerId, Consumer>, ticks: seq<Event>, now: nat)
    requires TickedBefore(history, consumers) && TicksFor(ticks, consumers, consumers.Keys, now)
    requires forall id :: id in consumers ==> consumers[id].intervalMs > 0
    ensures Pumped(history, consumers, ticks, Scanned(consumers, now), ToStart(consumers, consumers.Keys, now), now)
  {
    forall id | id in consumers
      ensures IntervalOver(history, id, consumers[id].intervalMs, now) <==> Due(consumers[id], now)
      ensures Due(consumers[id], now) ==> TicksOnce(ticks, TickOf(id, consumers[id], now))
    {
      DueIffIntervalOver(history, consumers, id, now);
      if Due(consumers[id], now) {
        var i :| 0 <= i < |ticks| && ticks[i] == TickOf(id, consumers[id], now);
        assert IsOnlyTick(ticks, i, TickOf(id, consumers[id], now));
      }
    }
    forall i | 0 <= i < |ticks| ensures ticks[i].consumerId in consumers && Due(consumers[ticks[i].consumerId], now) {
      assert IsTickFor(ticks[i], consumers, consumers.Keys, now);
    }
  }

  /** An early return is right: before the cached time, and with no consumers, a full scan would do nothing. */
  lemma ScanWouldDoNothing(nextPump: nat, consumers: map<ConsumerId, Consumer>, now: nat)
    requires CacheOk(nextPump, consumers) && (consumers == map[] || (nextPump != 0 && now < nextPump))
    ensures Scanned(consumers, now) == consumers && ToStart(consumers, consumers.Keys, now) == {}
    ensures TicksFor([], consumers, consumers.Keys, now)
  {
    assert forall id :: id in consumers ==> !Due(consumers[id], now);
  }

  ghost predicate KnownIntervals(consumers: map<ConsumerId, Consumer>, intervals: map<ConsumerId, nat>, history: seq<Event>, nextId: ConsumerId) {
    && (forall id :: id in consumers ==> 0 < id < nextId && consumers[id].intervalMs > 0 && id in intervals && intervals[id] == consumers[id].intervalMs)
    && nextId > 0 && (forall id :: id in intervals ==> id < nextId)
    && (forall i :: 0 <= i < |history| ==> history[i].consumerId < nextId)
  }

  lemma SpacedAfterTicks(history: seq<Event>, ticks: seq<Event>, consumers: map<ConsumerId, Consumer>, intervals: map<ConsumerId, nat>,
                         ids: set<ConsumerId>, now: nat, nextId: ConsumerId)
    requires Spaced(history, intervals) && TickedBefore(history, consumers) && TicksFor(ticks, consumers, ids, now)
    requires KnownIntervals(consumers, intervals, history, nextId)
    ensures Spaced(history + ticks, intervals)
  {
    var all := history + ticks;
    var n := |history|;
    forall i, j | 0 <= i < j < |all| ensures SpacedPair(all[i], all[j], intervals) {
      if i < n <= j {
        assert all[i] == history[i] && all[j] == ticks[j - n] && IsTickFor(ticks[j - n], consumers, ids, now);
      } else if n <= i {
        assert all[i] == ticks[i - n] && all[j] == ticks[j - n];
        assert ticks[i - n].consumerId != ticks[j - n].consumerId;
      } else {
        assert all[i] == history[i] && all[j] == history[j];
      }
    }
  }

  ghost function Scanned(consumers: map<ConsumerId, Consumer>, now: nat): map<ConsumerId, Consumer> {
    map id | id in consumers :: AfterScan(consumers[id], now)
  }

  lemma ScannedHasTick(history: seq<Event>, ticks: seq<Event>, consumers: map<ConsumerId, Consumer>, id: ConsumerId, now: nat)
    requires id in consumers && (Due(consumers[id], now) ==> TickOf(id, consumers[id], now) in ticks)
    requires consumers[id].nextDue != 0 ==> HasTick(history, id, consumers[id].nextDue - consumers[id].intervalMs)
    ensures HasTick(history + ticks, id, AfterScan(consumers[id], now).nextDue - consumers[id].intervalMs)
  {
    if Due(consumers[id], now) {
      var i :| 0 <= i < |ticks| && ticks[i] == TickOf(id, consumers[id], now);
      assert IsTickAt((history + ticks)[|history| + i], id, now);
      HasTickExactly(history + ticks, id, now);
    } else {
      HasTickStill(history, ticks, id, consumers[id].nextDue - consumers[id].intervalMs);
    }
  }

  lemma TickedAfterScan(history: seq<Event>, ticks: seq<Event>, consumers: map<ConsumerId, Consumer>, now: nat)
    requires TickedBefore(history, consumers) && TicksFor(ticks, consumers, consumers.Keys, now)
    ensures TickedBefore(history + ticks, Scanned(consumers, now))
  {
    var all, after := history + ticks, Scanned(consumers, now);
    forall id | id in after && after[id].nextDue != 0 ensures HasTick(all, id, after[id].nextDue - after[id].intervalMs) {
      ScannedHasTick(history, ticks, consumers, id, now);
    }
    forall i | 0 <= i < |all| && IsTick(all[i]) && all[i].consumerId in after
      ensures all[i].observedAt + after[all[i].consumerId].intervalMs <= after[all[i].consumerId].nextDue
    {
      if i >= |history| {
        assert all[i] == ticks[i - |history|] && IsTickFor(all[i], consumers, consumers.Keys, now);
      } else {
        assert all[i] == history[i];
      }
    }
  }

  /** The first listed consumer that waits for the session, or the length of the list. */
  function WaitingAt(consumers: map<ConsumerId, Consumer>, order: seq<ConsumerId>, session: nat): (i: nat)
    ensures i <= |order|
  {
    if order == [] then 0
    else if order[0] in consumers && consumers[order[0]].activeSession == session then 0
    else 1 + WaitingAt(consumers, order[1..], session)
  }

  function Freed(consumers: map<ConsumerId, Consumer>, order: seq<ConsumerId>, session: nat): map<ConsumerId, Consumer> {
    var i := WaitingAt(consumers, order, session);
    if i < |order| && order[i] in consumers then consumers[order[i] := consumers[order[i]].(activeSession := 0)] else consumers
  }

  /** Result by result. */
  function FreedAll(consumers: map<ConsumerId, Consumer>, order: seq<ConsumerId>, results: seq<nat>): map<ConsumerId, Consumer> {
    if results == [] then consumers
    else
      var before := FreedAll(consumers, order, results[..|results| - 1]);
      var session := results[|results| - 1];
      if session == 0 then before else Freed(before, order, session)
  }

  lemma {:induction false} FirstWaiting(consumers: map<ConsumerId, Consumer>, order: seq<ConsumerId>, session: nat, i: nat)
    requires i < |order| && order[i] in consumers && consumers[order[i]].activeSession == session
    requires forall j | 0 <= j < i :: order[j] in consumers && consumers[order[j]].activeSession != session
    ensures WaitingAt(consumers, order, session) == i
    decreases |order|
  {
    if i > 0 {
      assert order[0] in consumers && consumers[order[0]].activeSession != session;
      forall j | 0 <= j < i - 1 ensures order[1..][j] in consumers && consumers[order[1..][j]].activeSession != session {
        assert order[1..][j] == order[j + 1];
      }
      FirstWaiting(consumers, order[1..], session, i - 1);
    }
  }

  lemma {:induction false} NobodyWaiting(consumers: map<ConsumerId, Consumer>, order: seq<ConsumerId>, session: nat)
    requires forall j | 0 <= j < |order| :: order[j] in consumers && consumers[order[j]].activeSession != session
    ensures WaitingAt(consumers, order, session) == |order|
    decreases |order|
  {
    if order != [] { NobodyWaiting(consumers, order[1..], session); }
  }

  lemma FreedAllNext(consumers: map<ConsumerId, Consumer>, order: seq<ConsumerId>, results: seq<nat>, k: nat)
    requires k < |results|
    ensures FreedAll(consumers, order, results[..k + 1]) ==
      var before := FreedAll(consumers, order, results[..k]);
      if results[k] == 0 then before else Freed(before, order, results[k])
  {
    assert results[..k + 1][..k] == results[..k];
  }

  ghost predicate OnlyFinished(history: seq<Event>, next: seq<Event>) {
    history <= next && forall i | |history| <= i < |next| :: next[i].kind == TickFinished
  }

  lemma OnlyFinishedThen(a: seq<Event>, b: seq<Event>, c: seq<Event>)
    requires OnlyFinished(a, b) && OnlyFinished(b, c)
    ensures OnlyFinished(a, c)
  {
    forall i | |a| <= i < |c| ensures c[i].kind == TickFinished {
      if i < |b| { assert c[i] == b[i]; }
    }
  }

  method FindWaiting(consumers: map<ConsumerId, Consumer>, order: seq<ConsumerId>, session: nat) returns (i: nat)
    requires forall j :: 0 <= j < |order| ==> order[j] in consumers
    ensures i == WaitingAt(consumers, order, session)
    ensures i <= |order| && (i < |order| ==> consumers[order[i]].activeSession == session)
    ensures forall j | 0 <= j < i :: consumers[order[j]].activeSession != session
  {
    i := 0;
    while i < |order| && consumers[order[i]].activeSession != session
      invariant i <= |order| && forall j | 0 <= j < i :: consumers[order[j]].activeSession != session
    {
      i := i + 1;
    }
    if i == |order| { NobodyWaiting(consumers, order, session); } else { FirstWaiting(consumers, order, session, i); }
  }

  /** The bookkeeping of the scheduler goes together. */
  ghost predicate BooksOk(nextPump: nat, consumers: map<ConsumerId, Consumer>, intervals: map<ConsumerId, nat>, history: seq<Event>, nextId: ConsumerId) {
    && CacheOk(nextPump, consumers) && KnownIntervals(consumers, intervals, history, nextId)
    && Spaced(history, intervals) && TickedBefore(history, consumers)
  }

  lemma SpacedStill(history: seq<Event>, e: Event, intervals: map<ConsumerId, nat>)
    requires Spaced(history, intervals) && !IsTick(e)
    ensures Spaced(history + [e], intervals)
  {
    var all := history + [e];
    forall i, j | 0 <= i < j < |all| ensures SpacedPair(all[i], all[j], intervals) {
      if j < |history| { assert SpacedPair(history[i], history[j], intervals); }
    }
  }

  /** No consumer joins, and those that stay keep interval and due time. */
  ghost predicate SameTimes(consumers: map<ConsumerId, Consumer>, after: map<ConsumerId, Consumer>) {
    forall id :: id in after ==>
      id in consumers && after[id].intervalMs == consumers[id].intervalMs && after[id].nextDue == consumers[id].nextDue
  }

  lemma BooksWithSessions(nextPump: nat, consumers: map<ConsumerId, Consumer>, intervals: map<ConsumerId, nat>, history: seq<Event>, nextId: ConsumerId,
                          after: map<ConsumerId, Consumer>)
    requires BooksOk(nextPump, consumers, intervals, history, nextId) && SameTimes(consumers, after)
    ensures BooksOk(nextPump, after, intervals, history, nextId)
  {
  }

  lemma BooksStillOk(nextPump: nat, consumers: map<ConsumerId, Consumer>, intervals: map<ConsumerId, nat>, history: seq<Event>, nextId: ConsumerId,
                     e: Event, after: map<ConsumerId, Consumer>)
    requires BooksOk(nextPump, consumers, intervals, history, nextId) && !IsTick(e) && e.consumerId < nextId
    requires SameTimes(consumers, after)
    ensures BooksOk(nextPump, after, intervals, history + [e], nextId)
  {
    SpacedStill(history, e, intervals);
    StillTicked(history, consumers, e, after);
  }

  lemma BooksWithNewConsumer(nextPump: nat, consumers: map<ConsumerId, Consumer>, intervals: map<ConsumerId, nat>, history: seq<Event>, id: ConsumerId, interval: nat)
    requires BooksOk(nextPump, consumers, intervals, history, id) && interval > 0
    ensures BooksOk(0, consumers[id := Consumer(interval, 0, 0)], intervals[id := interval], history + [Event(id, ConsumerRegistered, 0, 0, 0, 0)], id + 1)
  {
    var e := Event(id, ConsumerRegistered, 0, 0, 0, 0);
    StillTicked(history, consumers, e, consumers[id := Consumer(interval, 0, 0)]);
    forall i, j | 0 <= i < j < |history| ensures SpacedPair(history[i], history[j], intervals[id := interval]) {
      assert SpacedPair(history[i], history[j], intervals) && history[i].consumerId < id;
    }
    SpacedStill(history, e, intervals[id := interval]);
  }

  class RuntimeScheduler {
    var consumers: map<ConsumerId, Consumer>
    var nextPumpMs: nat
    var nextConsumerId: ConsumerId
    ghost var history: seq<Event>
    ghost var intervals: map<ConsumerId, nat>

    ghost predicate Valid()
      reads this
    {
      BooksOk(nextPumpMs, consumers, intervals, history, nextConsumerId)
    }

    constructor ()
      ensures Valid() && consumers == map[] && nextPumpMs == 0 && history == []
    {
      consumers, nextPumpMs, nextConsumerId, history, intervals := map[], 0, 1, [], map[];
    }

    /** Notes an event that is no tick, together with a change of sessions or the removal of a consumer. */
    method Note(e: Event, after: map<ConsumerId, Consumer>)
      requires Valid() && !IsTick(e) && e.consumerId < nextConsumerId && SameTimes(consumers, after)
      modifies this`consumers, this`history
      ensures Valid() && consumers == after && history == old(history) + [e]
    {
      BooksStillOk(nextPumpMs, consumers, intervals, history, nextConsumerId, e, after);
      consumers, history := after, history + [e];
    }

    /** A consumer needs an interval and something to run; a new one makes the next pump scan. */
    method Register(intervalMs: nat, macroSpec: string, macroSource: string) returns (id: ConsumerId)
      requires Valid()
      modifies this
      ensures Valid()
      ensures intervalMs == 0 || (macroSpec == "" && macroSource == "") ==>
        id == 0 && consumers == old(consumers) && nextPumpMs == old(nextPumpMs) && history == old(history)
      ensures intervalMs > 0 && (macroSpec != "" || macroSource != "") ==>
        && id == old(nextConsumerId) && id !in old(consumers) && nextPumpMs == 0
        && consumers == old(consumers)[id := Consumer(intervalMs, 0, 0)]
        && history == old(history) + [Event(id, ConsumerRegistered, 0, 0, 0, 0)]
    {
      if intervalMs == 0 || (macroSpec == "" && macroSource == "") { return 0; }
      BooksWithNewConsumer(nextPumpMs, consumers, intervals, history, nextConsumerId, intervalMs);
      id := nextConsumerId;
      nextConsumerId := nextConsumerId + 1;
      consumers := consumers[id := Consumer(intervalMs, 0, 0)];
      intervals := intervals[id := intervalMs];
      nextPumpMs := 0;
      history := history + [Event(id, ConsumerRegistered, 0, 0, 0, 0)];
    }

    method Remove(id: ConsumerId) returns (removed: bool)
      requires Valid()
      modifies this
      ensures Valid() && removed == (id in old(consumers))
      ensures consumers == old(consumers) - {id}
      ensures !removed ==> nextPumpMs == old(nextPumpMs) && history == old(history)
      ensures removed ==> nextPumpMs == 0 && history == old(history) + [Event(id, ConsumerRemoved, old(consumers)[id].activeSession, 0, 0, 0)]
    {
      removed := id in consumers;
      if removed {
        Note(Event(id, ConsumerRemoved, consumers[id].activeSession, 0, 0, 0), consumers - {id});
        nextPumpMs := 0;
      } else {
        assert consumers == consumers - {id};
      }
    }

    /** A started session blocks the consumer until it is finished. */
    method NoteStarted(id: ConsumerId, session: nat) returns (noted: bool)
      requires Valid()
      modifies this
      ensures Valid() && nextPumpMs == old(nextPumpMs)
      ensures noted == (id in old(consumers) && session != 0)
      ensures consumers == if noted then old(consumers)[id := old(consumers)[id].(activeSession := session)] else old(consumers)
      ensures history == if noted then old(history) + [Event(id, TickStarted, session, 0, 0, 0)] else old(history)
    {
      noted := id in consumers && session != 0;
      if noted {
        Note(Event(id, TickStarted, session, 0, 0, 0), consumers[id := consumers[id].(activeSession := session)]);
      }
    }

    /** Only the session that blocks the consumer can unblock it. */
    method NoteFinished(id: ConsumerId, session: nat) returns (noted: bool)
      requires Valid()
      modifies this
      ensures Valid() && nextPumpMs == old(nextPumpMs) && history == old(history)
      ensures noted == (id in old(consumers) && session != 0 && old(consumers)[id].activeSession == session)
      ensures consumers == if noted then old(consumers)[id := old(consumers)[id].(activeSession := 0)] else old(consumers)
    {
      noted := id in consumers && session != 0 && consumers[id].activeSession == session;
      if noted {
        BooksWithSessions(nextPumpMs, consumers, intervals, history, nextConsumerId, consumers[id := consumers[id].(activeSession := 0)]);
        consumers := consumers[id := consumers[id].(activeSession := 0)];
      }
    }

    /** `recordRuntimeScheduledConsumerStartResult` under the lock: the session as the start
        call returned it blocks the consumer if it was still active then. */
    method RecordStartResult(id: ConsumerId, session: nat, stillActive: bool, accepted: bool) returns (found: bool)
      requires Valid()
      modifies this
      ensures Valid() && nextPumpMs == old(nextPumpMs) && found == (id in old(consumers))
      ensures consumers == if found && accepted then old(consumers)[id := old(consumers)[id].(activeSession := if stillActive then session else 0)] else old(consumers)
      ensures history == if !found then old(history)
                         else old(history) + [Event(id, if accepted then TickStarted else TickStartFailed, if accepted then session else 0, 0, 0, 0)]
    {
      found := id in consumers;
      if !found { return; }
      var after := if accepted then consumers[id := consumers[id].(activeSession := if stillActive then session else 0)] else consumers;
      Note(Event(id, if accepted then TickStarted else TickStartFailed, if accepted then session else 0, 0, 0, 0), after);
    }

    /** The inner loop of `recordRuntimeScheduledConsumerFinishResults`: the first consumer
        that waits for the session waits no longer. */
    method FreeConsumer(session: nat, consumerIds: seq<ConsumerId>)
      requires Valid() && Lists(consumerIds, consumers) && session != 0
      modifies this`consumers, this`history
      ensures Valid() && Lists(consumerIds, consumers)
      ensures consumers == Freed(old(consumers), consumerIds, session)
      ensures var i := WaitingAt(old(consumers), consumerIds, session);
        history == if i < |consumerIds| then old(history) + [Event(consumerIds[i], TickFinished, session, 0, 0, 0)] else old(history)
      ensures OnlyFinished(old(history), history)
    {
      var i := FindWaiting(consumers, consumerIds, session);
      if i < |consumerIds| {
        var id := consumerIds[i];
        Note(Event(id, TickFinished, session, 0, 0, 0), consumers[id := consumers[id].(activeSession := 0)]);
      }
    }

    /** `recordRuntimeScheduledConsumerFinishResults`. */
    method RecordFinishResults(results: seq<nat>, consumerIds: seq<ConsumerId>)
      requires Valid() && Lists(consumerIds, consumers)
      modifies this`consumers, this`history
      ensures Valid()
      ensures consumers == FreedAll(old(consumers), consumerIds, results)
      ensures old(history) <= history && forall i | |old(history)| <= i < |history| :: history[i].kind == TickFinished
    {
      for k := 0 to |results|
        invariant Valid() && Lists(consumerIds, consumers)
        invariant OnlyFinished(old(history), history)
        invariant consumers == FreedAll(old(consumers), consumerIds, results[..k])
      {
        FreedAllNext(old(consumers), consumerIds, results, k);
        ghost var before := history;
        if results[k] != 0 { FreeConsumer(results[k], consumerIds); }
        OnlyFinishedThen(old(history), before, history);
      }
      assert results[..|results|] == results;
    }

    /**
     * A pump does what a full scan at `now` would do, whether or not the cached time lets it return early:
     * every consumer without a tick in the last interval gets one and is next due an interval from now, nobody
     * else changes, and exactly those without an unfinished session are asked to start.
     */
    method Pump(now: nat, consumerIds: seq<ConsumerId>) returns (toStart: set<ConsumerId>, nextWakeup: nat)
      requires Valid() && Lists(consumerIds, consumers)
      modifies this`consumers, this`history, this`nextPumpMs
      ensures Valid()
      ensures old(history) <= history && Pumped(old(history), old(consumers), history[|old(history)|..], consumers, toStart, now)
      ensures consumers == Scanned(old(consumers), now) && toStart == ToStart(old(consumers), old(consumers).Keys, now)
      ensures TicksFor(history[|old(history)|..], old(consumers), old(consumers).Keys, now)
      ensures nextWakeup == nextPumpMs
      ensures consumers == map[] ==> nextPumpMs == 0
      ensures consumers != map[] && (old(nextPumpMs) == 0 || old(nextPumpMs) <= now) ==>
        IsMinimum(nextPumpMs, consumers) && forall id :: id in consumers ==> now < consumers[id].nextDue
    {
      ghost var ticks: seq<Event>;
      toStart, nextWakeup, ticks := ScanIfDue(now, consumerIds);
      ScanPumps(old(history), old(consumers), ticks, now);
      assert history[|old(history)|..] == ticks;
    }

    method ScanIfDue(now: nat, consumerIds: seq<ConsumerId>) returns (toStart: set<ConsumerId>, nextWakeup: nat, ghost ticks: seq<Event>)
      requires Valid() && Lists(consumerIds, consumers)
      modifies this`consumers, this`history, this`nextPumpMs
      ensures Valid()
      ensures consumers == Scanned(old(consumers), now)
      ensures history == old(history) + ticks && TicksFor(ticks, old(consumers), old(consumers).Keys, now)
      ensures toStart == ToStart(old(consumers), old(consumers).Keys, now)
      ensures nextWakeup == nextPumpMs
      ensures consumers == map[] ==> nextPumpMs == 0
      ensures consumers != map[] && (old(nextPumpMs) == 0 || old(nextPumpMs) <= now) ==>
        IsMinimum(nextPumpMs, consumers) && forall id :: id in consumers ==> now < consumers[id].nextDue
    {
      toStart, ticks := {}, [];
      if consumers == map[] || (nextPumpMs != 0 && now < nextPumpMs) {
        ScanWouldDoNothing(nextPumpMs, consumers, now);
        nextPumpMs := if consumers == map[] then 0 else nextPumpMs;
        nextWakeup := nextPumpMs;
        return;
      }
      var st := Scan(consumers, consumerIds, now);
      ScanKeeps(st, consumers, history, intervals, nextConsumerId, now);
      consumers, history := st.after, history + st.ticks;
      toStart, nextPumpMs, nextWakeup, ticks := st.toStart, st.candidate, st.candidate, st.ticks;
    }
  }

  /** A scan leaves the scheduler's bookkeeping in order, every due time beyond now and the cache exact. */
  lemma ScanKeeps(st: Scanning, consumers: map<ConsumerId, Consumer>, history: seq<Event>, intervals: map<ConsumerId, nat>, nextId: ConsumerId, now: nat)
    requires st.after == Scanned(consumers, now) && TicksFor(st.ticks, consumers, consumers.Keys, now)
    requires IsMinimum(st.candidate, st.after) && now < st.candidate
    requires KnownIntervals(consumers, intervals, history, nextId) && Spaced(history, intervals) && TickedBefore(history, consumers)
    ensures BooksOk(st.candidate, st.after, intervals, history + st.ticks, nextId)
    ensures forall id :: id in st.after ==> now < st.after[id].nextDue
  {
    SpacedAfterTicks(history, st.ticks, consumers, intervals, consumers.Keys, now, nextId);
    TickedAfterScan(history, st.ticks, consumers, now);
    forall i | 0 <= i < |history + st.ticks| ensures (history + st.ticks)[i].consumerId < nextId {
      if i >= |history| { assert IsTickFor(st.ticks[i - |history|], consumers, consumers.Keys, now); }
    }
  }

  ghost function ToStart(consumers: map<ConsumerId, Consumer>, ids: set<ConsumerId>, now: nat): set<ConsumerId> {
    set id | id in ids && id in consumers && Due(consumers[id], now) && consumers[id].activeSession == 0
  }

  /** The scan after the consumers outside `ids` have been visited. */
  ghost predicate ScannedSoFar(before: map<ConsumerId, Consumer>, after: map<ConsumerId, Consumer>, done: set<ConsumerId>, now: nat) {
    && after.Keys == before.Keys
    && forall id :: id in before ==> after[id] == if id in done then AfterScan(before[id], now) else before[id]
  }

  /** The smallest next due time among the visited consumers, 0 before the first. */
  ghost predicate CandidateOk(candidate: nat, after: map<ConsumerId, Consumer>, done: set<ConsumerId>, now: nat) {
    if done == {} then candidate == 0
    else
      && now < candidate && (forall id :: id in done && id in after ==> candidate <= after[id].nextDue)
      && exists id :: id in done && id in after && after[id].nextDue == candidate
  }

  lemma CandidateNext(candidate: nat, before: map<ConsumerId, Consumer>, after: map<ConsumerId, Consumer>, done: set<ConsumerId>, id: ConsumerId, now: nat)
    requires CandidateOk(candidate, before, done, now) && id !in done && id in after && now < after[id].nextDue
    requires after.Keys == before.Keys && forall x :: x in before && x != id ==> after[x] == before[x]
    ensures CandidateOk(if candidate == 0 || after[id].nextDue < candidate then after[id].nextDue else candidate, after, done + {id}, now)
  {
    if done != {} {
      var w :| w in done && w in before && before[w].nextDue == candidate;
      assert after[w].nextDue == candidate;
    }
  }

  lemma TicksNext(ticks: seq<Event>, consumers: map<ConsumerId, Consumer>, done: set<ConsumerId>, id: ConsumerId, now: nat)
    requires TicksFor(ticks, consumers, done, now) && id in consumers && id !in done
    ensures TicksFor(ticks + if Due(consumers[id], now) then [TickOf(id, consumers[id], now)] else [], consumers, done + {id}, now)
  {
    var next := ticks + if Due(consumers[id], now) then [TickOf(id, consumers[id], now)] else [];
    forall i | 0 <= i < |next| ensures IsTickFor(next[i], consumers, done + {id}, now) {
      if i < |ticks| { assert IsTickFor(ticks[i], consumers, done, now); }
    }
    forall i, j | 0 <= i < j < |next| ensures next[i].consumerId != next[j].consumerId {
      assert IsTickFor(ticks[i], consumers, done, now);
    }
  }

  /** What a scan has gathered so far. */
  datatype Scanning = Scanning(after: map<ConsumerId, Consumer>, ticks: seq<Event>, toStart: set<ConsumerId>, candidate: nat)

  ghost predicate ScanOk(st: Scanning, consumers: map<ConsumerId, Consumer>, done: set<ConsumerId>, now: nat) {
    && ScannedSoFar(consumers, st.after, done, now)
    && TicksFor(st.ticks, consumers, done, now)
    && st.toStart == ToStart(consumers, done, now)
    && CandidateOk(st.candidate, st.after, done, now)
  }

  /** One consumer of the scan. */
  function Visit(st: Scanning, id: ConsumerId, now: nat): Scanning
    requires id in st.after
  {
    var c := st.after[id];
    var after := if Due(c, now) then st.after[id := c.(nextDue := now + c.intervalMs)] else st.after;
    Scanning(
      after,
      st.ticks + (if Due(c, now) then [TickOf(id, c, now)] else []),
      st.toStart + (if Due(c, now) && c.activeSession == 0 then {id} else {}),
      if st.candidate == 0 || after[id].nextDue < st.candidate then after[id].nextDue else st.candidate)
  }

  lemma VisitKeeps(st: Scanning, consumers: map<ConsumerId, Consumer>, done: set<ConsumerId>, id: ConsumerId, now: nat)
    requires ScanOk(st, consumers, done, now) && id in consumers && id !in done && consumers[id].intervalMs > 0
    ensures ScanOk(Visit(st, id, now), consumers, done + {id}, now)
  {
    var next := Visit(st, id, now);
    assert st.after[id] == consumers[id];
    TicksNext(st.ticks, consumers, done, id, now);
    CandidateNext(st.candidate, st.after, next.after, done, id, now);
  }

  lemma ScanComplete(st: Scanning, consumers: map<ConsumerId, Consumer>, now: nat)
    requires ScanOk(st, consumers, consumers.Keys, now) && consumers != map[]
    ensures st.after == Scanned(consumers, now) && IsMinimum(st.candidate, st.after) && now < st.candidate
  {
    assert consumers.Keys != {};
  }

  /** The scan that visits the consumers in the given order. */
  ghost function VisitAll(consumers: map<ConsumerId, Consumer>, order: seq<ConsumerId>, now: nat): (st: Scanning)
    requires forall i :: 0 <= i < |order| ==> order[i] in consumers
    ensures st.after.Keys == consumers.Keys
  {
    if order == [] then Scanning(consumers, [], {}, 0)
    else Visit(VisitAll(consumers, order[..|order| - 1], now), order[|order| - 1], now)
  }

  /** The store lists every consumer once. */
  ghost predicate Lists(order: seq<ConsumerId>, consumers: map<ConsumerId, Consumer>) {
    && Distinct(order) && Visited(order) == consumers.Keys && forall i :: 0 <= i < |order| ==> order[i] in consumers
  }

  predicate Distinct(order: seq<ConsumerId>) { forall i, j :: 0 <= i < j < |order| ==> order[i] != order[j] }

  ghost function Visited(order: seq<ConsumerId>): set<ConsumerId> { set id | id in order }

  lemma {:induction false} VisitAllOk(consumers: map<ConsumerId, Consumer>, order: seq<ConsumerId>, now: nat)
    requires forall i :: 0 <= i < |order| ==> order[i] in consumers && consumers[order[i]].intervalMs > 0
    requires Distinct(order)
    ensures ScanOk(VisitAll(consumers, order, now), consumers, Visited(order), now)
  {
    if order != [] {
      var n := |order| - 1;
      var front, id := order[..n], order[n];
      VisitAllOk(consumers, front, now);
      assert order == front + [id];
      assert Visited(order) == Visited(front) + {id} && id !in Visited(front);
      VisitKeeps(VisitAll(consumers, front, now), consumers, Visited(front), id, now);
    }
  }

  /** One full scan, in the order in which the store lists the consumers. */
  method Scan(consumers: map<ConsumerId, Consumer>, order: seq<ConsumerId>, now: nat) returns (st: Scanning)
    requires consumers != map[] && forall id :: id in consumers ==> consumers[id].intervalMs > 0
    requires Lists(order, consumers)
    ensures st.after == Scanned(consumers, now) && TicksFor(st.ticks, consumers, consumers.Keys, now)
    ensures st.toStart == ToStart(consumers, consumers.Keys, now)
    ensures IsMinimum(st.candidate, st.after) && now < st.candidate
  {
    st := VisitListed(consumers, order, now);
    AllVisited(consumers, order, now);
  }

  /** The loop over the listed consumers. */
  method VisitListed(consumers: map<ConsumerId, Consumer>, order: seq<ConsumerId>, now: nat) returns (st: Scanning)
    requires forall i :: 0 <= i < |order| ==> order[i] in consumers
    ensures st == VisitAll(consumers, order, now)
  {
    st := Scanning(consumers, [], {}, 0);
    for i := 0 to |order|
      invariant st == VisitAll(consumers, order[..i], now)
    {
      assert order[..i + 1] == order[..i] + [order[i]];
      VisitNext(consumers, order[..i], order[i], now);
      st := Visit(st, order[i], now);
    }
    assert order[..|order|] == order;
  }

  lemma VisitNext(consumers: map<ConsumerId, Consumer>, order: seq<ConsumerId>, id: ConsumerId, now: nat)
    requires id in consumers && forall i :: 0 <= i < |order| ==> order[i] in consumers
    ensures VisitAll(consumers, order + [id], now) == Visit(VisitAll(consumers, order, now), id, now)
  {
    assert (order + [id])[..|order|] == order;
  }

  lemma AllVisited(consumers: map<ConsumerId, Consumer>, order: seq<ConsumerId>, now: nat)
    requires consumers != map[] && forall id :: id in consumers ==> consumers[id].intervalMs > 0
    requires Lists(order, consumers)
    ensures var st := VisitAll(consumers, order, now);
      && st.after == Scanned(consumers, now) && TicksFor(st.ticks, consumers, consumers.Keys, now)
      && st.toStart == ToStart(consumers, consumers.Keys, now)
      && IsMinimum(st.candidate, st.after) && now < st.candidate
  {
    VisitAllOk(consumers, order, now);
    ScanComplete(VisitAll(consumers, order, now), consumers, now);
  }
}
