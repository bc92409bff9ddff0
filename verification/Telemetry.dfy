/** Lifecycle telemetry of the coprocessor: running counters, and their reconstruction by reverse replay. */
module Telemetry {
  import opened Basics

  datatype LifecycleState =
    Created | Assigned | Idle | Queued | Running | ResultReady | Accepted | Adopted | Discarded | Stopping | Finished

  datatype Reason =
    | NoReason | TaskCompleted | TaskCancelled | TaskFailed | ResultAccepted | ResultAdopted | ResultRejected
    | AcceptedResultAdopted | AcceptedResultRejected | StreamChunk | StopRequested | WorkerFinished

  datatype Event = Event(monotonicMicros: nat, state: LifecycleState, reason: Reason)

  datatype Counters = Counters(queued: nat, active: nat, results: nat)

  const EVENT_CAPACITY: nat := 4096

  /** A decrement that stops at zero. */
  function Less(n: nat): (r: nat)
    ensures r <= n <= r + 1
  {
    if n != 0 then n - 1 else 0
  }

  /** How recording an event moves the running counters. */
  function Forward(c: Counters, e: Event): Counters {
    match e.state
    case Queued => c.(queued := c.queued + 1)
    case Running => c.(queued := Less(c.queued), active := c.active + 1)
    case ResultReady => c.(active := if e.reason != StreamChunk then Less(c.active) else c.active, results := c.results + 1)
    case Accepted => c.(results := Less(c.results))
    case Adopted => if e.reason == ResultAdopted then c.(results := Less(c.results)) else c
    case Discarded =>
      (match e.reason
       case ResultRejected => c.(results := Less(c.results))
       case TaskCancelled => c.(queued := Less(c.queued))
       case _ => c)
    case _ => c
  }

  /** How the snapshot undoes an event while walking from newest to oldest. */
  function Backward(c: Counters, e: Event): Counters {
    match e.state
    case Queued => c.(queued := Less(c.queued))
    case Running => c.(active := Less(c.active), queued := c.queued + 1)
    case ResultReady => c.(active := if e.reason != StreamChunk then c.active + 1 else c.active, results := Less(c.results))
    case Accepted => c.(results := c.results + 1)
    case Adopted => if e.reason == ResultAdopted then c.(results := c.results + 1) else c
    case Discarded =>
      (match e.reason
       case ResultRejected => c.(results := c.results + 1)
       case TaskCancelled => c.(queued := c.queued + 1)
       case _ => c)
    case _ => c
  }

  /** The event finds something to take away wherever it takes something away. */
  predicate Unguarded(c: Counters, e: Event) {
    && (TakesQueued(e) ==> c.queued > 0)
    && (TakesActive(e) ==> c.active > 0)
    && (TakesResult(e) ==> c.results > 0)
  }

  predicate TakesQueued(e: Event) { e.state == Running || (e.state == Discarded && e.reason == TaskCancelled) }

  predicate TakesActive(e: Event) { e.state == ResultReady && e.reason != StreamChunk }

  predicate TakesResult(e: Event) {
    e.state == Accepted || (e.state == Adopted && e.reason == ResultAdopted) || (e.state == Discarded && e.reason == ResultRejected)
  }

  /** Undoing an event restores the counters exactly when no "if not zero" guard stopped a decrement. */
  lemma BackwardInvertsForward(c: Counters, e: Event)
    ensures Backward(Forward(c, e), e) == c <==> Unguarded(c, e)
  {
    var after := Forward(c, e);
    assert Less(c.queued) + 1 == c.queued <==> c.queued > 0;
    assert Less(c.active) + 1 == c.active <==> c.active > 0;
    assert Less(c.results) + 1 == c.results <==> c.results > 0;
  }

  /** `past[i]` are the counters before the event `events[i]`, and the last entry the counters now. */
  ghost predicate History(past: seq<Counters>, events: seq<Event>) {
    && |past| == |events| + 1
    && forall i :: 0 <= i < |events| ==> past[i + 1] == Forward(past[i], events[i])
  }

  ghost predicate Clean(past: seq<Counters>, events: seq<Event>) {
    History(past, events) && forall i :: 0 <= i < |events| ==> Unguarded(past[i], events[i])
  }

  /** Undo the `steps` newest events. */
  function Undo(c: Counters, events: seq<Event>, steps: nat): Counters
    requires steps <= |events|
  {
    if steps == 0 then c else Backward(Undo(c, events, steps - 1), events[|events| - steps])
  }

  /** Reverse replay finds the true past counters at every visited point, exactly when no guard stopped a decrement. */
  lemma {:induction false} UndoFindsThePast(past: seq<Counters>, events: seq<Event>)
    requires History(past, events)
    ensures (forall k :: 0 <= k <= |events| ==> Undo(past[|events|], events, k) == past[|events| - k]) <==> Clean(past, events)
  {
    if Clean(past, events) {
      forall k | 0 <= k <= |events| ensures Undo(past[|events|], events, k) == past[|events| - k] {
        CleanUndo(past, events, k);
      }
    } else {
      var i :| 0 <= i < |events| && !Unguarded(past[i], events[i]);
      var k := |events| - i;
      BackwardInvertsForward(past[i], events[i]);
      assert Undo(past[|events|], events, k) == Backward(Undo(past[|events|], events, k - 1), events[i]);
      assert Undo(past[|events|], events, k - 1) != past[|events| - (k - 1)] || Undo(past[|events|], events, k) != past[|events| - k];
    }
  }

  lemma {:induction false} CleanUndo(past: seq<Counters>, events: seq<Event>, k: nat)
    requires Clean(past, events) && k <= |events|
    ensures Undo(past[|events|], events, k) == past[|events| - k]
    decreases k
  {
    if k > 0 {
      CleanUndo(past, events, k - 1);
      BackwardInvertsForward(past[|events| - k], events[|events| - k]);
    }
  }

  lemma CleanStep(past: seq<Counters>, events: seq<Event>, i: nat)
    requires Clean(past, events) && i < |events|
    ensures Backward(past[i + 1], events[i]) == past[i]
  {
    BackwardInvertsForward(past[i], events[i]);
  }

  /** `peak` bounds a component over a stretch of the past and is reached in it. */
  ghost predicate IsPeak(peak: nat, past: seq<Counters>, from: nat, component: Counters -> nat) {
    && (forall i :: from <= i < |past| ==> component(past[i]) <= peak)
    && exists i :: from <= i < |past| && component(past[i]) == peak
  }

  function QueuedOf(c: Counters): nat { c.queued }

  function ActiveOf(c: Counters): nat { c.active }

  function ResultsOf(c: Counters): nat { c.results }

  lemma PeakNext(peak: nat, past: seq<Counters>, from: nat, component: Counters -> nat)
    requires 0 < from <= |past| && IsPeak(peak, past, from, component)
    ensures IsPeak(Max(peak, component(past[from - 1])), past, from - 1, component)
  {
    var i :| from <= i < |past| && component(past[i]) == peak;
    var next := Max(peak, component(past[from - 1]));
    var j := if next == peak then i else from - 1;
    assert component(past[j]) == next;
  }

  /** The three components of `peaks` are the maxima over the past from `from` on. */
  ghost predicate ArePeaks(peaks: Counters, past: seq<Counters>, from: nat) {
    IsPeak(peaks.queued, past, from, QueuedOf) && IsPeak(peaks.active, past, from, ActiveOf) && IsPeak(peaks.results, past, from, ResultsOf)
  }

  function Higher(a: Counters, b: Counters): Counters {
    Counters(Max(a.queued, b.queued), Max(a.active, b.active), Max(a.results, b.results))
  }

  /** The component-wise maxima of the past from `from` on. */
  ghost function PeaksOf(past: seq<Counters>, from: nat): Counters
    requires from < |past|
    decreases |past| - from
  {
    if from == |past| - 1 then past[from] else Higher(PeaksOf(past, from + 1), past[from])
  }

  lemma {:induction false} PeaksOfArePeaks(past: seq<Counters>, from: nat)
    requires from < |past|
    ensures ArePeaks(PeaksOf(past, from), past, from)
    decreases |past| - from
  {
    if from == |past| - 1 {
      var now := past[from];
      assert QueuedOf(now) == now.queued && ActiveOf(now) == now.active && ResultsOf(now) == now.results;
    } else {
      PeaksOfArePeaks(past, from + 1);
      PeaksNext(PeaksOf(past, from + 1), past, from + 1);
    }
  }

  lemma PeaksNext(peaks: Counters, past: seq<Counters>, from: nat)
    requires 0 < from <= |past| && ArePeaks(peaks, past, from)
    ensures ArePeaks(Higher(peaks, past[from - 1]), past, from - 1)
  {
    PeakNext(peaks.queued, past, from, QueuedOf);
    PeakNext(peaks.active, past, from, ActiveOf);
    PeakNext(peaks.results, past, from, ResultsOf);
  }

  /** The first of the newest events that are not older than the cutoff. */
  ghost function Since(events: seq<Event>, cutoff: nat): (from: nat)
    ensures from <= |events| && (from > 0 ==> events[from - 1].monotonicMicros < cutoff)
    ensures forall i :: from <= i < |events| ==> cutoff <= events[i].monotonicMicros
  {
    if events == [] || events[|events| - 1].monotonicMicros < cutoff then |events|
    else Since(events[..|events| - 1], cutoff)
  }

  /** The events a log of bounded length still holds. */
  function Newest(events: seq<Event>): (r: seq<Event>)
    ensures |r| <= |events| && |r| <= EVENT_CAPACITY
  {
    if |events| <= EVENT_CAPACITY then events else events[|events| - EVENT_CAPACITY..]
  }

  lemma NewestNext(events: seq<Event>, i: nat)
    requires i < |events|
    ensures Newest(events[..i + 1]) ==
      (if |Newest(events[..i])| == EVENT_CAPACITY then Newest(events[..i])[1..] else Newest(events[..i])) + [events[i]]
  {
    assert events[..i + 1] == events[..i] + [events[i]];
  }

  /** Peaks over the kept end of the past are peaks over the whole past. */
  lemma PeaksOfTheWhole(peaks: Counters, past: seq<Counters>, dropped: nat, from: nat)
    requires dropped <= |past| && ArePeaks(peaks, past[dropped..], from)
    ensures ArePeaks(peaks, past, dropped + from)
  {
    PeakOfTheWhole(peaks.queued, past, dropped, from, QueuedOf);
    PeakOfTheWhole(peaks.active, past, dropped, from, ActiveOf);
    PeakOfTheWhole(peaks.results, past, dropped, from, ResultsOf);
  }

  lemma PeakOfTheWhole(peak: nat, past: seq<Counters>, dropped: nat, from: nat, component: Counters -> nat)
    requires dropped <= |past| && IsPeak(peak, past[dropped..], from, component)
    ensures IsPeak(peak, past, dropped + from, component)
  {
    var kept := past[dropped..];
    forall i | dropped + from <= i < |past| ensures component(past[i]) <= peak {
      assert past[i] == kept[i - dropped];
    }
    var k :| from <= k < |kept| && component(kept[k]) == peak;
    assert past[dropped + k] == kept[k];
  }

  class LifecycleTelemetry {
    var counters: Counters
    var lifecycleEvents: seq<Event>
    var nextLifecycleSequence: nat
    ghost var past: seq<Counters>

    ghost predicate Valid()
      reads this
    {
      && |lifecycleEvents| <= EVENT_CAPACITY
      && History(past, lifecycleEvents)
      && past[|lifecycleEvents|] == counters
    }

    constructor ()
      ensures Valid() && counters == Counters(0, 0, 0) && lifecycleEvents == [] && Clean(past, lifecycleEvents)
    {
      counters, lifecycleEvents, nextLifecycleSequence := Counters(0, 0, 0), [], 1;
      past := [Counters(0, 0, 0)];
    }

    /** Recording keeps the newest events only; the remembered past stays exact. */
    method Record(e: Event)
      requires Valid()
      modifies this
      ensures Valid()
      ensures counters == Forward(old(counters), e) && nextLifecycleSequence == old(nextLifecycleSequence) + 1
      ensures lifecycleEvents == if |old(lifecycleEvents)| == EVENT_CAPACITY then old(lifecycleEvents)[1..] + [e] else old(lifecycleEvents) + [e]
      ensures past == (if |old(lifecycleEvents)| == EVENT_CAPACITY then old(past)[1..] else old(past)) + [counters]
      ensures Clean(old(past), old(lifecycleEvents)) && Unguarded(old(counters), e) ==> Clean(past, lifecycleEvents)
    {
      counters := Forward(counters, e);
      nextLifecycleSequence := nextLifecycleSequence + 1;
      lifecycleEvents := lifecycleEvents + [e];
      past := past + [counters];
      if |lifecycleEvents| > EVENT_CAPACITY {
        lifecycleEvents := lifecycleEvents[1..];
        past := past[1..];
      }
    }

    /**
     * The activity peaks of a snapshot: as long as no guard ever stopped a decrement they are the true
     * maxima of the three counters since the oldest event of the activity window.
     */
    method RecentPeaks(currentMicros: nat, windowMicros: nat) returns (peaks: Counters)
      requires Valid() && Clean(past, lifecycleEvents)
      ensures ArePeaks(peaks, past, Since(lifecycleEvents, if windowMicros <= currentMicros then currentMicros - windowMicros else 0))
    {
      var cutoff := if currentMicros >= windowMicros then currentMicros - windowMicros else 0;
      peaks := PeaksSince(cutoff, counters, lifecycleEvents, past);
    }
  }

  /** Recording a whole log without a stopped decrement keeps its newest events, and the past they can be replayed to. */
  method RecordLog(events: seq<Event>, ghost past: seq<Counters>) returns (t: LifecycleTelemetry)
    requires Clean(past, events) && past[0] == Counters(0, 0, 0)
    ensures fresh(t) && t.Valid() && t.lifecycleEvents == Newest(events) && t.counters == past[|events|]
    ensures t.past == past[|events| - |Newest(events)|..] && Clean(t.past, t.lifecycleEvents)
  {
    t := new LifecycleTelemetry();
    for i := 0 to |events|
      invariant fresh(t) && t.Valid() && Clean(t.past, t.lifecycleEvents)
      invariant Held(t.lifecycleEvents, t.past, events, past, i)
    {
      HeldNext(t.lifecycleEvents, t.past, events, past, i);
      t.Record(events[i]);
    }
    assert events[..|events|] == events && past[..|events| + 1] == past;
  }

  /** After the first `i` events of a log, its newest and the past since the oldest of them. */
  ghost predicate Held(held: seq<Event>, since: seq<Counters>, events: seq<Event>, past: seq<Counters>, i: nat) {
    i <= |events| && |past| == |events| + 1 && held == Newest(events[..i]) && since == past[i - |held|..i + 1]
  }

  lemma HeldNext(held: seq<Event>, since: seq<Counters>, events: seq<Event>, past: seq<Counters>, i: nat)
    requires History(past, events) && i < |events| && Held(held, since, events, past, i)
    ensures since[|held|] == past[i]
    ensures var full := |held| == EVENT_CAPACITY;
      Held((if full then held[1..] else held) + [events[i]], (if full then since[1..] else since) + [Forward(past[i], events[i])], events, past, i + 1)
  {
    NewestNext(events, i);
  }

  /** The peaks a snapshot reports after a whole log are peaks of the whole past. */
  method PeaksOfLog(events: seq<Event>, ghost past: seq<Counters>, currentMicros: nat, windowMicros: nat) returns (peaks: Counters)
    requires Clean(past, events) && past[0] == Counters(0, 0, 0)
    ensures var cutoff := if windowMicros <= currentMicros then currentMicros - windowMicros else 0;
      ArePeaks(peaks, past, |events| - |Newest(events)| + Since(Newest(events), cutoff))
  {
    var telemetry := RecordLog(events, past);
    peaks := telemetry.RecentPeaks(currentMicros, windowMicros);
    ghost var cutoff := if windowMicros <= currentMicros then currentMicros - windowMicros else 0;
    PeaksOfTheWhole(peaks, past, |events| - |Newest(events)|, Since(Newest(events), cutoff));
  }

  /** The reverse loop of a snapshot, from the counters now back to the first event older than the cutoff. */
  method PeaksSince(cutoff: nat, now: Counters, events: seq<Event>, ghost past: seq<Counters>) returns (peaks: Counters)
    requires Clean(past, events) && past[|events|] == now
    ensures ArePeaks(peaks, past, Since(events, cutoff))
  {
    var historical := now;
    peaks := now;
    var index := |events|;
    while index > 0 && events[index - 1].monotonicMicros >= cutoff
      invariant 0 <= index <= |events|
      invariant historical == past[index]
      invariant forall i :: index <= i < |events| ==> cutoff <= events[i].monotonicMicros
      invariant peaks == PeaksOf(past, index)
      decreases index
    {
      CleanStep(past, events, index - 1);
      index := index - 1;
      historical := Backward(historical, events[index]);
      peaks := Higher(peaks, historical);
    }
    assert index == Since(events, cutoff);
    PeaksOfArePeaks(past, index);
  }
}
