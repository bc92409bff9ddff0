/** What every run of the coprocessor keeps: no task is lost, doubled or miscounted. */
module CoprocessorRuns {
  import opened Telemetry
  import opened Coprocessor

  // ----- totals over lanes and results

  ghost function Count<T>(xs: seq<T>, f: T -> nat): nat {
    if xs == [] then 0 else Count(xs[..|xs| - 1], f) + f(xs[|xs| - 1])
  }

  lemma CountAppend<T>(xs: seq<T>, x: T, f: T -> nat)
    ensures Count(xs + [x], f) == Count(xs, f) + f(x)
  {
    assert (xs + [x])[..|xs|] == xs;
  }

  lemma {:induction false} CountUpdate<T>(xs: seq<T>, i: nat, x: T, f: T -> nat)
    requires i < |xs|
    ensures f(xs[i]) <= Count(xs, f)
    ensures Count(xs[i := x], f) == Count(xs, f) - f(xs[i]) + f(x)
  {
    var n := |xs| - 1;
    var ys := xs[i := x];
    if i == n {
      assert ys[..n] == xs[..n];
    } else {
      assert ys[..n] == xs[..n][i := x];
      CountUpdate(xs[..n], i, x, f);
    }
  }

  lemma {:induction false} CountConcat<T>(xs: seq<T>, ys: seq<T>, f: T -> nat)
    ensures Count(xs + ys, f) == Count(xs, f) + Count(ys, f)
  {
    if ys == [] {
      assert xs + ys == xs;
    } else {
      var n := |ys| - 1;
      CountConcat(xs, ys[..n], f);
      assert (xs + ys)[..|xs| + n] == xs + ys[..n];
    }
  }

  function One(b: bool): nat { if b then 1 else 0 }

  /** A lane holds a task between taking it from its queue and handing over its result. */
  predicate Holds(l: Lane, id: TaskId) {
    match l.phase
    case Popped(x) => x == id
    case Started(x) => x == id
    case Executing(x) => x == id
    case Streaming(x) => x == id
    case Ready(x, _) => x == id
    case Recorded(x, _) => x == id
    case _ => false
  }

  function Places(l: Lane, id: TaskId): nat { multiset(l.queue)[id] + One(Holds(l, id)) }

  /** A task of the lane whose cancel flag is still registered. */
  function LivePlaces(l: Lane, id: TaskId): nat { Places(l, id) + One(l.phase.Delivered? && l.phase.id == id) }

  function PlacesOf(id: TaskId): Lane -> nat { (l: Lane) => Places(l, id) }

  function LivePlacesOf(id: TaskId): Lane -> nat { (l: Lane) => LivePlaces(l, id) }

  function FinalsOf(id: TaskId): Result -> nat { (r: Result) => One(r.final && r.id == id) }

  function QueuedIn(l: Lane): nat { |l.queue| + One(l.phase.Popped?) }

  function ActiveIn(l: Lane): nat { One(l.phase.Started? || l.phase.Executing? || l.phase.Streaming? || l.phase.Ready?) }

  function ResultsIn(l: Lane): nat { One(l.phase.Recorded? || l.phase.Streaming?) }

  // ----- the invariant

  /** How often a task is queued or held by a worker. */
  ghost function Pending(s: State, id: TaskId): nat { Count(s.lanes, PlacesOf(id)) + multiset(s.cleared)[id] }

  /** How many final results a task has produced, wherever they are now. */
  ghost function Produced(s: State, id: TaskId): nat {
    Count(s.results, FinalsOf(id)) + Count(s.pumped, FinalsOf(id)) + Count(s.disposed, FinalsOf(id))
  }

  ghost function Dropped(s: State, id: TaskId): nat { multiset(s.discarded)[id] }

  /** Each accepted task is in exactly one place: pending, produced or discarded, and there once. */
  ghost predicate Conserved(s: State) {
    forall id :: Pending(s, id) + Produced(s, id) + Dropped(s, id) == One(id in s.accepted)
  }

  ghost function Live(s: State, id: TaskId): nat {
    Count(s.lanes, LivePlacesOf(id)) + multiset(s.cleared)[id] + multiset(s.forgetting)[id] + One(s.holder.HasFlag? && s.holder.id == id)
  }

  /** The registered cancel flags are those of the tasks not yet finished with. */
  ghost predicate FlagsExact(s: State) {
    && (forall id :: Live(s, id) == One(id in s.flagged))
    && forall id :: id in s.flagged ==> id in s.accepted || (s.holder.HasFlag? && id == s.holder.id)
  }

  /** The telemetry counters are the real numbers of queued tasks, running tasks and undisposed results. */
  ghost predicate Counted(s: State) {
    && s.counters.queued == Count(s.lanes, QueuedIn) + |s.cleared|
    && s.counters.active == Count(s.lanes, ActiveIn)
    && s.counters.results == Count(s.lanes, ResultsIn) + |s.results| + One(Pumping(s) && !s.pumpedRecorded)
  }

  predicate Visited(s: State) { !(s.stage.Open? || s.stage.FlaggingTasks? || s.stage.ListingLanes?) }

  /** A lane that shutdown has stopped and emptied. */
  predicate Drained(l: Lane) { l.queue == [] && (l.listing.Gone? || l.stopRequested) }

  predicate LaneOk(s: State, l: Lane) {
    && (l.phase.Exited? ==> l.queue == [])
    && (l.listing.Gone? ==> l.phase.Exited?)
    && (l.oneShot ==> |l.queue| <= 1 && (!l.phase.Waiting? ==> l.queue == []))
    && (l.stopRequested ==> !l.listing.Registered? || Visited(s))
    && (l.phase.Exited? && l.listing.Registered? ==> l.oneShot || Visited(s))
  }

  /** A lane that a submission under the worker mutex may still push to. */
  predicate OpenForSubmission(s: State, lane: nat) {
    && !Visited(s) && lane < |s.lanes|
    && var l := s.lanes[lane];
    && l.listing.Registered? && !l.stopRequested && !l.phase.Exited?
    && (l.oneShot ==> l.queue == [] && l.phase.Waiting?)
  }

  predicate HolderOk(s: State) {
    match s.holder
    case Free => true
    case MayRegister => !Visited(s)
    case MayStartOneShot => !Visited(s)
    case Submitting(lane) => OpenForSubmission(s, lane)
    case HasId(lane, id) => OpenForSubmission(s, lane) && 0 < id < s.nextTaskId && id !in s.accepted
    case HasFlag(lane, id) => OpenForSubmission(s, lane) && 0 < id < s.nextTaskId && id !in s.accepted
  }

  predicate StageOk(s: State) {
    && (s.shuttingDown <==> !s.stage.Open?)
    && (!s.stage.DiscardingTasks? ==> s.cleared == [] && s.forgetting == [])
    && |s.pumped| <= 1 && |s.forgetting| <= 1
    && (Pumping(s) ==> s.stage.Open? || s.stage.Draining?)
    && match s.stage
       case StoppingLane(n) => n <= |s.lanes| && forall i :: 0 <= i < n ==> Drained(s.lanes[i])
       case ClearingLane(n) => n < |s.lanes| && (forall i :: 0 <= i < n ==> Drained(s.lanes[i])) && (s.lanes[n].listing.Gone? || s.lanes[n].stopRequested)
       case DiscardingTasks(n) => n < |s.lanes| && forall i :: 0 <= i <= n ==> Drained(s.lanes[i])
       case Joining => forall i :: 0 <= i < |s.lanes| ==> Drained(s.lanes[i])
       case Draining => forall i :: 0 <= i < |s.lanes| ==> s.lanes[i].phase.Exited?
       case DroppingFlags => s.results == [] && forall i :: 0 <= i < |s.lanes| ==> s.lanes[i].phase.Exited?
       case Closed => s.results == [] && forall i :: 0 <= i < |s.lanes| ==> s.lanes[i].phase.Exited?
       case _ => true
  }

  predicate Fits(s: State) {
    && s.nextTaskId > 0
    && (forall id :: id in s.accepted ==> 0 < id < s.nextTaskId)
    && (forall i :: 0 <= i < |s.lanes| ==> LaneOk(s, s.lanes[i]))
    && HolderOk(s) && StageOk(s)
  }

  ghost predicate Inv(s: State) { Fits(s) && Conserved(s) && FlagsExact(s) && Counted(s) }

  lemma Initially()
    ensures Inv(INITIAL)
  {
  }

  // ----- the shape is kept

  /** Everything a worker leaves alone. */
  predicate SameButLane(s: State, t: State, i: nat, l: Lane) {
    && At(s, i) && t.lanes == s.lanes[i := l]
    && t.shuttingDown == s.shuttingDown && t.stage == s.stage && t.holder == s.holder && t.nextTaskId == s.nextTaskId
    && t.accepted == s.accepted && t.cleared == s.cleared && t.forgetting == s.forgetting && t.pumped == s.pumped
  }

  lemma FitsAfterLane(s: State, t: State, i: nat, l: Lane)
    requires Fits(s) && SameButLane(s, t, i, l)
    requires !s.lanes[i].phase.Exited?
    requires l == s.lanes[i].(queue := l.queue, phase := l.phase) && LaneOk(s, l)
    requires s.lanes[i].queue == [] ==> l.queue == []
    requires (!s.holder.Free? && !s.holder.MayRegister? && !s.holder.MayStartOneShot?) && s.holder.lane == i ==> OpenForSubmission(t, i)
    ensures Fits(t)
  {
    assert forall j :: 0 <= j < |t.lanes| && j != i ==> t.lanes[j] == s.lanes[j];
    assert forall j :: 0 <= j < |t.lanes| && j != i ==> LaneOk(s, t.lanes[j]);
    assert forall j :: 0 <= j < |t.lanes| ==> (LaneOk(t, t.lanes[j]) <==> LaneOk(s, t.lanes[j]));
  }

  lemma FitsWorker(s: State, i: nat, a: WorkerAction)
    requires Fits(s) && At(s, i) && WorkerEnabled(s.lanes[i], s.cancelled, a)
    ensures Fits(AfterWorker(s, i, a))
  {
    var t := AfterWorker(s, i, a);
    assert LaneOk(s, s.lanes[i]);
    FitsAfterLane(s, t, i, t.lanes[i]);
  }

  lemma FitsSubmitter(s: State, a: SubmitterAction)
    requires Fits(s) && SubmitterEnabled(s, a) && !a.Unregister? && !a.Reap?
    ensures Fits(AfterSubmitter(s, a))
  {
  }

  lemma FitsRetire(s: State, a: SubmitterAction)
    requires Fits(s) && SubmitterEnabled(s, a) && (a.Unregister? || a.Reap?)
    ensures Fits(AfterSubmitter(s, a))
  {
    var t := AfterSubmitter(s, a);
    RetireFrame(s, a);
    assert LaneOk(s, s.lanes[a.lane]);
    forall j | 0 <= j < |t.lanes| ensures LaneOk(t, t.lanes[j]) {
      if j != a.lane { assert LaneOk(s, s.lanes[j]); }
    }
  }

  /** A lane that is retired keeps its queue and its worker. */
  lemma RetireFrame(s: State, a: SubmitterAction)
    requires SubmitterEnabled(s, a) && (a.Unregister? || a.Reap?)
    ensures var t := AfterSubmitter(s, a);
      && t == s.(lanes := t.lanes, cancelled := t.cancelled) && t.lanes == s.lanes[a.lane := t.lanes[a.lane]]
      && t.lanes[a.lane] == s.lanes[a.lane].(stopRequested := t.lanes[a.lane].stopRequested, listing := t.lanes[a.lane].listing)
      && (a.Unregister? ==> t.lanes[a.lane].listing.Retiring?) && (a.Reap? ==> t.lanes[a.lane].listing.Gone?)
      && (a.Reap? ==> t.lanes[a.lane].stopRequested == s.lanes[a.lane].stopRequested)
  {
  }

  lemma FitsPump(s: State, a: PumpAction)
    requires Fits(s) && PumpEnabled(s, a)
    ensures Fits(AfterPump(s, a))
  {
    var t := AfterPump(s, a);
    assert t.lanes == s.lanes && t.stage == s.stage && t.holder == s.holder && t.accepted == s.accepted && t.nextTaskId == s.nextTaskId;
    assert Visited(t) == Visited(s);
    assert forall i :: 0 <= i < |t.lanes| ==> LaneOk(s, t.lanes[i]);
  }

  lemma FitsStopOrClear(s: State, a: ShutdownAction)
    requires Fits(s) && ShutdownEnabled(s, a) && (a.StopLane? || a.ClearLane?)
    ensures Fits(AfterShutdown(s, a))
  {
    var t, n := AfterShutdown(s, a), s.stage.next;
    assert LaneOk(s, s.lanes[n]);
    assert forall i :: 0 <= i < |t.lanes| && i != n ==> t.lanes[i] == s.lanes[i];
  }

  lemma FitsShutdown(s: State, a: ShutdownAction)
    requires Fits(s) && ShutdownEnabled(s, a) && !a.StopLane? && !a.ClearLane?
    ensures Fits(AfterShutdown(s, a))
  {
    var t := AfterShutdown(s, a);
    assert t.lanes == s.lanes;
    assert forall i :: 0 <= i < |t.lanes| ==> LaneOk(s, t.lanes[i]);
  }

  /** The shape of lanes, worker mutex and shutdown is kept by every action. */
  lemma FitsNext(s: State, a: Action)
    requires Fits(s) && Enabled(s, a)
    ensures Fits(Next(s, a))
  {
    match a
    case OfSubmitter(x) => if x.Unregister? || x.Reap? { FitsRetire(s, x); } else { FitsSubmitter(s, x); }
    case OfWorker(i, x) => FitsWorker(s, i, x);
    case OfPump(x) => FitsPump(s, x);
    case OfShutdown(x) => if x.StopLane? || x.ClearLane? { FitsStopOrClear(s, x); } else { FitsShutdown(s, x); }
  }

  // ----- conservation

  lemma FirstOf(q: seq<TaskId>, id: TaskId)
    requires q != []
    ensures multiset(q)[id] == One(q[0] == id) + multiset(q[1..])[id]
  {
    assert q == [q[0]] + q[1..];
  }

  lemma {:induction false} TakenOut(rs: seq<Result>, k: nat, f: Result -> nat)
    requires k < |rs|
    ensures Count(rs, f) == Count(rs[..k] + rs[k + 1..], f) + f(rs[k])
  {
    var n := |rs| - 1;
    var without := rs[..k] + rs[k + 1..];
    if k == n {
      assert without == rs[..n];
    } else {
      var front := rs[..n];
      TakenOut(front, k, f);
      assert without[..n - 1] == front[..k] + front[k + 1..];
      assert without[n - 1] == rs[n];
    }
  }

  ghost function Total(s: State, id: TaskId): nat { Pending(s, id) + Produced(s, id) + Dropped(s, id) }

  /** What one worker action does to the places of a task in its lane. */
  lemma LanePlacesAfter(l: Lane, cancelled: set<TaskId>, a: WorkerAction, id: TaskId)
    requires WorkerEnabled(l, cancelled, a)
    ensures Places(LaneAfter(l, cancelled, a), id) == Places(l, id) - One(a.PushResult? && l.phase.id == id)
    ensures LivePlaces(LaneAfter(l, cancelled, a), id) == LivePlaces(l, id) - One(a.Forget? && l.phase.id == id)
  {
    if a.Pop? { FirstOf(l.queue, id); }
  }

  lemma TotalAfterWorker(s: State, i: nat, a: WorkerAction, id: TaskId)
    requires At(s, i) && WorkerEnabled(s.lanes[i], s.cancelled, a)
    ensures Total(AfterWorker(s, i, a), id) == Total(s, id)
  {
    var l, l' := s.lanes[i], LaneAfter(s.lanes[i], s.cancelled, a);
    var t := AfterWorker(s, i, a);
    LanePlacesAfter(l, s.cancelled, a, id);
    CountUpdate(s.lanes, i, l', PlacesOf(id));
    assert t.lanes == s.lanes[i := l'];
    if a.PushResult? {
      CountAppend(s.results, Result(l.phase.id, l.phase.status, true), FinalsOf(id));
    } else if a.PushChunk? {
      CountAppend(s.results, Result(l.phase.id, Completed, false), FinalsOf(id));
    }
  }

  lemma TotalAfterEnqueue(s: State, id: TaskId)
    requires SubmitterEnabled(s, Enqueue)
    ensures Total(AfterSubmitter(s, Enqueue), id) == Total(s, id) + One(s.holder.id == id)
  {
    var i := s.holder.lane;
    var l := s.lanes[i];
    var l' := l.(queue := l.queue + [s.holder.id]);
    assert Places(l', id) == Places(l, id) + One(s.holder.id == id);
    CountUpdate(s.lanes, i, l', PlacesOf(id));
  }

  lemma AfterFreshLane(s: State, t: State, oneShot: bool, id: TaskId)
    requires t == s.(holder := t.holder, lanes := s.lanes + [FreshLane(oneShot)]) && !t.holder.HasFlag? && !s.holder.HasFlag?
    ensures Total(t, id) == Total(s, id) && Live(t, id) == Live(s, id)
  {
    CountAppend(s.lanes, FreshLane(oneShot), PlacesOf(id));
    CountAppend(s.lanes, FreshLane(oneShot), LivePlacesOf(id));
  }

  lemma AfterLaneRetires(s: State, a: SubmitterAction, id: TaskId)
    requires SubmitterEnabled(s, a) && (a.Unregister? || a.Reap?)
    ensures var t := AfterSubmitter(s, a); Total(t, id) == Total(s, id) && Live(t, id) == Live(s, id)
  {
    SameLanePlaces(s, AfterSubmitter(s, a), a.lane, id);
  }

  lemma TotalAfterSubmitter(s: State, a: SubmitterAction, id: TaskId)
    requires SubmitterEnabled(s, a) && !a.Enqueue?
    ensures Total(AfterSubmitter(s, a), id) == Total(s, id)
    ensures Live(AfterSubmitter(s, a), id) == Live(s, id) + One(a.PublishFlag? && s.holder.id == id)
  {
    var t := AfterSubmitter(s, a);
    match a
    case FinishRegister => AfterFreshLane(s, t, false, id);
    case StartOneShotLane => AfterFreshLane(s, t, true, id);
    case Unregister(_) => AfterLaneRetires(s, a, id);
    case Reap(_) => AfterLaneRetires(s, a, id);
    case _ =>
  }

  lemma SameLanePlaces(s: State, t: State, i: nat, id: TaskId)
    requires At(s, i) && |t.lanes| == |s.lanes| && t.lanes == s.lanes[i := t.lanes[i]]
    requires t.lanes[i].queue == s.lanes[i].queue && t.lanes[i].phase == s.lanes[i].phase
    ensures Count(t.lanes, PlacesOf(id)) == Count(s.lanes, PlacesOf(id))
    ensures Count(t.lanes, LivePlacesOf(id)) == Count(s.lanes, LivePlacesOf(id))
    ensures Count(t.lanes, QueuedIn) == Count(s.lanes, QueuedIn)
    ensures Count(t.lanes, ActiveIn) == Count(s.lanes, ActiveIn)
    ensures Count(t.lanes, ResultsIn) == Count(s.lanes, ResultsIn)
  {
    CountUpdate(s.lanes, i, t.lanes[i], PlacesOf(id));
    CountUpdate(s.lanes, i, t.lanes[i], LivePlacesOf(id));
    CountUpdate(s.lanes, i, t.lanes[i], QueuedIn);
    CountUpdate(s.lanes, i, t.lanes[i], ActiveIn);
    CountUpdate(s.lanes, i, t.lanes[i], ResultsIn);
  }

  lemma TotalAfterPump(s: State, a: PumpAction, id: TaskId)
    requires PumpEnabled(s, a) && |s.pumped| <= 1
    ensures Total(AfterPump(s, a), id) == Total(s, id)
  {
    match a
    case TakeResult(k) =>
      TakenOut(s.results, k, FinalsOf(id));
      CountAppend([], s.results[k], FinalsOf(id));
      assert [] + [s.results[k]] == [s.results[k]];
    case Dispose(_) => CountConcat(s.disposed, s.pumped, FinalsOf(id));
    case AcceptDeferred =>
  }

  lemma ClearedPlaces(lanes: seq<Lane>, n: nat, id: TaskId)
    requires n < |lanes|
    ensures var l := lanes[n]; var lanes' := lanes[n := l.(queue := [])];
      && Count(lanes, PlacesOf(id)) == Count(lanes', PlacesOf(id)) + multiset(l.queue)[id]
      && Count(lanes, LivePlacesOf(id)) == Count(lanes', LivePlacesOf(id)) + multiset(l.queue)[id]
  {
    var l' := lanes[n].(queue := []);
    CountUpdate(lanes, n, l', PlacesOf(id));
    CountUpdate(lanes, n, l', LivePlacesOf(id));
  }

  lemma ClearedCounts(lanes: seq<Lane>, n: nat)
    requires n < |lanes|
    ensures var l := lanes[n]; var lanes' := lanes[n := l.(queue := [])];
      && Count(lanes, QueuedIn) == Count(lanes', QueuedIn) + |l.queue|
      && Count(lanes, ActiveIn) == Count(lanes', ActiveIn) && Count(lanes, ResultsIn) == Count(lanes', ResultsIn)
  {
    var l' := lanes[n].(queue := []);
    CountUpdate(lanes, n, l', QueuedIn);
    CountUpdate(lanes, n, l', ActiveIn);
    CountUpdate(lanes, n, l', ResultsIn);
  }

  lemma AfterStopLane(s: State, id: TaskId)
    requires ShutdownEnabled(s, StopLane)
    ensures var t := AfterShutdown(s, StopLane); Total(t, id) == Total(s, id) && Live(t, id) == Live(s, id)
  {
    var n, t := s.stage.next, AfterShutdown(s, StopLane);
    StopFrame(s);
    SameLanePlaces(s, t, n, id);
  }

  lemma StopFrame(s: State)
    requires ShutdownEnabled(s, StopLane)
    ensures var n, t := s.stage.next, AfterShutdown(s, StopLane);
      && t == s.(lanes := t.lanes, cancelled := t.cancelled, stage := t.stage) && |t.lanes| == |s.lanes|
      && t.lanes == s.lanes[n := t.lanes[n]] && t.lanes[n].queue == s.lanes[n].queue && t.lanes[n].phase == s.lanes[n].phase
  {
  }

  lemma AfterClearLane(s: State, id: TaskId)
    requires ShutdownEnabled(s, ClearLane) && s.cleared == []
    ensures var t := AfterShutdown(s, ClearLane); Total(t, id) == Total(s, id) && Live(t, id) == Live(s, id)
  {
    var n, t := s.stage.next, AfterShutdown(s, ClearLane);
    if s.lanes[n].listing.Gone? {
      assert t == s.(stage := t.stage);
    } else {
      ClearedPlaces(s.lanes, n, id);
      assert t == s.(lanes := s.lanes[n := s.lanes[n].(queue := [])], cleared := s.lanes[n].queue, stage := t.stage);
    }
  }

  lemma AfterRecordDiscard(s: State, id: TaskId)
    requires ShutdownEnabled(s, RecordDiscard)
    ensures var t := AfterShutdown(s, RecordDiscard); Total(t, id) == Total(s, id) && Live(t, id) == Live(s, id)
  {
    FirstOf(s.cleared, id);
  }

  lemma AfterClearResults(s: State, id: TaskId)
    requires ShutdownEnabled(s, ClearResults)
    ensures var t := AfterShutdown(s, ClearResults); Total(t, id) == Total(s, id) && Live(t, id) == Live(s, id)
  {
    CountConcat(s.disposed, s.results, FinalsOf(id));
  }

  lemma AfterQuietShutdown(s: State, a: ShutdownAction, id: TaskId)
    requires ShutdownEnabled(s, a) && |s.forgetting| <= 1
    requires !a.StopLane? && !a.ClearLane? && !a.RecordDiscard? && !a.ClearResults?
    ensures Total(AfterShutdown(s, a), id) == Total(s, id)
    ensures Live(AfterShutdown(s, a), id) == Live(s, id) - One(a.ForgetDiscarded? && s.forgetting[0] == id)
  {
    var t := AfterShutdown(s, a);
    assert t.lanes == s.lanes && t.results == s.results && t.pumped == s.pumped && t.disposed == s.disposed
        && t.cleared == s.cleared && t.discarded == s.discarded && t.holder == s.holder;
  }

  lemma TotalAfterShutdown(s: State, a: ShutdownAction, id: TaskId)
    requires ShutdownEnabled(s, a) && StageOk(s)
    ensures Total(AfterShutdown(s, a), id) == Total(s, id)
    ensures Live(AfterShutdown(s, a), id) == Live(s, id) - One(a.ForgetDiscarded? && s.forgetting[0] == id)
  {
    match a
    case StopLane => AfterStopLane(s, id);
    case ClearLane => AfterClearLane(s, id);
    case RecordDiscard => AfterRecordDiscard(s, id);
    case ClearResults => AfterClearResults(s, id);
    case _ => AfterQuietShutdown(s, a, id);
  }

  lemma TotalNext(s: State, a: Action, id: TaskId)
    requires Fits(s) && Enabled(s, a)
    ensures Total(Next(s, a), id) == Total(s, id) + One(a == OfSubmitter(Enqueue) && s.holder.id == id)
  {
    match a
    case OfSubmitter(x) => if x.Enqueue? { TotalAfterEnqueue(s, id); } else { TotalAfterSubmitter(s, x, id); }
    case OfWorker(i, x) => TotalAfterWorker(s, i, x, id);
    case OfPump(x) => TotalAfterPump(s, x, id);
    case OfShutdown(x) => TotalAfterShutdown(s, x, id);
  }

  function AcceptedAfter(s: State, a: Action): set<TaskId>
    requires Enabled(s, a)
  {
    if a == OfSubmitter(Enqueue) then s.accepted + {s.holder.id} else s.accepted
  }

  lemma AcceptedFrame(s: State, a: Action)
    requires Enabled(s, a)
    ensures Next(s, a).accepted == AcceptedAfter(s, a)
  {
    match a
    case OfSubmitter(x) => assert AfterSubmitter(s, x).accepted == AcceptedAfter(s, a);
    case OfWorker(i, x) => assert AfterWorker(s, i, x).accepted == s.accepted;
    case OfPump(x) => assert AfterPump(s, x).accepted == s.accepted;
    case OfShutdown(x) => assert AfterShutdown(s, x).accepted == s.accepted;
  }

  lemma AcceptedNext(s: State, a: Action, id: TaskId)
    requires HolderOk(s) && Enabled(s, a)
    ensures One(id in AcceptedAfter(s, a)) == One(id in s.accepted) + One(a == OfSubmitter(Enqueue) && s.holder.id == id)
  {
  }

  /** No action loses a task, doubles it, or gives it both a result and a discard. */
  lemma ConservedNext(s: State, a: Action)
    requires Fits(s) && Conserved(s) && Enabled(s, a)
    ensures Conserved(Next(s, a))
  {
    AcceptedFrame(s, a);
    forall id ensures Total(Next(s, a), id) == One(id in Next(s, a).accepted) {
      assert Total(s, id) == One(id in s.accepted);
      TotalNext(s, a, id);
      AcceptedNext(s, a, id);
    }
  }

  // ----- cancel flags

  /** Flags registered and dropped by an action. */
  predicate Publishes(s: State, a: Action, id: TaskId) { a == OfSubmitter(PublishFlag) && s.holder.HasId? && s.holder.id == id }

  predicate Unflags(s: State, a: Action, id: TaskId)
    requires Enabled(s, a)
  {
    || (a.OfWorker? && a.worker.Forget? && s.lanes[a.lane].phase.id == id)
    || (a == OfShutdown(ForgetDiscarded) && s.forgetting[0] == id)
  }

  lemma LiveAfterEnqueue(s: State, id: TaskId)
    requires SubmitterEnabled(s, Enqueue)
    ensures Live(AfterSubmitter(s, Enqueue), id) == Live(s, id)
  {
    var l := s.lanes[s.holder.lane];
    var l' := l.(queue := l.queue + [s.holder.id]);
    assert LivePlaces(l', id) == LivePlaces(l, id) + One(s.holder.id == id);
    CountUpdate(s.lanes, s.holder.lane, l', LivePlacesOf(id));
  }

  lemma LiveAfterWorker(s: State, i: nat, a: WorkerAction, id: TaskId)
    requires At(s, i) && WorkerEnabled(s.lanes[i], s.cancelled, a)
    ensures Live(AfterWorker(s, i, a), id) == Live(s, id) - One(a.Forget? && s.lanes[i].phase.id == id)
  {
    var l, l' := s.lanes[i], LaneAfter(s.lanes[i], s.cancelled, a);
    LanePlacesAfter(l, s.cancelled, a, id);
    CountUpdate(s.lanes, i, l', LivePlacesOf(id));
    assert AfterWorker(s, i, a).lanes == s.lanes[i := l'];
  }

  lemma LiveNext(s: State, a: Action, id: TaskId)
    requires Fits(s) && Enabled(s, a)
    ensures Live(Next(s, a), id) == Live(s, id) + One(Publishes(s, a, id)) - One(Unflags(s, a, id))
  {
    match a
    case OfSubmitter(x) => if x.Enqueue? { LiveAfterEnqueue(s, id); } else { TotalAfterSubmitter(s, x, id); }
    case OfWorker(i, x) => LiveAfterWorker(s, i, x, id);
    case OfPump(x) =>
    case OfShutdown(x) => TotalAfterShutdown(s, x, id);
  }

  lemma {:induction false} NoneIn<T>(xs: seq<T>, f: T -> nat)
    requires forall i :: 0 <= i < |xs| ==> f(xs[i]) == 0
    ensures Count(xs, f) == 0
  {
    if xs != [] { NoneIn(xs[..|xs| - 1], f); }
  }

  /** Once every worker has exited and the cleared tasks are done with, no task is live. */
  lemma NothingLive(s: State, id: TaskId)
    requires Fits(s) && Visited(s) && s.cleared == [] && s.forgetting == []
    requires forall i :: 0 <= i < |s.lanes| ==> s.lanes[i].phase.Exited?
    ensures Live(s, id) == 0 && Pending(s, id) == 0
  {
    forall i | 0 <= i < |s.lanes| ensures LivePlacesOf(id)(s.lanes[i]) == 0 && PlacesOf(id)(s.lanes[i]) == 0 {
      assert LaneOk(s, s.lanes[i]);
    }
    NoneIn(s.lanes, LivePlacesOf(id));
    NoneIn(s.lanes, PlacesOf(id));
  }

  function FlagsAfter(s: State, a: Action): set<TaskId>
    requires Enabled(s, a)
  {
    match a
    case OfSubmitter(x) => if x.PublishFlag? then s.flagged + {s.holder.id} else s.flagged
    case OfWorker(i, x) => if x.Forget? then s.flagged - {s.lanes[i].phase.id} else s.flagged
    case OfPump(x) => s.flagged
    case OfShutdown(x) => if x.ForgetDiscarded? then s.flagged - {s.forgetting[0]} else if x.ClearFlags? then {} else s.flagged
  }

  lemma FlagsFrame(s: State, a: Action)
    requires Enabled(s, a)
    ensures Next(s, a).flagged == FlagsAfter(s, a)
  {
    match a
    case OfSubmitter(x) => assert AfterSubmitter(s, x).flagged == FlagsAfter(s, a);
    case OfWorker(i, x) => assert AfterWorker(s, i, x).flagged == FlagsAfter(s, a);
    case OfPump(x) => assert AfterPump(s, x).flagged == s.flagged;
    case OfShutdown(x) => assert AfterShutdown(s, x).flagged == FlagsAfter(s, a);
  }

  lemma FlaggedNext(s: State, a: Action, id: TaskId)
    requires Enabled(s, a)
    requires Publishes(s, a, id) ==> id !in s.flagged
    requires Unflags(s, a, id) ==> id in s.flagged
    requires a == OfShutdown(ClearFlags) ==> id !in s.flagged
    ensures One(id in FlagsAfter(s, a)) == One(id in s.flagged) + One(Publishes(s, a, id)) - One(Unflags(s, a, id))
  {
  }

  lemma OwnersNext(s: State, a: Action)
    requires HolderOk(s) && Enabled(s, a)
    requires forall id :: id in s.flagged ==> id in s.accepted || (s.holder.HasFlag? && id == s.holder.id)
    ensures var h := Next(s, a).holder; forall id :: id in FlagsAfter(s, a) ==> id in AcceptedAfter(s, a) || (h.HasFlag? && id == h.id)
  {
    match a
    case OfSubmitter(x) =>
    case OfWorker(i, x) => assert AfterWorker(s, i, x).holder == s.holder;
    case OfPump(x) => assert AfterPump(s, x).holder == s.holder;
    case OfShutdown(x) => assert AfterShutdown(s, x).holder == s.holder;
  }

  /** cancelTask finds a flag exactly for the tasks that are queued, running or not yet forgotten. */
  lemma FlagsNext(s: State, a: Action)
    requires Fits(s) && FlagsExact(s) && Enabled(s, a)
    ensures FlagsExact(Next(s, a))
  {
    OwnersNext(s, a);
    AcceptedFrame(s, a);
    FlagsFrame(s, a);
    forall id ensures Live(Next(s, a), id) == One(id in Next(s, a).flagged) {
      assert Live(s, id) == One(id in s.flagged);
      if a == OfShutdown(ClearFlags) { NothingLive(s, id); }
      LiveNext(s, a, id);
      assert Unflags(s, a, id) ==> Live(s, id) > 0;
      FlaggedNext(s, a, id);
    }
  }

  // ----- counters

  lemma LaneCountsAfter(l: Lane, cancelled: set<TaskId>, a: WorkerAction)
    requires WorkerEnabled(l, cancelled, a)
    ensures var l' := LaneAfter(l, cancelled, a);
      && QueuedIn(l') == QueuedIn(l) - One(a.RecordRunning?)
      && ActiveIn(l') == ActiveIn(l) + One(a.RecordRunning?) - One(a.RecordResult?)
      && ResultsIn(l') == ResultsIn(l) + One(a.RecordChunk? || a.RecordResult?) - One(a.PushChunk? || a.PushResult?)
  {
  }

  /** The events an action records, in order. */
  function Events(s: State, a: Action): seq<Event>
    requires Enabled(s, a)
  {
    match a
    case OfSubmitter(x) => if x.Enqueue? then [Mark(LifecycleState.Queued, NoReason)] else []
    case OfWorker(i, x) =>
      if x.RecordRunning? then [Mark(LifecycleState.Running, NoReason)]
      else if x.RecordChunk? then [Mark(ResultReady, StreamChunk)]
      else if x.RecordResult? then [Mark(ResultReady, ReasonFor(s.lanes[i].phase.status))]
      else []
    case OfPump(x) =>
      if x.AcceptDeferred? then [Mark(Accepted, ResultAccepted)]
      else if x.Dispose? && !s.pumpedRecorded then [if x.adopted then Mark(Adopted, ResultAdopted) else Mark(LifecycleState.Discarded, ResultRejected)]
      else []
    case OfShutdown(x) =>
      if x.RecordDiscard? then [Mark(LifecycleState.Discarded, TaskCancelled)]
      else if x.ClearResults? then seq(|s.results|, _ => Mark(LifecycleState.Discarded, ResultRejected))
      else []
  }

  /** The counters after each of a list of events. */
  ghost function Trail(c: Counters, events: seq<Event>): (r: seq<Counters>)
    ensures |r| == |events| + 1 && r[0] == c
  {
    if events == [] then [c]
    else
      var front := Trail(c, events[..|events| - 1]);
      front + [Forward(front[|events| - 1], events[|events| - 1])]
  }

  ghost predicate AllUnguarded(c: Counters, events: seq<Event>) { Clean(Trail(c, events), events) }

  lemma {:induction false} TrailIsHistory(c: Counters, events: seq<Event>)
    ensures History(Trail(c, events), events)
  {
    if events != [] {
      var n := |events| - 1;
      TrailIsHistory(c, events[..n]);
    }
  }

  lemma CountedWorker(s: State, i: nat, a: WorkerAction)
    requires Counted(s) && At(s, i) && WorkerEnabled(s.lanes[i], s.cancelled, a)
    ensures Counted(AfterWorker(s, i, a))
    ensures a.RecordRunning? ==> s.counters.queued > 0
    ensures a.RecordResult? ==> s.counters.active > 0
  {
    var l, l' := s.lanes[i], LaneAfter(s.lanes[i], s.cancelled, a);
    LaneCountsAfter(l, s.cancelled, a);
    CountUpdate(s.lanes, i, l', QueuedIn);
    CountUpdate(s.lanes, i, l', ActiveIn);
    CountUpdate(s.lanes, i, l', ResultsIn);
    assert AfterWorker(s, i, a).lanes == s.lanes[i := l'];
  }

  lemma CountedSubmitter(s: State, a: SubmitterAction)
    requires Counted(s) && SubmitterEnabled(s, a)
    ensures Counted(AfterSubmitter(s, a))
  {
    match a
    case FinishRegister => FreshCounts(s.lanes, false);
    case StartOneShotLane => FreshCounts(s.lanes, true);
    case Unregister(i) => CountedRetire(s, a);
    case Reap(i) => CountedRetire(s, a);
    case Enqueue => CountedEnqueue(s);
    case _ =>
      var t := AfterSubmitter(s, a);
      assert t == s.(holder := t.holder, nextTaskId := t.nextTaskId, flagged := t.flagged, cancelled := t.cancelled);
  }

  lemma CountedRetire(s: State, a: SubmitterAction)
    requires Counted(s) && SubmitterEnabled(s, a) && (a.Unregister? || a.Reap?)
    ensures Counted(AfterSubmitter(s, a))
  {
    var t := AfterSubmitter(s, a);
    SameLanePlaces(s, t, a.lane, 0);
    assert t == s.(lanes := t.lanes, cancelled := t.cancelled);
  }

  lemma CountedEnqueue(s: State)
    requires Counted(s) && SubmitterEnabled(s, Enqueue)
    ensures Counted(AfterSubmitter(s, Enqueue))
  {
    var l := s.lanes[s.holder.lane];
    var l' := l.(queue := l.queue + [s.holder.id]);
    CountUpdate(s.lanes, s.holder.lane, l', QueuedIn);
    CountUpdate(s.lanes, s.holder.lane, l', ActiveIn);
    CountUpdate(s.lanes, s.holder.lane, l', ResultsIn);
  }

  lemma FreshCounts(lanes: seq<Lane>, oneShot: bool)
    ensures var next := lanes + [FreshLane(oneShot)];
      && Count(next, QueuedIn) == Count(lanes, QueuedIn) && Count(next, ActiveIn) == Count(lanes, ActiveIn)
      && Count(next, ResultsIn) == Count(lanes, ResultsIn)
  {
    CountAppend(lanes, FreshLane(oneShot), QueuedIn);
    CountAppend(lanes, FreshLane(oneShot), ActiveIn);
    CountAppend(lanes, FreshLane(oneShot), ResultsIn);
  }

  lemma CountedPump(s: State, a: PumpAction)
    requires Counted(s) && PumpEnabled(s, a)
    ensures Counted(AfterPump(s, a))
    ensures (a.AcceptDeferred? || a.Dispose?) && !s.pumpedRecorded ==> s.counters.results > 0
  {
  }

  lemma {:induction false} AllRejectedCounts(c: Counters, n: nat)
    requires n <= c.results
    ensures AllRejected(c, n) == c.(results := c.results - n)
  {
    if n > 0 { AllRejectedCounts(c, n - 1); }
  }

  lemma CountedShutdown(s: State, a: ShutdownAction)
    requires Counted(s) && StageOk(s) && ShutdownEnabled(s, a)
    ensures Counted(AfterShutdown(s, a))
    ensures a.RecordDiscard? ==> s.counters.queued > 0
    ensures a.ClearResults? ==> |s.results| <= s.counters.results
  {
    match a
    case StopLane => SameLanePlaces(s, AfterShutdown(s, a), s.stage.next, 0);
    case ClearLane => ClearedCounts(s.lanes, s.stage.next);
    case ClearResults => AllRejectedCounts(s.counters, |s.results|);
    case _ =>
  }

  /** The counters stay the real numbers of queued tasks, running tasks and undisposed results. */
  lemma CountedNext(s: State, a: Action)
    requires Fits(s) && Counted(s) && Enabled(s, a)
    ensures Counted(Next(s, a))
  {
    match a
    case OfSubmitter(x) => CountedSubmitter(s, x);
    case OfWorker(i, x) => CountedWorker(s, i, x);
    case OfPump(x) => CountedPump(s, x);
    case OfShutdown(x) => CountedShutdown(s, x);
  }

  lemma EventsAreTold(s: State, a: Action)
    requires Enabled(s, a)
    ensures Trail(s.counters, Events(s, a))[|Events(s, a)|] == Next(s, a).counters
  {
    if a == OfShutdown(ClearResults) {
      RejectedTrail(s.counters, |s.results|);
      assert Events(s, a) == Rejections(|s.results|);
    } else if |Events(s, a)| == 1 {
      OneEvent(s.counters, Events(s, a)[0]);
      assert Events(s, a) == [Events(s, a)[0]];
    }
  }

  ghost function Rejections(n: nat): seq<Event> { seq(n, _ => Mark(LifecycleState.Discarded, ResultRejected)) }

  lemma OneEvent(c: Counters, e: Event)
    ensures Trail(c, [e]) == [c, Forward(c, e)]
  {
    assert [e][..0] == [];
    assert Trail(c, []) == [c];
  }

  lemma {:induction false} RejectedTrail(c: Counters, n: nat)
    ensures Trail(c, Rejections(n))[n] == AllRejected(c, n)
    ensures n <= c.results ==> AllUnguarded(c, Rejections(n))
  {
    TrailIsHistory(c, Rejections(n));
    if n > 0 {
      RejectedTrail(c, n - 1);
      assert Rejections(n)[..n - 1] == Rejections(n - 1);
      if n <= c.results { AllRejectedCounts(c, n - 1); }
    }
  }

  /** Whatever an action records, it takes only from counters that are not zero. */
  lemma NoGuardStopsADecrement(s: State, a: Action)
    requires Fits(s) && Counted(s) && Enabled(s, a)
    ensures AllUnguarded(s.counters, Events(s, a))
  {
    TrailIsHistory(s.counters, Events(s, a));
    match a
    case OfSubmitter(x) => CountedSubmitter(s, x);
    case OfWorker(i, x) => CountedWorker(s, i, x);
    case OfPump(x) => CountedPump(s, x);
    case OfShutdown(x) =>
      CountedShutdown(s, x);
      if x.ClearResults? {
        RejectedTrail(s.counters, |s.results|);
        assert Events(s, a) == Rejections(|s.results|);
      }
  }

  // ----- runs

  /** A run: the actions taken so far, each when the code could take it. */
  ghost predicate Possible(actions: seq<Action>)
    decreases |actions|, 0
  {
    actions == [] || (Possible(actions[..|actions| - 1]) && Enabled(After(actions[..|actions| - 1]), actions[|actions| - 1]))
  }

  ghost function After(actions: seq<Action>): State
    requires Possible(actions)
    decreases |actions|, 1
  {
    if actions == [] then INITIAL else Next(After(actions[..|actions| - 1]), actions[|actions| - 1])
  }

  ghost function Log(actions: seq<Action>): seq<Event>
    requires Possible(actions)
  {
    if actions == [] then []
    else Log(actions[..|actions| - 1]) + Events(After(actions[..|actions| - 1]), actions[|actions| - 1])
  }

  /** Every reachable state keeps the invariant. */
  lemma {:induction false} RunsKeepInv(actions: seq<Action>)
    requires Possible(actions)
    ensures Inv(After(actions))
  {
    if actions == [] {
      Initially();
    } else {
      var front, a := actions[..|actions| - 1], actions[|actions| - 1];
      RunsKeepInv(front);
      var s := After(front);
      FitsNext(s, a);
      ConservedNext(s, a);
      FlagsNext(s, a);
      CountedNext(s, a);
    }
  }

  /** In every run a task is pending, has one final result, or was discarded once: exactly one of the three. */
  lemma ExactlyOnce(actions: seq<Action>, id: TaskId)
    requires Possible(actions)
    ensures var s := After(actions);
      if id in s.accepted then
        || (Pending(s, id) == 1 && Produced(s, id) == 0 && Dropped(s, id) == 0)
        || (Pending(s, id) == 0 && Produced(s, id) == 1 && Dropped(s, id) == 0)
        || (Pending(s, id) == 0 && Produced(s, id) == 0 && Dropped(s, id) == 1)
      else
        Pending(s, id) == 0 && Produced(s, id) == 0 && Dropped(s, id) == 0
  {
    RunsKeepInv(actions);
    var s := After(actions);
    assert Total(s, id) == One(id in s.accepted);
  }

  /** When shutdown has returned: nothing queued, running, pending or flagged, and one outcome on record per task. */
  lemma ShutdownLeavesNothing(actions: seq<Action>)
    requires Possible(actions) && After(actions).stage.Closed?
    ensures var s := After(actions);
      && (forall i :: 0 <= i < |s.lanes| ==> s.lanes[i].phase.Exited? && s.lanes[i].queue == [])
      && s.results == [] && s.pumped == [] && s.flagged == {} && s.counters == Counters(0, 0, 0)
      && forall id :: id in s.accepted ==> Count(s.disposed, FinalsOf(id)) + multiset(s.discarded)[id] == 1
  {
    RunsKeepInv(actions);
    var s := After(actions);
    forall i | 0 <= i < |s.lanes| ensures s.lanes[i].queue == [] {
      assert LaneOk(s, s.lanes[i]);
    }
    forall id ensures Live(s, id) == 0 && Pending(s, id) == 0 { NothingLive(s, id); }
    forall id ensures id !in s.flagged {
      assert Live(s, id) == One(id in s.flagged);
    }
    NoneIn(s.lanes, QueuedIn);
    NoneIn(s.lanes, ActiveIn);
    NoneIn(s.lanes, ResultsIn);
    forall id | id in s.accepted ensures Count(s.disposed, FinalsOf(id)) + multiset(s.discarded)[id] == 1 {
      assert Total(s, id) == One(id in s.accepted);
    }
  }

  /** Once shutdown has begun stopping lanes, no later submission is accepted. */
  lemma NothingAcceptedAfterShutdown(actions: seq<Action>, a: Action)
    requires Possible(actions) && Visited(After(actions)) && Enabled(After(actions), a)
    ensures Next(After(actions), a).accepted == After(actions).accepted
    ensures Visited(Next(After(actions), a)) && After(actions).holder.Free?
    ensures a.OfSubmitter? ==> !a.submitter.EnterSubmit? && !a.submitter.EnterOneShot? && !a.submitter.EnterRegister?
  {
    RunsKeepInv(actions);
    AcceptedFrame(After(actions), a);
  }

  lemma {:induction false} TrailConcat(c: Counters, a: seq<Event>, b: seq<Event>)
    requires AllUnguarded(c, a) && AllUnguarded(Trail(c, a)[|a|], b)
    ensures AllUnguarded(c, a + b) && Trail(c, a + b)[|a + b|] == Trail(Trail(c, a)[|a|], b)[|b|]
  {
    if b == [] {
      assert a + b == a;
    } else {
      var n := |b| - 1;
      var mid := Trail(c, a)[|a|];
      CleanPrefix(mid, b);
      TrailConcat(c, a, b[..n]);
      assert Unguarded(Trail(mid, b)[n], b[n]);
      TrailPush(c, a + b[..n], b[n]);
      TrailPush(mid, b[..n], b[n]);
      assert b[..n] + [b[n]] == b && (a + b[..n]) + [b[n]] == a + b;
    }
  }

  lemma TrailPush(c: Counters, events: seq<Event>, e: Event)
    requires AllUnguarded(c, events) && Unguarded(Trail(c, events)[|events|], e)
    ensures AllUnguarded(c, events + [e])
    ensures Trail(c, events + [e])[|events| + 1] == Forward(Trail(c, events)[|events|], e)
  {
    var more := events + [e];
    assert more[..|events|] == events;
    TrailIsHistory(c, more);
    assert Trail(c, more) == Trail(c, events) + [Forward(Trail(c, events)[|events|], e)];
  }

  lemma CleanPrefix(c: Counters, b: seq<Event>)
    requires AllUnguarded(c, b) && b != []
    ensures AllUnguarded(c, b[..|b| - 1]) && Trail(c, b)[|b| - 1] == Trail(c, b[..|b| - 1])[|b| - 1]
  {
    var n := |b| - 1;
    TrailIsHistory(c, b[..n]);
    forall i | 0 <= i < n ensures Unguarded(Trail(c, b[..n])[i], b[..n][i]) {
      assert Trail(c, b)[i] == Trail(c, b[..n])[i];
      assert Unguarded(Trail(c, b)[i], b[i]);
    }
  }

  /** Over any run the event log is clean, so a reverse replay of it finds the true past counters. */
  lemma {:induction false} RunsLogCleanly(actions: seq<Action>)
    requires Possible(actions)
    ensures AllUnguarded(Counters(0, 0, 0), Log(actions))
    ensures Trail(Counters(0, 0, 0), Log(actions))[|Log(actions)|] == After(actions).counters
  {
    var zero := Counters(0, 0, 0);
    if actions == [] {
    } else {
      var front, a := actions[..|actions| - 1], actions[|actions| - 1];
      RunsLogCleanly(front);
      RunsKeepInv(front);
      NoGuardStopsADecrement(After(front), a);
      EventsAreTold(After(front), a);
      TrailConcat(zero, Log(front), Events(After(front), a));
    }
  }

  predicate Moves(e: Event) {
    e.state == LifecycleState.Queued || e.state == ResultReady || TakesQueued(e) || TakesResult(e)
  }

  /** The events of a log that move a counter, without their times. */
  ghost function Moving(events: seq<Event>): seq<Event> {
    if events == [] then []
    else
      var last := events[|events| - 1];
      Moving(events[..|events| - 1]) + if Moves(last) then [last.(monotonicMicros := 0)] else []
  }

  lemma SilentMovesNothing(c: Counters, e: Event)
    requires !Moves(e)
    ensures Unguarded(c, e) && Forward(c, e) == c
  {
  }

  lemma TimeMovesNothing(c: Counters, e: Event)
    ensures var f := e.(monotonicMicros := 0); (Unguarded(c, f) <==> Unguarded(c, e)) && Forward(c, f) == Forward(c, e)
  {
  }

  lemma TrailPop(c: Counters, events: seq<Event>, e: Event)
    requires AllUnguarded(c, events + [e])
    ensures AllUnguarded(c, events) && Unguarded(Trail(c, events)[|events|], e)
    ensures Trail(c, events + [e])[|events| + 1] == Forward(Trail(c, events)[|events|], e)
  {
    assert (events + [e])[..|events|] == events;
    CleanPrefix(c, events + [e]);
    assert Unguarded(Trail(c, events + [e])[|events|], (events + [e])[|events|]);
    TrailPush(c, events, e);
  }

  /** Times and events that move nothing, such as those of a lane that is created or idle, do not matter to a log. */
  lemma {:induction false} OnlyMovingMatters(c: Counters, events: seq<Event>)
    requires AllUnguarded(c, Moving(events))
    ensures AllUnguarded(c, events) && Trail(c, events)[|events|] == Trail(c, Moving(events))[|Moving(events)|]
  {
    if events != [] {
      var n := |events| - 1;
      var front, last, moving := events[..n], events[n], Moving(events[..n]);
      if Moves(last) {
        TrailPop(c, moving, last.(monotonicMicros := 0));
        TimeMovesNothing(Trail(c, moving)[|moving|], last);
      } else {
        assert moving + [] == moving;
        SilentMovesNothing(Trail(c, moving)[|moving|], last);
      }
      OnlyMovingMatters(c, front);
      TrailPush(c, front, last);
      assert front + [last] == events;
    }
  }

  lemma {:induction false} MovingIsEnough(c: Counters, events: seq<Event>)
    requires AllUnguarded(c, events)
    ensures AllUnguarded(c, Moving(events)) && Trail(c, events)[|events|] == Trail(c, Moving(events))[|Moving(events)|]
  {
    if events != [] {
      var n := |events| - 1;
      var front, last, moving := events[..n], events[n], Moving(events[..n]);
      assert front + [last] == events;
      TrailPop(c, front, last);
      MovingIsEnough(c, front);
      if Moves(last) {
        TimeMovesNothing(Trail(c, moving)[|moving|], last);
        TrailPush(c, moving, last.(monotonicMicros := 0));
      } else {
        assert moving + [] == moving;
        SilentMovesNothing(Trail(c, moving)[|moving|], last);
      }
    }
  }

  /**
   * After any run, whatever the times of its events and whatever other events the log holds, a snapshot finds
   * the true peaks of the counters since the oldest event of the window that the bounded log still holds.
   */
  method PeaksAfterRun(ghost actions: seq<Action>, events: seq<Event>, currentMicros: nat, windowMicros: nat) returns (peaks: Counters)
    requires Possible(actions) && Moving(events) == Moving(Log(actions))
    ensures Trail(Counters(0, 0, 0), events)[|events|] == After(actions).counters
    ensures var cutoff := if windowMicros <= currentMicros then currentMicros - windowMicros else 0;
      ArePeaks(peaks, Trail(Counters(0, 0, 0), events), |events| - |Newest(events)| + Since(Newest(events), cutoff))
  {
    RunsLogCleanly(actions);
    MovingIsEnough(Counters(0, 0, 0), Log(actions));
    OnlyMovingMatters(Counters(0, 0, 0), events);
    peaks := PeaksOfLog(events, Trail(Counters(0, 0, 0), events), currentMicros, windowMicros);
  }
}
