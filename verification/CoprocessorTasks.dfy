/** What a run of the coprocessor does with each task: the order in which a lane takes its tasks, the status they end
    with, and what cancelling them changes. */
module CoprocessorTasks {
  import opened Telemetry
  import opened Coprocessor
  import opened CoprocessorRuns

  // ----- what happened in a run

  /** The tasks whose function was called. */
  ghost function Executed(actions: seq<Action>): set<TaskId>
    requires Possible(actions)
  {
    if actions == [] then {}
    else Executed(actions[..|actions| - 1]) + NowExecuted(After(actions[..|actions| - 1]), actions[|actions| - 1])
  }

  ghost function NowExecuted(s: State, a: Action): set<TaskId>
    requires Enabled(s, a)
  {
    if a.OfWorker? && a.worker.Execute? then {s.lanes[a.lane].phase.id} else {}
  }

  /** The tasks that were skipped or whose function returned, with the status. */
  ghost function Ended(actions: seq<Action>): set<(TaskId, Status)>
    requires Possible(actions)
  {
    if actions == [] then {}
    else Ended(actions[..|actions| - 1]) + NowEnded(After(actions[..|actions| - 1]), actions[|actions| - 1])
  }

  ghost function NowEnded(s: State, a: Action): set<(TaskId, Status)>
    requires Enabled(s, a)
  {
    if a.OfWorker? && a.worker.Finish? then {(s.lanes[a.lane].phase.id, a.worker.status)}
    else if a.OfWorker? && a.worker.SkipCancelled? then {(s.lanes[a.lane].phase.id, Cancelled)}
    else {}
  }

  /** The tasks given to a lane, in order. */
  ghost function Given(actions: seq<Action>, lane: nat): seq<TaskId>
    requires Possible(actions)
  {
    if actions == [] then []
    else
      var front, a := actions[..|actions| - 1], actions[|actions| - 1];
      Given(front, lane) + if a == OfSubmitter(Enqueue) && After(front).holder.lane == lane then [After(front).holder.id] else []
  }

  /** The tasks its worker took, in order. */
  ghost function Taken(actions: seq<Action>, lane: nat): seq<TaskId>
    requires Possible(actions)
  {
    if actions == [] then []
    else
      var front, a := actions[..|actions| - 1], actions[|actions| - 1];
      Taken(front, lane) + if a == OfWorker(lane, Pop) then [After(front).lanes[lane].queue[0]] else []
  }

  // ----- what an action does to one lane

  function LaneNow(s: State, a: Action, i: nat): Lane
    requires Enabled(s, a) && i < |s.lanes|
  {
    var l := s.lanes[i];
    match a
    case OfWorker(n, x) => if n == i then LaneAfter(l, s.cancelled, x) else l
    case OfPump(_) => l
    case OfSubmitter(x) =>
      if x.Enqueue? && s.holder.lane == i then l.(queue := l.queue + [s.holder.id])
      else if x == Unregister(i) then l.(stopRequested := true, listing := Retiring)
      else if x == Reap(i) then l.(listing := Gone)
      else l
    case OfShutdown(x) =>
      if x.StopLane? && s.stage.next == i && !l.listing.Gone? then l.(stopRequested := true)
      else if x.ClearLane? && s.stage.next == i && !l.listing.Gone? then l.(queue := [])
      else l
  }

  lemma SubmitterLane(s: State, x: SubmitterAction, i: nat)
    requires SubmitterEnabled(s, x)
    ensures var t := AfterSubmitter(s, x);
      && |s.lanes| <= |t.lanes| && (i < |s.lanes| ==> t.lanes[i] == LaneNow(s, OfSubmitter(x), i))
      && (|s.lanes| <= i < |t.lanes| ==> t.lanes[i] == FreshLane(false) || t.lanes[i] == FreshLane(true))
  {
  }

  lemma ShutdownLane(s: State, x: ShutdownAction, i: nat)
    requires ShutdownEnabled(s, x)
    ensures var t := AfterShutdown(s, x); |s.lanes| == |t.lanes| && (i < |s.lanes| ==> t.lanes[i] == LaneNow(s, OfShutdown(x), i))
  {
  }

  lemma WorkerLane(s: State, n: nat, x: WorkerAction, i: nat)
    requires At(s, n) && WorkerEnabled(s.lanes[n], s.cancelled, x)
    ensures var t := AfterWorker(s, n, x); |s.lanes| == |t.lanes| && (i < |s.lanes| ==> t.lanes[i] == LaneNow(s, OfWorker(n, x), i))
  {
  }

  /** Lanes are only added, and a new one is empty. */
  lemma LaneNext(s: State, a: Action, i: nat)
    requires Enabled(s, a)
    ensures var t := Next(s, a);
      && |s.lanes| <= |t.lanes| && (i < |s.lanes| ==> t.lanes[i] == LaneNow(s, a, i))
      && (|s.lanes| <= i < |t.lanes| ==> t.lanes[i] == FreshLane(false) || t.lanes[i] == FreshLane(true))
  {
    match a
    case OfSubmitter(x) => SubmitterLane(s, x, i);
    case OfWorker(n, x) => WorkerLane(s, n, x, i);
    case OfPump(x) => assert AfterPump(s, x).lanes == s.lanes;
    case OfShutdown(x) => ShutdownLane(s, x, i);
  }

  // ----- cancelling

  /** Which tasks an action cancels: the one named if it is registered, all of a lane that is stopped, or all registered. */
  lemma CancelledNext(s: State, a: Action, id: TaskId)
    requires Enabled(s, a)
    ensures id in Next(s, a).cancelled <==>
      || id in s.cancelled
      || (a == OfSubmitter(CancelTask(id)) && id in s.flagged)
      || (a.OfSubmitter? && a.submitter.Unregister? && InLane(s.lanes[a.submitter.lane], id))
      || (a == OfShutdown(StopLane) && !s.lanes[s.stage.next].listing.Gone? && InLane(s.lanes[s.stage.next], id))
      || (a == OfShutdown(FlagAll) && id in s.flagged)
  {
    match a
    case OfSubmitter(x) => CancelledBySubmitter(s, x, id);
    case OfWorker(n, x) => assert AfterWorker(s, n, x).cancelled == s.cancelled;
    case OfPump(x) => assert AfterPump(s, x).cancelled == s.cancelled;
    case OfShutdown(x) => CancelledByShutdown(s, x, id);
  }

  lemma CancelledBySubmitter(s: State, x: SubmitterAction, id: TaskId)
    requires SubmitterEnabled(s, x)
    ensures id in AfterSubmitter(s, x).cancelled <==>
      id in s.cancelled || (x == CancelTask(id) && id in s.flagged) || (x.Unregister? && InLane(s.lanes[x.lane], id))
  {
    if x.Unregister? { AllOfLane(s.lanes[x.lane], id); }
  }

  lemma CancelledByShutdown(s: State, x: ShutdownAction, id: TaskId)
    requires ShutdownEnabled(s, x)
    ensures id in AfterShutdown(s, x).cancelled <==>
      || id in s.cancelled || (x == FlagAll && id in s.flagged)
      || (x == StopLane && !s.lanes[s.stage.next].listing.Gone? && InLane(s.lanes[s.stage.next], id))
  {
    if x.StopLane? { AllOfLane(s.lanes[s.stage.next], id); }
  }

  lemma AllOfLane(l: Lane, id: TaskId)
    ensures InLane(l, id) <==> id in (set t | t in l.queue) + CurrentId(l)
  {
  }

  /** Queued in the lane, or with its worker. */
  ghost predicate InLane(l: Lane, id: TaskId) {
    id in l.queue || Holds(l, id) || (l.phase.Delivered? && l.phase.id == id)
  }

  /** Cancelling a task changes nothing but its flag. */
  lemma CancelTaskExactly(s: State, id: TaskId)
    ensures Next(s, OfSubmitter(CancelTask(id))) == s.(cancelled := if id in s.flagged then s.cancelled + {id} else s.cancelled)
  {
  }

  /** Every task of a stopped lane is cancelled, and so is every task that shutdown takes out of a queue. */
  ghost predicate StoppedMeansCancelled(s: State) {
    && (forall i, id :: 0 <= i < |s.lanes| && s.lanes[i].stopRequested && InLane(s.lanes[i], id) ==> id in s.cancelled)
    && (forall id :: id in s.cleared ==> id in s.cancelled)
    && (forall id :: id in s.forgetting ==> id in s.cancelled)
    && (forall id :: id in s.discarded ==> id in s.cancelled)
  }

  /** The tasks in a lane after an action were there before, but for the one that is enqueued. */
  lemma InLaneNow(s: State, a: Action, i: nat, id: TaskId)
    requires Enabled(s, a) && i < |s.lanes| && InLane(LaneNow(s, a, i), id)
    ensures InLane(s.lanes[i], id) || (a == OfSubmitter(Enqueue) && s.holder.lane == i && s.holder.id == id)
  {
  }

  lemma StoppedLaneNext(s: State, a: Action, i: nat, id: TaskId)
    requires Fits(s) && StoppedMeansCancelled(s) && Enabled(s, a) && i < |s.lanes|
    requires LaneNow(s, a, i).stopRequested && InLane(LaneNow(s, a, i), id)
    ensures id in Next(s, a).cancelled
  {
    InLaneNow(s, a, i, id);
    CancelledNext(s, a, id);
  }

  lemma TakenOutByShutdown(s: State, x: ShutdownAction, id: TaskId)
    requires Fits(s) && StoppedMeansCancelled(s) && ShutdownEnabled(s, x)
    requires var t := AfterShutdown(s, x); id in t.cleared || id in t.forgetting || id in t.discarded
    ensures id in s.cancelled
  {
    if x.ClearLane? && !s.lanes[s.stage.next].listing.Gone? && id in s.lanes[s.stage.next].queue {
      assert InLane(s.lanes[s.stage.next], id);
    }
  }

  predicate SameOut(s: State, t: State) { t.cleared == s.cleared && t.forgetting == s.forgetting && t.discarded == s.discarded }

  lemma OnlyShutdownTakesOut(s: State, a: Action)
    requires Enabled(s, a) && !a.OfShutdown?
    ensures SameOut(s, Next(s, a))
  {
    match a
    case OfSubmitter(x) => assert SameOut(s, AfterSubmitter(s, x));
    case OfWorker(n, x) => assert SameOut(s, AfterWorker(s, n, x));
    case OfPump(x) => assert SameOut(s, AfterPump(s, x));
  }

  lemma TakenOutNext(s: State, a: Action, id: TaskId)
    requires Fits(s) && StoppedMeansCancelled(s) && Enabled(s, a)
    requires id in Next(s, a).cleared || id in Next(s, a).forgetting || id in Next(s, a).discarded
    ensures id in s.cancelled
  {
    if a.OfShutdown? { TakenOutByShutdown(s, a.shutdown, id); } else { OnlyShutdownTakesOut(s, a); }
  }

  lemma StoppedNext(s: State, a: Action)
    requires Fits(s) && StoppedMeansCancelled(s) && Enabled(s, a)
    ensures StoppedMeansCancelled(Next(s, a))
  {
    var t := Next(s, a);
    forall i, id | 0 <= i < |t.lanes| && t.lanes[i].stopRequested && InLane(t.lanes[i], id) ensures id in t.cancelled {
      LaneNext(s, a, i);
      StoppedLaneNext(s, a, i, id);
    }
    forall id | id in t.cleared || id in t.forgetting || id in t.discarded ensures id in t.cancelled {
      TakenOutNext(s, a, id);
      CancelledNext(s, a, id);
    }
  }

  lemma {:induction false} StoppedRuns(actions: seq<Action>)
    requires Possible(actions)
    ensures StoppedMeansCancelled(After(actions))
  {
    if actions != [] {
      var front, a := actions[..|actions| - 1], actions[|actions| - 1];
      StoppedRuns(front);
      RunsKeepInv(front);
      StoppedNext(After(front), a);
    }
  }

  /** Once shutdown waits for the workers, every task that is not finished is cancelled; only cancelled tasks are discarded. */
  lemma ShutdownCancelsAll(actions: seq<Action>, i: nat, id: TaskId)
    requires Possible(actions)
    ensures var s := After(actions);
      && (s.stage.Joining? && i < |s.lanes| && InLane(s.lanes[i], id) ==> id in s.cancelled)
      && (id in s.discarded ==> id in s.cancelled)
  {
    StoppedRuns(actions);
    RunsKeepInv(actions);
    var s := After(actions);
    if s.stage.Joining? && i < |s.lanes| { assert Drained(s.lanes[i]) && LaneOk(s, s.lanes[i]); }
  }

  /** A cancelled task that was not called yet is never called. */
  lemma {:induction false} CancelledIsNotExecuted(actions: seq<Action>, k: nat, id: TaskId)
    requires Possible(actions) && k <= |actions|
    ensures Possible(actions[..k])
    ensures id in After(actions[..k]).cancelled ==>
      id in After(actions).cancelled && (id in Executed(actions) ==> id in Executed(actions[..k]))
    decreases |actions|
  {
    if k == |actions| {
      assert actions[..k] == actions;
    } else {
      var front, a := actions[..|actions| - 1], actions[|actions| - 1];
      assert front[..k] == actions[..k];
      CancelledIsNotExecuted(front, k, id);
      CancelledNext(After(front), a, id);
    }
  }

  // ----- the status of results

  /** A result carries the status its task ended with; whatever ended otherwise than cancelled was called, and what was
      skipped is cancelled. */
  ghost predicate StatusOk(s: State, executed: set<TaskId>, ended: set<(TaskId, Status)>) {
    && (forall i :: 0 <= i < |s.lanes| ==> LaneStatusOk(s.lanes[i], executed, ended))
    && ResultsOk(s.results, ended) && ResultsOk(s.pumped, ended) && ResultsOk(s.disposed, ended)
    && (forall e :: e in ended ==> if e.0 in executed then true else e.1 == Cancelled && e.0 in s.cancelled)
  }

  ghost predicate LaneStatusOk(l: Lane, executed: set<TaskId>, ended: set<(TaskId, Status)>) {
    match l.phase
    case Executing(id) => id in executed
    case Streaming(id) => id in executed
    case Ready(id, status) => (id, status) in ended
    case Recorded(id, status) => (id, status) in ended
    case _ => true
  }

  ghost predicate ResultsOk(results: seq<Result>, ended: set<(TaskId, Status)>) {
    forall r :: r in results && r.final ==> (r.id, r.status) in ended
  }

  lemma LaneStatusNow(s: State, a: Action, i: nat, executed: set<TaskId>, ended: set<(TaskId, Status)>)
    requires Enabled(s, a) && i < |s.lanes| && LaneStatusOk(s.lanes[i], executed, ended)
    ensures LaneStatusOk(LaneNow(s, a, i), executed + NowExecuted(s, a), ended + NowEnded(s, a))
  {
  }

  lemma LanesStatusNext(s: State, a: Action, executed: set<TaskId>, ended: set<(TaskId, Status)>)
    requires StatusOk(s, executed, ended) && Enabled(s, a)
    ensures forall i :: 0 <= i < |Next(s, a).lanes| ==>
      LaneStatusOk(Next(s, a).lanes[i], executed + NowExecuted(s, a), ended + NowEnded(s, a))
  {
    forall i | 0 <= i < |Next(s, a).lanes|
      ensures LaneStatusOk(Next(s, a).lanes[i], executed + NowExecuted(s, a), ended + NowEnded(s, a))
    {
      LaneNext(s, a, i);
      if i < |s.lanes| { LaneStatusNow(s, a, i, executed, ended); }
    }
  }

  lemma WorkerResults(s: State, n: nat, x: WorkerAction, executed: set<TaskId>, ended: set<(TaskId, Status)>)
    requires StatusOk(s, executed, ended) && At(s, n) && WorkerEnabled(s.lanes[n], s.cancelled, x)
    ensures var t := AfterWorker(s, n, x); ResultsOk(t.results, ended) && t.pumped == s.pumped && t.disposed == s.disposed
  {
    assert LaneStatusOk(s.lanes[n], executed, ended);
  }

  lemma ResultsStatusNext(s: State, a: Action, executed: set<TaskId>, ended: set<(TaskId, Status)>)
    requires StatusOk(s, executed, ended) && Enabled(s, a)
    ensures ResultsOk(Next(s, a).results, ended) && ResultsOk(Next(s, a).pumped, ended) && ResultsOk(Next(s, a).disposed, ended)
  {
    match a
    case OfSubmitter(x) =>
      assert AfterSubmitter(s, x).results == s.results && AfterSubmitter(s, x).pumped == s.pumped && AfterSubmitter(s, x).disposed == s.disposed;
    case OfWorker(n, x) => WorkerResults(s, n, x, executed, ended);
    case OfPump(x) =>
    case OfShutdown(x) =>
      assert AfterShutdown(s, x).pumped == s.pumped;
  }

  lemma EndedNext(s: State, a: Action, executed: set<TaskId>, ended: set<(TaskId, Status)>, e: (TaskId, Status))
    requires StatusOk(s, executed, ended) && StoppedMeansCancelled(s) && Enabled(s, a) && e in ended + NowEnded(s, a)
    ensures e.0 in executed + NowExecuted(s, a) || (e.1 == Cancelled && e.0 in Next(s, a).cancelled)
  {
    CancelledNext(s, a, e.0);
    if a.OfWorker? {
      assert LaneStatusOk(s.lanes[a.lane], executed, ended);
      if a.worker.SkipCancelled? { assert InLane(s.lanes[a.lane], s.lanes[a.lane].phase.id); }
    }
  }

  lemma {:induction false} StatusRuns(actions: seq<Action>)
    requires Possible(actions)
    ensures StatusOk(After(actions), Executed(actions), Ended(actions))
  {
    if actions != [] {
      var front, a := actions[..|actions| - 1], actions[|actions| - 1];
      var s := After(front);
      StatusRuns(front);
      StoppedRuns(front);
      LanesStatusNext(s, a, Executed(front), Ended(front));
      ResultsStatusNext(s, a, Executed(front), Ended(front));
      forall e | e in Ended(actions) ensures e.0 in Executed(actions) || (e.1 == Cancelled && e.0 in After(actions).cancelled) {
        EndedNext(s, a, Executed(front), Ended(front), e);
      }
    }
  }

  ghost predicate IsResult(s: State, r: Result) { r in s.results || r in s.pumped || r in s.disposed }

  /** Every final result has the status its task ended with: a task that was not called has status cancelled and was
      cancelled, so a task nobody cancelled is called before it has a result. */
  lemma ResultsTellTheTruth(actions: seq<Action>, r: Result)
    requires Possible(actions) && IsResult(After(actions), r) && r.final
    ensures (r.id, r.status) in Ended(actions)
    ensures r.id !in Executed(actions) ==> r.status == Cancelled && r.id in After(actions).cancelled
  {
    StatusRuns(actions);
  }

  /** A task cancelled before it is called ends, if it ends, with one final result that says so or with one discard. */
  lemma CancelledEnds(actions: seq<Action>, k: nat, id: TaskId)
    requires Possible(actions) && k <= |actions| && Possible(actions[..k])
    requires id in After(actions[..k]).cancelled && id !in Executed(actions[..k]) && id in After(actions).accepted
    ensures var s := After(actions);
      && id !in Executed(actions) && id in s.cancelled
      && Pending(s, id) + Produced(s, id) + Dropped(s, id) == 1
      && forall r :: IsResult(s, r) && r.final && r.id == id ==> r.status == Cancelled
  {
    CancelledIsNotExecuted(actions, k, id);
    ExactlyOnce(actions, id);
    forall r | IsResult(After(actions), r) && r.final && r.id == id ensures r.status == Cancelled {
      ResultsTellTheTruth(actions, r);
    }
  }

  // ----- the order of a lane

  /** What an action does to the queue of a lane. */
  lemma QueueNext(s: State, a: Action, lane: nat)
    requires Fits(s) && Enabled(s, a) && lane < |s.lanes|
    ensures var q := LaneNow(s, a, lane).queue;
      if a == OfSubmitter(Enqueue) && s.holder.lane == lane then !Visited(s) && q == s.lanes[lane].queue + [s.holder.id]
      else if a == OfWorker(lane, Pop) then s.lanes[lane].queue == [s.lanes[lane].queue[0]] + q
      else q == s.lanes[lane].queue || (a == OfShutdown(ClearLane) && q == [])
  {
  }

  lemma VisitedStays(s: State, a: Action)
    requires Fits(s) && Enabled(s, a)
    ensures (Visited(s) || a == OfShutdown(ClearLane) ==> Visited(Next(s, a))) && (a == OfSubmitter(Enqueue) ==> At(s, s.holder.lane))
  {
    match a
    case OfSubmitter(x) => assert AfterSubmitter(s, x).stage == s.stage;
    case OfWorker(n, x) => assert AfterWorker(s, n, x).stage == s.stage;
    case OfPump(x) => assert AfterPump(s, x).stage == s.stage;
    case OfShutdown(x) =>
  }

  ghost predicate InStep(given: seq<TaskId>, taken: seq<TaskId>, s: State, lane: nat) {
    && taken <= given
    && if lane < |s.lanes| then given == taken + s.lanes[lane].queue || (Visited(s) && s.lanes[lane].queue == [])
       else given == [] == taken
  }

  lemma InStepNext(given: seq<TaskId>, taken: seq<TaskId>, s: State, a: Action, lane: nat)
    requires Fits(s) && Enabled(s, a) && InStep(given, taken, s, lane)
    ensures InStep(given + (if a == OfSubmitter(Enqueue) && s.holder.lane == lane then [s.holder.id] else []),
                   taken + (if a == OfWorker(lane, Pop) then [s.lanes[lane].queue[0]] else []), Next(s, a), lane)
  {
    LaneNext(s, a, lane);
    VisitedStays(s, a);
    if lane < |s.lanes| { QueueNext(s, a, lane); }
  }

  /** A lane takes its tasks in the order in which it was given them, and none is passed over until shutdown empties
      its queue. */
  lemma {:induction false} TakenInOrder(actions: seq<Action>, lane: nat)
    requires Possible(actions)
    ensures InStep(Given(actions, lane), Taken(actions, lane), After(actions), lane)
  {
    if actions != [] {
      var front, a := actions[..|actions| - 1], actions[|actions| - 1];
      TakenInOrder(front, lane);
      RunsKeepInv(front);
      InStepNext(Given(front, lane), Taken(front, lane), After(front), a, lane);
    }
  }
}
