/** No thread of the coprocessor gets stuck: a worker can always go on with its task, a result can be pumped, and from
    every state of a shutdown there is a way to its end. */
module CoprocessorProgress {
  import opened Telemetry
  import opened Coprocessor
  import opened CoprocessorRuns
  import opened CoprocessorTasks

  // ----- workers and pump

  /** What a worker can do next in any reachable state: take a task if there is one, exit only when stopped, call the task
      unless it is cancelled and skip it if it is, and then hand over its result. */
  lemma WorkerGoesOn(actions: seq<Action>, i: nat)
    requires Possible(actions) && i < |After(actions).lanes|
    ensures var s := After(actions);
      var l := s.lanes[i];
      match l.phase
      case Waiting =>
        && (Enabled(s, OfWorker(i, Pop)) <==> l.queue != [])
        && (Enabled(s, OfWorker(i, Exit)) <==> l.queue == [] && l.stopRequested)
      case Popped(_) => Enabled(s, OfWorker(i, RecordRunning))
      case Started(id) =>
        && (Enabled(s, OfWorker(i, Execute)) <==> id !in s.cancelled)
        && (Enabled(s, OfWorker(i, SkipCancelled)) <==> id in s.cancelled)
      case Executing(_) => Enabled(s, OfWorker(i, RecordChunk)) && forall status :: Enabled(s, OfWorker(i, Finish(status)))
      case Streaming(_) => Enabled(s, OfWorker(i, PushChunk))
      case Ready(_, _) => Enabled(s, OfWorker(i, RecordResult))
      case Recorded(_, _) => Enabled(s, OfWorker(i, PushResult))
      case Delivered(_) => Enabled(s, OfWorker(i, Forget))
      case Exited => l.queue == []
  {
    RunsKeepInv(actions);
    StoppedRuns(actions);
    var s := After(actions);
    var l := s.lanes[i];
    assert LaneOk(s, l);
    if l.phase.Started? && l.stopRequested { assert InLane(l, l.phase.id); }
  }

  /** Until shutdown, and again while it drains, any result can be taken and then disposed of; what was taken is disposed
      of before another is taken. */
  lemma PumpGoesOn(actions: seq<Action>, k: nat)
    requires Possible(actions)
    ensures var s := After(actions);
      && (Enabled(s, OfPump(TakeResult(k))) <==> (s.stage.Open? || s.stage.Draining?) && s.pumped == [] && k < |s.results|)
      && (s.pumped != [] ==> forall adopted :: Enabled(s, OfPump(Dispose(adopted))) && Next(s, OfPump(Dispose(adopted))).pumped == [])
  {
  }

  /** What threads that register, submit, unregister and reap can do: whoever has the worker mutex can go on; with it free,
      new work is let in exactly until shutdown, and lanes are retired and reaped at any time. */
  lemma SubmitterGoesOn(actions: seq<Action>, i: nat)
    requires Possible(actions)
    ensures var s := After(actions);
      match s.holder
      case Free =>
        && (Enabled(s, OfSubmitter(EnterRegister)) <==> !s.shuttingDown) && (Enabled(s, OfSubmitter(EnterOneShot)) <==> !s.shuttingDown)
        && (i < |s.lanes| ==>
              && (Enabled(s, OfSubmitter(EnterSubmit(i))) <==> !s.shuttingDown && s.lanes[i].listing.Registered? && !s.lanes[i].oneShot)
              && (Enabled(s, OfSubmitter(Unregister(i))) <==> s.lanes[i].listing.Registered?)
              && (Enabled(s, OfSubmitter(Reap(i))) <==> s.lanes[i].phase.Exited? && !s.lanes[i].listing.Gone?))
      case MayRegister => Enabled(s, OfSubmitter(FinishRegister))
      case MayStartOneShot => Enabled(s, OfSubmitter(StartOneShotLane))
      case Submitting(_) => (Enabled(s, OfSubmitter(TakeTaskId)) <==> !s.shuttingDown) && (Enabled(s, OfSubmitter(RefuseSubmit)) <==> s.shuttingDown)
      case HasId(_, _) => Enabled(s, OfSubmitter(PublishFlag))
      case HasFlag(_, _) => Enabled(s, OfSubmitter(Enqueue))
  {
    RunsKeepInv(actions);
  }

  /** A submission that goes through: the next number, its flag, and then its place at the end of the lane's queue. */
  lemma SubmissionGoesThrough(s: State)
    requires Fits(s) && s.holder.Submitting? && !s.shuttingDown
    ensures Enabled(s, OfSubmitter(TakeTaskId))
    ensures var a := Next(s, OfSubmitter(TakeTaskId)); Enabled(a, OfSubmitter(PublishFlag))
    ensures var b := Next(Next(s, OfSubmitter(TakeTaskId)), OfSubmitter(PublishFlag)); Enabled(b, OfSubmitter(Enqueue))
    ensures var c := Next(Next(Next(s, OfSubmitter(TakeTaskId)), OfSubmitter(PublishFlag)), OfSubmitter(Enqueue));
      var i := s.holder.lane;
      && c.holder.Free? && c.nextTaskId == s.nextTaskId + 1
      && c.flagged == s.flagged + {s.nextTaskId} && c.accepted == s.accepted + {s.nextTaskId}
      && c.lanes == s.lanes[i := s.lanes[i].(queue := s.lanes[i].queue + [s.nextTaskId])]
      && c.cancelled == s.cancelled && c.results == s.results
  {
  }

  /** A one-shot lane takes one task and then ends. */
  lemma {:induction false} OneShotEnds(actions: seq<Action>, lane: nat)
    requires Possible(actions)
    ensures var s := After(actions);
      lane < |s.lanes| && s.lanes[lane].oneShot ==> |Taken(actions, lane)| <= 1 && (|Taken(actions, lane)| == 1 ==> !s.lanes[lane].phase.Waiting?)
  {
    if actions != [] {
      var front, a := actions[..|actions| - 1], actions[|actions| - 1];
      OneShotEnds(front, lane);
      TakenInOrder(front, lane);
      OneShotNext(After(front), a, lane);
    }
  }

  lemma OneShotNext(s: State, a: Action, lane: nat)
    requires Enabled(s, a)
    ensures var t := Next(s, a);
      lane < |t.lanes| && t.lanes[lane].oneShot ==>
        if lane >= |s.lanes| then a != OfWorker(lane, Pop)
        else
          && s.lanes[lane].oneShot
          && (a == OfWorker(lane, Pop) ==> s.lanes[lane].phase.Waiting? && !t.lanes[lane].phase.Waiting?)
          && (!s.lanes[lane].phase.Waiting? ==> !t.lanes[lane].phase.Waiting?)
  {
    LaneNext(s, a, lane);
  }

  // ----- shutdown

  /** The next thing to wait for in a shutdown: its own step, or one of the thread it waits for. */
  function Helpful(s: State): Action {
    match s.stage
    case Open => OfShutdown(StartShutdown)
    case FlaggingTasks => OfShutdown(FlagAll)
    case ListingLanes =>
      (match s.holder
       case Free => OfShutdown(ListLanes)
       case MayRegister => OfSubmitter(FinishRegister)
       case MayStartOneShot => OfSubmitter(StartOneShotLane)
       case Submitting(_) => OfSubmitter(RefuseSubmit)
       case HasId(_, _) => OfSubmitter(PublishFlag)
       case HasFlag(_, _) => OfSubmitter(Enqueue))
    case StoppingLane(n) => OfShutdown(if n < |s.lanes| then StopLane else EndCancel)
    case ClearingLane(_) => OfShutdown(ClearLane)
    case DiscardingTasks(_) => OfShutdown(if s.forgetting != [] then ForgetDiscarded else if s.cleared != [] then RecordDiscard else NextLane)
    case Joining => var i := FirstRunning(s.lanes, 0); if i < |s.lanes| then OfWorker(i, TowardsExit(s.lanes[i])) else OfShutdown(Join)
    case Draining => if Pumping(s) then OfPump(Dispose(false)) else OfShutdown(ClearResults)
    case DroppingFlags => OfShutdown(ClearFlags)
    case Closed => OfShutdown(ClearFlags)
  }

  function FirstRunning(lanes: seq<Lane>, from: nat): (i: nat)
    requires from <= |lanes|
    ensures from <= i <= |lanes| && (i < |lanes| ==> !lanes[i].phase.Exited?)
    ensures forall j :: from <= j < i ==> lanes[j].phase.Exited?
    decreases |lanes| - from
  {
    if from == |lanes| || !lanes[from].phase.Exited? then from else FirstRunning(lanes, from + 1)
  }

  function TowardsExit(l: Lane): WorkerAction {
    match l.phase
    case Waiting => Exit
    case Popped(_) => RecordRunning
    case Started(_) => SkipCancelled
    case Executing(_) => Finish(Cancelled)
    case Streaming(_) => PushChunk
    case Ready(_, _) => RecordResult
    case Recorded(_, _) => PushResult
    case Delivered(_) => Forget
    case Exited => Exit
  }

  lemma HelpfulIsEnabled(s: State)
    requires Fits(s) && !s.stage.Open? && !s.stage.Closed?
    ensures Enabled(s, Helpful(s))
  {
    if s.stage.Joining? {
      var i := FirstRunning(s.lanes, 0);
      if i < |s.lanes| { assert Drained(s.lanes[i]) && LaneOk(s, s.lanes[i]); }
    }
  }

  // A measure of what is left to do.

  function StageLeft(stage: Stage): nat {
    match stage
    case Open => 9 case FlaggingTasks => 8 case ListingLanes => 7
    case StoppingLane(_) => 6 case ClearingLane(_) => 6 case DiscardingTasks(_) => 6
    case Joining => 5 case Draining => 4 case DroppingFlags => 3 case Closed => 0
  }

  function HolderLeft(holder: Holder): nat {
    match holder
    case Free => 0 case HasFlag(_, _) => 1 case HasId(_, _) => 2 case Submitting(_) => 3 case MayRegister => 1 case MayStartOneShot => 4
  }

  function PhaseLeft(l: Lane): nat {
    match l.phase
    case Exited => 0 case Waiting => 1 case Delivered(_) => 2 case Recorded(_, _) => 3 case Ready(_, _) => 4
    case Executing(_) => 5 case Streaming(_) => 6 case Started(_) => 7 case Popped(_) => 8
  }

  ghost function Outer(s: State): nat {
    match s.stage
    case ListingLanes => HolderLeft(s.holder)
    case StoppingLane(n) => if n <= |s.lanes| then |s.lanes| - n else 0
    case ClearingLane(n) => if n <= |s.lanes| then |s.lanes| - n else 0
    case DiscardingTasks(n) => if n <= |s.lanes| then |s.lanes| - n else 0
    case Joining => Count(s.lanes, PhaseLeft)
    case Draining => One(Pumping(s))
    case _ => 0
  }

  function Inner(s: State): nat {
    match s.stage case StoppingLane(_) => 2 case ClearingLane(_) => 1 case _ => 0
  }

  function Innermost(s: State): nat { 2 * |s.cleared| + |s.forgetting| }

  predicate Less4(a: (int, int, int, int), b: (int, int, int, int)) {
    a.0 < b.0 || (a.0 == b.0 && (a.1 < b.1 || (a.1 == b.1 && (a.2 < b.2 || (a.2 == b.2 && a.3 < b.3)))))
  }

  ghost function Left(s: State): (int, int, int, int) { (StageLeft(s.stage), Outer(s), Inner(s), Innermost(s)) }

  lemma LaneLeft(l: Lane, cancelled: set<TaskId>)
    requires !l.phase.Exited? && l.stopRequested && l.queue == []
    ensures WorkerEnabled(l, cancelled, TowardsExit(l)) && PhaseLeft(LaneAfter(l, cancelled, TowardsExit(l))) < PhaseLeft(l)
  {
  }

  lemma WorkerKeepsStage(s: State, i: nat, x: WorkerAction)
    requires At(s, i) && WorkerEnabled(s.lanes[i], s.cancelled, x)
    ensures var t := AfterWorker(s, i, x); t.stage == s.stage && t.lanes == s.lanes[i := LaneAfter(s.lanes[i], s.cancelled, x)]
  {
  }

  lemma JoiningLeft(s: State)
    requires Fits(s) && s.stage.Joining?
    ensures Enabled(s, Helpful(s)) && Less4(Left(Next(s, Helpful(s))), Left(s))
  {
    var i := FirstRunning(s.lanes, 0);
    if i < |s.lanes| {
      var l := s.lanes[i];
      assert Drained(l) && LaneOk(s, l);
      LaneLeft(l, s.cancelled);
      WorkerKeepsStage(s, i, TowardsExit(l));
      CountUpdate(s.lanes, i, LaneAfter(l, s.cancelled, TowardsExit(l)), PhaseLeft);
    }
  }

  lemma ShutdownLeft(s: State)
    requires Fits(s) && (s.stage.StoppingLane? || s.stage.ClearingLane? || s.stage.DiscardingTasks? || s.stage.DroppingFlags? || s.stage.FlaggingTasks?)
    ensures Enabled(s, Helpful(s)) && Less4(Left(Next(s, Helpful(s))), Left(s))
  {
    HelpfulIsEnabled(s);
    ShutdownLane(s, Helpful(s).shutdown, 0);
  }

  lemma ListingLeft(s: State)
    requires Fits(s) && s.stage.ListingLanes?
    ensures Enabled(s, Helpful(s)) && Less4(Left(Next(s, Helpful(s))), Left(s))
  {
    HelpfulIsEnabled(s);
  }

  lemma DrainingLeft(s: State)
    requires Fits(s) && s.stage.Draining?
    ensures Enabled(s, Helpful(s)) && Less4(Left(Next(s, Helpful(s))), Left(s))
  {
    HelpfulIsEnabled(s);
  }

  lemma LessLeft(s: State)
    requires Fits(s) && !s.stage.Open? && !s.stage.Closed?
    ensures Enabled(s, Helpful(s)) && Less4(Left(Next(s, Helpful(s))), Left(s))
  {
    match s.stage
    case Joining => JoiningLeft(s);
    case ListingLanes => ListingLeft(s);
    case Draining => DrainingLeft(s);
    case _ => ShutdownLeft(s);
  }

  lemma StageStaysShut(s: State, a: Action)
    requires Enabled(s, a) && !s.stage.Open?
    ensures !Next(s, a).stage.Open?
  {
    match a
    case OfSubmitter(x) => assert AfterSubmitter(s, x).stage == s.stage;
    case OfWorker(n, x) => assert AfterWorker(s, n, x).stage == s.stage;
    case OfPump(x) => assert AfterPump(s, x).stage == s.stage;
    case OfShutdown(x) =>
  }

  /** A shutdown that has begun can always be brought to its end: no interleaving before blocks it for good. */
  lemma {:induction false} ShutdownCanFinish(actions: seq<Action>) returns (all: seq<Action>)
    requires Possible(actions) && !After(actions).stage.Open?
    ensures actions <= all && Possible(all) && After(all).stage.Closed?
    decreases StageLeft(After(actions).stage), Outer(After(actions)), Inner(After(actions)), Innermost(After(actions))
  {
    var s := After(actions);
    RunsKeepInv(actions);
    if s.stage.Closed? {
      all := actions;
    } else {
      LessLeft(s);
      StageStaysShut(s, Helpful(s));
      var next := actions + [Helpful(s)];
      assert next[..|actions|] == actions;
      assert Possible(next) && After(next) == Next(s, Helpful(s));
      all := ShutdownCanFinish(next);
    }
  }
}
