/**
 * The coprocessor as a transition system: one action per mutex-protected region, any interleaving of
 * submitting threads, worker threads, the pumping thread and one shutdown call.
 */
module Coprocessor {
  import opened Telemetry

  type TaskId = nat

  datatype Status = Completed | Cancelled | Failed

  /** A result; `final` is false for the streaming chunks a task posts while it runs. */
  datatype Result = Result(id: TaskId, status: Status, final: bool)

  /** Where a worker thread is in its loop. */
  datatype Phase =
    | Waiting
    | Popped(id: TaskId)                     // request taken from the queue
    | Started(id: TaskId)                    // Running recorded
    | Executing(id: TaskId)                  // inside the task function
    | Streaming(id: TaskId)                  // a chunk is recorded but not yet in the result queue
    | Ready(id: TaskId, status: Status)      // active task erased
    | Recorded(id: TaskId, status: Status)   // ResultReady recorded
    | Delivered(id: TaskId)                  // result queued, cancel flag still registered
    | Exited                                 // thread function left, lane retired

  datatype Listing = Registered | Retiring | Gone

  datatype Lane = Lane(queue: seq<TaskId>, phase: Phase, stopRequested: bool, oneShot: bool, listing: Listing)

  /** Who holds the worker mutex, and how far a submission under it has come. */
  datatype Holder =
    | Free
    | MayRegister
    | MayStartOneShot
    | Submitting(lane: nat)
    | HasId(lane: nat, id: TaskId)
    | HasFlag(lane: nat, id: TaskId)

  /** How far the first shutdown call has come. */
  datatype Stage =
    | Open | FlaggingTasks | ListingLanes
    | StoppingLane(next: nat) | ClearingLane(next: nat) | DiscardingTasks(next: nat)
    | Joining | Draining | DroppingFlags | Closed

  datatype State = State(
    shuttingDown: bool, stage: Stage, holder: Holder, lanes: seq<Lane>, nextTaskId: TaskId,
    flagged: set<TaskId>,          // keys of taskCancelFlags
    cancelled: set<TaskId>,        // tasks whose cancel flag is set
    results: seq<Result>, pumped: seq<Result>, pumpedRecorded: bool,
    cleared: seq<TaskId>, forgetting: seq<TaskId>,
    counters: Counters,
    accepted: set<TaskId>, discarded: seq<TaskId>, disposed: seq<Result>)   // history

  const INITIAL := State(false, Open, Free, [], 1, {}, {}, [], [], false, [], [], Counters(0, 0, 0), {}, [], [])

  /** Threads that register, submit, unregister, reap and cancel. */
  datatype SubmitterAction =
    | EnterRegister | FinishRegister | EnterOneShot | StartOneShotLane | EnterSubmit(lane: nat)
    | RefuseSubmit | TakeTaskId | PublishFlag | Enqueue
    | Unregister(lane: nat) | Reap(lane: nat) | CancelTask(id: TaskId)

  /** The worker thread of one lane. */
  datatype WorkerAction =
    | Pop | RecordRunning | SkipCancelled | Execute | RecordChunk | PushChunk | Finish(status: Status)
    | RecordResult | PushResult | Forget | Exit

  /** The thread that pumps results; pumpFor takes the first result or the first of a preferred kind. */
  datatype PumpAction = TakeResult(index: nat) | AcceptDeferred | Dispose(adopted: bool)

  datatype ShutdownAction =
    | StartShutdown | FlagAll | ListLanes | StopLane | ClearLane | RecordDiscard | ForgetDiscarded | NextLane
    | EndCancel | Join | ClearResults | ClearFlags

  datatype Action =
    | OfSubmitter(submitter: SubmitterAction)
    | OfWorker(lane: nat, worker: WorkerAction)
    | OfPump(pump: PumpAction)
    | OfShutdown(shutdown: ShutdownAction)

  predicate At(s: State, lane: nat) { lane < |s.lanes| }

  predicate Pumping(s: State) { s.pumped != [] }

  predicate SubmitterEnabled(s: State, a: SubmitterAction) {
    match a
    case EnterRegister => s.holder.Free? && !s.shuttingDown
    case EnterOneShot => s.holder.Free? && !s.shuttingDown
    case FinishRegister => s.holder.MayRegister?
    case StartOneShotLane => s.holder.MayStartOneShot?
    case EnterSubmit(i) => s.holder.Free? && !s.shuttingDown && At(s, i) && s.lanes[i].listing.Registered? && !s.lanes[i].oneShot
    case RefuseSubmit => s.holder.Submitting? && s.shuttingDown
    case TakeTaskId => s.holder.Submitting? && !s.shuttingDown
    case PublishFlag => s.holder.HasId?
    case Enqueue => s.holder.HasFlag? && At(s, s.holder.lane)
    case Unregister(i) => s.holder.Free? && At(s, i) && s.lanes[i].listing.Registered?
    case Reap(i) => s.holder.Free? && At(s, i) && s.lanes[i].phase.Exited? && !s.lanes[i].listing.Gone?
    case CancelTask(id) => true
  }

  /** What a worker can do next depends on its lane and on whether its task is cancelled. */
  predicate WorkerEnabled(l: Lane, cancelled: set<TaskId>, a: WorkerAction) {
    match a
    case Pop => l.phase.Waiting? && l.queue != []
    case RecordRunning => l.phase.Popped?
    case SkipCancelled => l.phase.Started? && (l.stopRequested || l.phase.id in cancelled)
    case Execute => l.phase.Started? && !l.stopRequested && l.phase.id !in cancelled
    case RecordChunk => l.phase.Executing?
    case PushChunk => l.phase.Streaming?
    case Finish(_) => l.phase.Executing?
    case RecordResult => l.phase.Ready?
    case PushResult => l.phase.Recorded?
    case Forget => l.phase.Delivered?
    case Exit => l.phase.Waiting? && l.stopRequested && l.queue == []
  }

  predicate PumpEnabled(s: State, a: PumpAction) {
    match a
    case TakeResult(k) => (s.stage.Open? || s.stage.Draining?) && !Pumping(s) && k < |s.results|
    case AcceptDeferred => Pumping(s) && !s.pumpedRecorded
    case Dispose(_) => Pumping(s)
  }

  predicate ShutdownEnabled(s: State, a: ShutdownAction) {
    match a
    case StartShutdown => s.stage.Open? && !Pumping(s)
    case FlagAll => s.stage.FlaggingTasks?
    case ListLanes => s.stage.ListingLanes? && s.holder.Free?
    case StopLane => s.stage.StoppingLane? && s.stage.next < |s.lanes|
    case ClearLane => s.stage.ClearingLane? && s.stage.next < |s.lanes|
    case RecordDiscard => s.cleared != [] && s.forgetting == []
    case ForgetDiscarded => s.forgetting != []
    case NextLane => s.stage.DiscardingTasks? && s.cleared == [] && s.forgetting == []
    case EndCancel => s.stage.StoppingLane? && s.stage.next >= |s.lanes|
    case Join => s.stage.Joining? && forall i :: 0 <= i < |s.lanes| ==> s.lanes[i].phase.Exited?
    case ClearResults => s.stage.Draining? && !Pumping(s)
    case ClearFlags => s.stage.DroppingFlags?
  }

  /** When the code can take an action. */
  predicate Enabled(s: State, a: Action) {
    match a
    case OfSubmitter(x) => SubmitterEnabled(s, x)
    case OfWorker(i, x) => At(s, i) && WorkerEnabled(s.lanes[i], s.cancelled, x)
    case OfPump(x) => PumpEnabled(s, x)
    case OfShutdown(x) => ShutdownEnabled(s, x)
  }

  // ----- effects

  function SetLane(s: State, i: nat, l: Lane): State
    requires At(s, i)
  {
    s.(lanes := s.lanes[i := l])
  }

  function CurrentId(l: Lane): set<TaskId> {
    match l.phase
    case Waiting => {}
    case Exited => {}
    case _ => {l.phase.id}
  }

  /** requestLaneStop: no new work, and every task of the lane is told to stop. */
  function StopRequested(s: State, i: nat): State
    requires At(s, i)
  {
    var l := s.lanes[i];
    SetLane(s, i, l.(stopRequested := true)).(cancelled := s.cancelled + (set t | t in l.queue) + CurrentId(l))
  }

  function FreshLane(oneShot: bool): Lane { Lane([], Waiting, false, oneShot, Registered) }

  function Mark(state: LifecycleState, reason: Reason): Event { Event(0, state, reason) }

  /** Records an event: only the counters depend on it here. */
  function Told(s: State, state: LifecycleState, reason: Reason): State {
    s.(counters := Forward(s.counters, Mark(state, reason)))
  }

  function AfterSubmitter(s: State, a: SubmitterAction): State
    requires SubmitterEnabled(s, a)
  {
    match a
    case EnterRegister => s.(holder := MayRegister)
    case FinishRegister => s.(holder := Free, lanes := s.lanes + [FreshLane(false)])
    case EnterOneShot => s.(holder := MayStartOneShot)
    case StartOneShotLane => s.(holder := Submitting(|s.lanes|), lanes := s.lanes + [FreshLane(true)])
    case EnterSubmit(i) => s.(holder := Submitting(i))
    case RefuseSubmit => s.(holder := Free)
    case TakeTaskId => s.(holder := HasId(s.holder.lane, s.nextTaskId), nextTaskId := s.nextTaskId + 1)
    case PublishFlag => s.(holder := HasFlag(s.holder.lane, s.holder.id), flagged := s.flagged + {s.holder.id})
    case Enqueue =>
      var i, l := s.holder.lane, s.lanes[s.holder.lane];
      Told(SetLane(s, i, l.(queue := l.queue + [s.holder.id])), LifecycleState.Queued, NoReason)
        .(holder := Free, accepted := s.accepted + {s.holder.id})
    case Unregister(i) => SetLane(StopRequested(s, i), i, s.lanes[i].(stopRequested := true, listing := Retiring))
    case Reap(i) => SetLane(s, i, s.lanes[i].(listing := Gone))
    case CancelTask(id) => if id in s.flagged then s.(cancelled := s.cancelled + {id}) else s
  }

  function LaneAfter(l: Lane, cancelled: set<TaskId>, a: WorkerAction): Lane
    requires WorkerEnabled(l, cancelled, a)
  {
    match a
    case Pop => l.(queue := l.queue[1..], phase := Popped(l.queue[0]))
    case RecordRunning => l.(phase := Started(l.phase.id))
    case SkipCancelled => l.(phase := Ready(l.phase.id, Cancelled))
    case Execute => l.(phase := Executing(l.phase.id))
    case RecordChunk => l.(phase := Streaming(l.phase.id))
    case PushChunk => l.(phase := Executing(l.phase.id))
    case Finish(status) => l.(phase := Ready(l.phase.id, status))
    case RecordResult => l.(phase := Recorded(l.phase.id, l.phase.status))
    case PushResult => l.(phase := Delivered(l.phase.id))
    case Forget => l.(phase := if l.oneShot then Exited else Waiting)
    case Exit => l.(phase := Exited)
  }

  function ReasonFor(status: Status): Reason {
    match status case Completed => TaskCompleted case Cancelled => TaskCancelled case Failed => TaskFailed
  }

  function AfterWorker(s: State, i: nat, a: WorkerAction): State
    requires At(s, i) && WorkerEnabled(s.lanes[i], s.cancelled, a)
  {
    var l := s.lanes[i];
    var t := SetLane(s, i, LaneAfter(l, s.cancelled, a));
    match a
    case RecordRunning => Told(t, LifecycleState.Running, NoReason)
    case RecordChunk => Told(t, ResultReady, StreamChunk)
    case RecordResult => Told(t, ResultReady, ReasonFor(l.phase.status))
    case PushChunk => t.(results := s.results + [Result(l.phase.id, Completed, false)])
    case PushResult => t.(results := s.results + [Result(l.phase.id, l.phase.status, true)])
    case Forget => t.(flagged := s.flagged - {l.phase.id})
    case _ => t
  }

  function AfterPump(s: State, a: PumpAction): State
    requires PumpEnabled(s, a)
  {
    match a
    case TakeResult(k) => s.(results := s.results[..k] + s.results[k + 1..], pumped := [s.results[k]], pumpedRecorded := false)
    case AcceptDeferred => Told(s, Accepted, ResultAccepted).(pumpedRecorded := true)
    case Dispose(adopted) =>
      var t := s.(pumped := [], disposed := s.disposed + s.pumped);
      if s.pumpedRecorded then t
      else if adopted then Told(t, Adopted, ResultAdopted) else Told(t, LifecycleState.Discarded, ResultRejected)
  }

  /** Every result still queued is recorded as rejected, one after the other. */
  function AllRejected(c: Counters, n: nat): Counters {
    if n == 0 then c else Forward(AllRejected(c, n - 1), Mark(LifecycleState.Discarded, ResultRejected))
  }

  function AfterShutdown(s: State, a: ShutdownAction): State
    requires ShutdownEnabled(s, a)
  {
    match a
    case StartShutdown => s.(shuttingDown := true, stage := FlaggingTasks)
    case FlagAll => s.(cancelled := s.cancelled + s.flagged, stage := ListingLanes)
    case ListLanes => s.(stage := StoppingLane(0))
    case StopLane =>
      var n := s.stage.next;
      (if s.lanes[n].listing.Gone? then s else StopRequested(s, n)).(stage := ClearingLane(n))
    case ClearLane =>
      var n, l := s.stage.next, s.lanes[s.stage.next];
      (if l.listing.Gone? then s else SetLane(s, n, l.(queue := [])).(cleared := l.queue)).(stage := DiscardingTasks(n))
    case RecordDiscard =>
      Told(s, LifecycleState.Discarded, TaskCancelled)
        .(cleared := s.cleared[1..], forgetting := [s.cleared[0]], discarded := s.discarded + [s.cleared[0]])
    case ForgetDiscarded => s.(forgetting := [], flagged := s.flagged - {s.forgetting[0]})
    case NextLane => s.(stage := StoppingLane(s.stage.next + 1))
    case EndCancel => s.(stage := Joining)
    case Join => s.(stage := Draining)
    case ClearResults => s.(results := [], disposed := s.disposed + s.results, counters := AllRejected(s.counters, |s.results|), stage := DroppingFlags)
    case ClearFlags => s.(flagged := {}, stage := Closed)
  }

  function Next(s: State, a: Action): State
    requires Enabled(s, a)
  {
    match a
    case OfSubmitter(x) => AfterSubmitter(s, x)
    case OfWorker(i, x) => AfterWorker(s, i, x)
    case OfPump(x) => AfterPump(s, x)
    case OfShutdown(x) => AfterShutdown(s, x)
  }
}
