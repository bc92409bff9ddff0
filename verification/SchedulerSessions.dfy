/** The macro sessions behind the scheduler: what is started outside the lock, how the start
    is recorded from a snapshot that may be stale, and how published results end the block
    (app/MRRuntimeScheduler.cpp, mrmac/vm/MRVMExecSessions.cpp). Any interleaving of the pump,
    of sessions that finish and of threads that look at the recent results. */
module SchedulerSessions {
  import opened Scheduler

  type SessionId = nat

  /** How many results the runtime remembers. */
  const RECENT_CAPACITY: nat := 32

  /** Where the pump is: idle; between two consumers it has to start; inside the start of
      one; back with a snapshot of its session; due to look at the recent results, and with
      the list it read. */
  datatype Phase =
    | Idle
    | Starting(todo: set<ConsumerId>)
    | Running(todo: set<ConsumerId>, consumer: ConsumerId, session: SessionId)
    | Returned(todo: set<ConsumerId>, consumer: ConsumerId, session: SessionId, stillActive: bool)
    | Rescanning(todo: set<ConsumerId>)
    | Reading(todo: set<ConsumerId>, list: seq<SessionId>)

  /** `unfinished` are sessions without a published result, `startedFor` the consumers they
      were started for, `recent` the sessions of the newest results, oldest first. `owed`
      counts published results whose notification has not read the list yet, `lists` are the
      lists that notified threads have read and not applied. */
  datatype State = State(consumers: map<ConsumerId, Consumer>, nextConsumer: ConsumerId, nextSession: SessionId,
                         unfinished: set<SessionId>, startedFor: map<SessionId, ConsumerId>, recent: seq<SessionId>,
                         owed: nat, lists: seq<seq<SessionId>>, phase: Phase)

  const INITIAL := State(map[], 1, 1, {}, map[], [], 0, [], Idle)

  datatype Action =
    | Register(intervalMs: nat)
    | Remove(consumer: ConsumerId)
    | BeginPump(now: nat)
    | Launch(consumer: ConsumerId)              // the macro is accepted and gets a session
    | Refuse(consumer: ConsumerId)              // it is not
    | Return(stillActive: bool)                 // the start call returns a snapshot
    | RecordStart
    | ReadAfterStart
    | ApplyAfterStart
    | EndPump
    | StartOther                                // a session that is nobody's tick
    | Finish(session: SessionId)                // its result is published
    | ReadResults                               // a thread is notified, of a result or of another change
    | ApplyResults(index: nat)

  /** `recordRuntimeScheduledConsumerFinishResults`: no consumer stays blocked by a session in
      the list. */
  function Unblocked(consumers: map<ConsumerId, Consumer>, list: seq<SessionId>): map<ConsumerId, Consumer> {
    map id | id in consumers ::
      if consumers[id].activeSession != 0 && consumers[id].activeSession in list then consumers[id].(activeSession := 0) else consumers[id]
  }

  /** The newest results only. */
  function Remembered(recent: seq<SessionId>, session: SessionId): seq<SessionId> {
    var all := recent + [session];
    if |all| > RECENT_CAPACITY then all[|all| - RECENT_CAPACITY..] else all
  }

  /** A start call says that the session is over only if its result was published. */
  ghost predicate Enabled(s: State, a: Action) {
    match a
    case Register(intervalMs) => intervalMs > 0
    case Remove(id) => id in s.consumers
    case BeginPump(_) => s.phase.Idle?
    case Launch(id) => s.phase.Starting? && id in s.phase.todo
    case Refuse(id) => s.phase.Starting? && id in s.phase.todo
    case Return(stillActive) => s.phase.Running? && (!stillActive ==> s.phase.session !in s.unfinished)
    case RecordStart => s.phase.Returned?
    case ReadAfterStart => s.phase.Rescanning?
    case ApplyAfterStart => s.phase.Reading?
    case EndPump => s.phase.Starting? && s.phase.todo == {}
    case StartOther => true
    case Finish(session) => session in s.unfinished
    case ReadResults => true
    case ApplyResults(index) => index < |s.lists|
  }

  ghost function Next(s: State, a: Action): State
    requires Enabled(s, a)
  {
    match a
    case Register(intervalMs) =>
      s.(consumers := s.consumers[s.nextConsumer := Consumer(intervalMs, 0, 0)], nextConsumer := s.nextConsumer + 1)
    case Remove(id) => s.(consumers := s.consumers - {id})
    case BeginPump(now) =>
      s.(consumers := Scanned(s.consumers, now), phase := Starting(ToStart(s.consumers, s.consumers.Keys, now)))
    case Launch(id) =>
      s.(nextSession := s.nextSession + 1, unfinished := s.unfinished + {s.nextSession},
         startedFor := s.startedFor[s.nextSession := id], phase := Running(s.phase.todo - {id}, id, s.nextSession))
    case Refuse(id) => s.(phase := Starting(s.phase.todo - {id}))
    case Return(stillActive) => s.(phase := Returned(s.phase.todo, s.phase.consumer, s.phase.session, stillActive))
    case RecordStart =>
      var id := s.phase.consumer;
      if id !in s.consumers then s.(phase := Starting(s.phase.todo))
      else
        s.(consumers := s.consumers[id := s.consumers[id].(activeSession := if s.phase.stillActive then s.phase.session else 0)],
           phase := Rescanning(s.phase.todo))
    case ReadAfterStart => s.(phase := Reading(s.phase.todo, s.recent))
    case ApplyAfterStart => s.(consumers := Unblocked(s.consumers, s.phase.list), phase := Starting(s.phase.todo))
    case EndPump => s.(phase := Idle)
    case StartOther => s.(nextSession := s.nextSession + 1, unfinished := s.unfinished + {s.nextSession})
    case Finish(session) =>
      s.(unfinished := s.unfinished - {session}, recent := Remembered(s.recent, session), owed := s.owed + 1)
    case ReadResults => s.(owed := if s.owed > 0 then s.owed - 1 else 0, lists := s.lists + [s.recent])
    case ApplyResults(index) =>
      s.(consumers := Unblocked(s.consumers, s.lists[index]), lists := s.lists[..index] + s.lists[index + 1..])
  }

  // ---------------------------------------------------------------------------- the invariant

  predicate IsStarting(s: State, id: ConsumerId, session: SessionId) {
    (s.phase.Running? || s.phase.Returned?) && s.phase.consumer == id && s.phase.session == session
  }

  /** Numbers are given once. */
  ghost predicate Numbered(s: State) {
    && s.nextSession > 0 && s.nextConsumer > 0
    && (forall x | x in s.unfinished :: 0 < x < s.nextSession)
    && (forall x | x in s.startedFor :: 0 < x < s.nextSession && s.startedFor[x] < s.nextConsumer)
    && (forall id | id in s.consumers :: id < s.nextConsumer && s.consumers[id].activeSession < s.nextSession)
    && (!s.phase.Idle? ==> forall id | id in s.phase.todo :: id < s.nextConsumer)
  }

  /** No remembered or read result belongs to an unfinished session. */
  ghost predicate Published(s: State) {
    && (forall i | 0 <= i < |s.recent| :: 0 < s.recent[i] < s.nextSession && s.recent[i] !in s.unfinished)
    && (forall k, i | 0 <= k < |s.lists| && 0 <= i < |s.lists[k]| :: 0 < s.lists[k][i] < s.nextSession && s.lists[k][i] !in s.unfinished)
    && (s.phase.Reading? ==> forall i | 0 <= i < |s.phase.list| :: 0 < s.phase.list[i] < s.nextSession && s.phase.list[i] !in s.unfinished)
  }

  /** An unfinished session started for a consumer blocks it, or is being started. */
  ghost predicate Blocking(s: State) {
    forall x | x in s.unfinished && x in s.startedFor && s.startedFor[x] in s.consumers ::
      s.consumers[s.startedFor[x]].activeSession == x || IsStarting(s, s.startedFor[x], x)
  }

  /** An unfinished session was started for the consumer. */
  ghost predicate Busy(s: State, id: ConsumerId) {
    exists x :: x in s.unfinished && x in s.startedFor && s.startedFor[x] == id
  }

  /** The consumers the pump has yet to start are free, and so is the one being started. */
  ghost predicate Ready(s: State) {
    && (!s.phase.Idle? ==> forall id | id in s.phase.todo :: !Busy(s, id))
    && (!s.phase.Idle? ==> forall id | id in s.phase.todo && id in s.consumers :: s.consumers[id].activeSession == 0)
    && (s.phase.Running? || s.phase.Returned? ==>
          && s.phase.consumer !in s.phase.todo && s.phase.session in s.startedFor && s.startedFor[s.phase.session] == s.phase.consumer
          && (s.phase.consumer in s.consumers ==> s.consumers[s.phase.consumer].activeSession == 0))
    && (s.phase.Returned? && !s.phase.stillActive ==> s.phase.session !in s.unfinished)
  }

  /** A session blocks the consumer it was started for and no other. */
  ghost predicate Owned(s: State) {
    forall id | id in s.consumers && s.consumers[id].activeSession != 0 ::
      s.consumers[id].activeSession in s.startedFor && s.startedFor[s.consumers[id].activeSession] == id
  }

  ghost predicate Inv(s: State) { Numbered(s) && Published(s) && Blocking(s) && Ready(s) && Owned(s) }

  lemma OwnedNext(s: State, a: Action)
    requires Inv(s) && Enabled(s, a)
    ensures Owned(Next(s, a))
  {
  }

  lemma NumberedNext(s: State, a: Action)
    requires Inv(s) && Enabled(s, a)
    ensures Numbered(Next(s, a))
  {
  }

  lemma PublishedNext(s: State, a: Action)
    requires Inv(s) && Enabled(s, a)
    ensures Published(Next(s, a))
  {
  }

  lemma BlockingNext(s: State, a: Action)
    requires Inv(s) && Enabled(s, a)
    ensures Blocking(Next(s, a))
  {
  }

  lemma ReadyNext(s: State, a: Action)
    requires Inv(s) && Enabled(s, a)
    ensures Ready(Next(s, a))
  {
  }

  /** A finished session that still blocks a consumer and is remembered will be seen: some
      thread is about to read the list, or has read it and not applied it yet. */
  ghost predicate WillBeSeen(s: State, x: SessionId) {
    s.owed > 0 || s.phase.Rescanning? || (s.phase.Reading? && x in s.phase.list) || exists k :: 0 <= k < |s.lists| && x in s.lists[k]
  }

  ghost predicate Caught(s: State) {
    forall id | id in s.consumers ::
      var x := s.consumers[id].activeSession;
      x != 0 && x !in s.unfinished && x in s.recent ==> WillBeSeen(s, x)
  }

  /** The action applies a list with this session. */
  predicate Applies(s: State, a: Action, x: SessionId) {
    (a.ApplyAfterStart? && s.phase.Reading? && x in s.phase.list) || (a.ApplyResults? && a.index < |s.lists| && x in s.lists[a.index])
  }

  /** A remembered session that is going to be seen is so until it is. */
  lemma SeenNext(s: State, a: Action, x: SessionId)
    requires Enabled(s, a) && WillBeSeen(s, x) && x in s.recent && !Applies(s, a, x)
    ensures WillBeSeen(Next(s, a), x)
  {
    var t := Next(s, a);
    if a.ReadResults? {
      assert t.lists[|s.lists|] == s.recent;
    } else if k :| 0 <= k < |s.lists| && x in s.lists[k] {
      if a.ApplyResults? { assert t.lists[if k < a.index then k else k - 1] == s.lists[k]; } else { assert t.lists[k] == s.lists[k]; }
    }
  }

  lemma CaughtNext(s: State, a: Action)
    requires Inv(s) && Caught(s) && Enabled(s, a)
    ensures Caught(Next(s, a))
  {
    var t := Next(s, a);
    if !a.Finish? && !a.RecordStart? && !a.Register? {
      forall id | id in t.consumers && t.consumers[id].activeSession != 0 && t.consumers[id].activeSession !in t.unfinished && t.consumers[id].activeSession in t.recent
        ensures WillBeSeen(t, t.consumers[id].activeSession)
      {
        StillWaiting(s, a, id);
        SeenNext(s, a, t.consumers[id].activeSession);
      }
    }
  }

  lemma StillWaiting(s: State, a: Action, id: ConsumerId)
    requires Inv(s) && Enabled(s, a) && !a.Finish? && !a.RecordStart? && !a.Register?
    requires id in Next(s, a).consumers && Next(s, a).consumers[id].activeSession != 0 && Next(s, a).consumers[id].activeSession !in Next(s, a).unfinished
    ensures id in s.consumers && s.consumers[id].activeSession == Next(s, a).consumers[id].activeSession
    ensures s.consumers[id].activeSession !in s.unfinished && s.recent == Next(s, a).recent && !Applies(s, a, s.consumers[id].activeSession)
  {
  }

  ghost predicate DistinctSessions(consumers: map<ConsumerId, Consumer>) {
    forall a, b | a in consumers && b in consumers && a != b && consumers[a].activeSession != 0 ::
      consumers[a].activeSession != consumers[b].activeSession
  }

  /** Where no two consumers wait for the same session, the loop over results and consumers
      frees exactly those whose session is in the list. */
  lemma {:induction false} FreedIsUnblocked(consumers: map<ConsumerId, Consumer>, order: seq<ConsumerId>, list: seq<SessionId>)
    requires Lists(order, consumers) && DistinctSessions(consumers)
    ensures FreedAll(consumers, order, list) == Unblocked(consumers, list)
    decreases |list|
  {
    if list != [] {
      var n := |list| - 1;
      var front, x := list[..n], list[n];
      FreedIsUnblocked(consumers, order, front);
      assert list == front + [x];
      UnblockedNext(consumers, front, x);
      if x != 0 {
        UnblockedKeeps(consumers, order, front);
        FreedOne(Unblocked(consumers, front), order, x);
      }
    }
  }

  lemma UnblockedNext(consumers: map<ConsumerId, Consumer>, front: seq<SessionId>, x: SessionId)
    ensures Unblocked(consumers, front + [x])
         == if x == 0 then Unblocked(consumers, front) else Unblocked(Unblocked(consumers, front), [x])
  {
    assert forall y :: y in front + [x] <==> y in front || y == x;
  }

  lemma UnblockedKeeps(consumers: map<ConsumerId, Consumer>, order: seq<ConsumerId>, list: seq<SessionId>)
    requires Lists(order, consumers) && DistinctSessions(consumers)
    ensures Lists(order, Unblocked(consumers, list)) && DistinctSessions(Unblocked(consumers, list))
  {
    assert Unblocked(consumers, list).Keys == consumers.Keys;
  }

  lemma FreedOne(consumers: map<ConsumerId, Consumer>, order: seq<ConsumerId>, x: SessionId)
    requires Lists(order, consumers) && DistinctSessions(consumers) && x != 0
    ensures Freed(consumers, order, x) == Unblocked(consumers, [x])
  {
    var i := WaitingAt(consumers, order, x);
    WaitingFound(consumers, order, x);
    if i == |order| {
      forall id | id in consumers ensures consumers[id].activeSession != x {
        assert id in Visited(order);
        var j :| 0 <= j < |order| && order[j] == id;
      }
    }
  }

  lemma {:induction false} WaitingFound(consumers: map<ConsumerId, Consumer>, order: seq<ConsumerId>, x: SessionId)
    requires forall j | 0 <= j < |order| :: order[j] in consumers
    ensures var i := WaitingAt(consumers, order, x);
      && (i < |order| ==> consumers[order[i]].activeSession == x)
      && forall j | 0 <= j < i :: consumers[order[j]].activeSession != x
    decreases |order|
  {
    if order != [] && consumers[order[0]].activeSession != x {
      WaitingFound(consumers, order[1..], x);
      var i := WaitingAt(consumers, order[1..], x);
      forall j | 0 <= j < i + 1 ensures consumers[order[j]].activeSession != x {
        if j > 0 { assert order[j] == order[1..][j - 1]; }
      }
    }
  }

  /** In every reachable state the loop is therefore what the transition system says. */
  lemma ResultsFreeAsModelled(actions: seq<Action>, order: seq<ConsumerId>, list: seq<SessionId>)
    requires Possible(INITIAL, actions) && Lists(order, After(INITIAL, actions).consumers)
    ensures FreedAll(After(INITIAL, actions).consumers, order, list) == Unblocked(After(INITIAL, actions).consumers, list)
  {
    RunsKeepInv(actions);
    FreedIsUnblocked(After(INITIAL, actions).consumers, order, list);
  }

  // -------------------------------------------------------------------------------- whole runs

  ghost predicate Possible(s: State, actions: seq<Action>)
    decreases |actions|, 0
  {
    actions == [] || (Possible(s, actions[..|actions| - 1]) && Enabled(After(s, actions[..|actions| - 1]), actions[|actions| - 1]))
  }

  ghost function After(s: State, actions: seq<Action>): State
    requires Possible(s, actions)
    decreases |actions|, 1
  {
    if actions == [] then s else Next(After(s, actions[..|actions| - 1]), actions[|actions| - 1])
  }

  lemma {:induction false} RunsKeepInv(actions: seq<Action>)
    requires Possible(INITIAL, actions)
    ensures Inv(After(INITIAL, actions)) && Caught(After(INITIAL, actions))
    decreases |actions|
  {
    if actions != [] {
      var n := |actions| - 1;
      RunsKeepInv(actions[..n]);
      var s := After(INITIAL, actions[..n]);
      NumberedNext(s, actions[n]);
      PublishedNext(s, actions[n]);
      BlockingNext(s, actions[n]);
      ReadyNext(s, actions[n]);
      OwnedNext(s, actions[n]);
      CaughtNext(s, actions[n]);
    }
  }

  /** Whenever a pump can begin, an unfinished session started for a consumer blocks it. */
  lemma UnfinishedSessionsBlock(actions: seq<Action>, x: SessionId)
    requires Possible(INITIAL, actions)
    ensures var s := After(INITIAL, actions);
      s.phase.Idle? && x in s.unfinished && x in s.startedFor && s.startedFor[x] in s.consumers ==>
        s.consumers[s.startedFor[x]].activeSession == x
  {
    RunsKeepInv(actions);
  }

  /** Over every run: no consumer with an unfinished session is asked to start, when the pump
      chooses and when it starts it. */
  lemma NeverStartedTwice(actions: seq<Action>, now: nat, id: ConsumerId)
    requires Possible(INITIAL, actions)
    ensures var s := After(INITIAL, actions);
      && (s.phase.Idle? && id in ToStart(s.consumers, s.consumers.Keys, now) ==> !Busy(s, id))
      && (Enabled(s, Launch(id)) ==> !Busy(s, id))
  {
    RunsKeepInv(actions);
  }

  ghost predicate Quiet(s: State) { s.owed == 0 && s.lists == [] && (s.phase.Idle? || s.phase.Starting?) }

  /** When no thread has results left to look at, a consumer is blocked by an unfinished
      session, or by a finished one whose result has fallen out of the remembered ones. */
  lemma BlockedOnlyByForgottenResults(actions: seq<Action>, id: ConsumerId)
    requires Possible(INITIAL, actions) && id in After(INITIAL, actions).consumers && Quiet(After(INITIAL, actions))
    ensures var s := After(INITIAL, actions);
      var x := s.consumers[id].activeSession;
      x == 0 || x in s.unfinished || x !in s.recent
  {
    RunsKeepInv(actions);
  }

  /** The result of a session was forgotten while it blocks the consumer. */
  ghost predicate Forgotten(s: State, id: ConsumerId) {
    && id in s.consumers && s.consumers[id].activeSession != 0
    && var x := s.consumers[id].activeSession;
    && x !in s.unfinished && x !in s.recent && (forall k | 0 <= k < |s.lists| :: x !in s.lists[k])
    && (s.phase.Reading? ==> x !in s.phase.list)
  }

  /** Such a consumer is never unblocked: whatever happens next, it stays so until it is
      removed. */
  lemma ForgottenStaysBlocked(s: State, a: Action, id: ConsumerId)
    requires Inv(s) && Enabled(s, a) && Forgotten(s, id)
    ensures var t := Next(s, a);
      if a == Remove(id) then id !in t.consumers
      else Forgotten(t, id) && t.consumers[id].activeSession == s.consumers[id].activeSession
  {
  }

  /** Looking at the list after a start unblocks the consumer exactly if the session's result
      is in it. */
  lemma RescanExact(s: State, id: ConsumerId)
    requires s.phase.Reading? && id in s.consumers && s.consumers[id].activeSession != 0
    ensures Next(s, ApplyAfterStart).consumers[id].activeSession == 0 <==> s.consumers[id].activeSession in s.phase.list
  {
  }

  // ----------------------------------------------------------------- a consumer blocked for good

  lemma {:induction false} Joined(s: State, a: seq<Action>, b: seq<Action>)
    requires Possible(s, a) && Possible(After(s, a), b)
    ensures Possible(s, a + b) && After(s, a + b) == After(After(s, a), b)
    decreases |b|
  {
    if b == [] {
      assert a + b == a;
    } else {
      var n := |b| - 1;
      Joined(s, a, b[..n]);
      assert (a + b)[..|a + b| - 1] == a + b[..n];
    }
  }

  lemma One(s: State, a: Action)
    requires Enabled(s, a)
    ensures Possible(s, [a]) && After(s, [a]) == Next(s, a)
  {
    assert [a][..0] == [];
    assert Possible(s, []) && After(s, []) == s;
  }

  lemma OneMore(s: State, actions: seq<Action>, a: Action)
    requires Possible(s, actions) && Enabled(After(s, actions), a)
    ensures Possible(s, actions + [a]) && After(s, actions + [a]) == Next(After(s, actions), a)
  {
    One(After(s, actions), a);
    Joined(s, actions, [a]);
  }

  /** The remembered results after `n` more sessions, numbered from `first`. */
  function Crowded(recent: seq<SessionId>, first: SessionId, n: nat): seq<SessionId> {
    if n == 0 then recent else Remembered(Crowded(recent, first, n - 1), first + n - 1)
  }

  /** The last `n` remembered results, up to 32, are the newest. */
  lemma {:induction false} CrowdedForgets(recent: seq<SessionId>, first: SessionId, n: nat)
    requires |recent| <= RECENT_CAPACITY
    ensures var r := Crowded(recent, first, n);
      && |r| <= RECENT_CAPACITY && (n <= RECENT_CAPACITY ==> n <= |r|)
      && (n <= RECENT_CAPACITY ==> forall i | |r| - n <= i < |r| :: first <= r[i])
    decreases n
  {
    if n > 0 { CrowdedForgets(recent, first, n - 1); }
  }

  lemma {:induction false} Crowd(s: State, n: nat) returns (actions: seq<Action>)
    requires forall x | x in s.unfinished :: x < s.nextSession
    ensures Possible(s, actions)
    ensures After(s, actions) == s.(nextSession := s.nextSession + n, owed := s.owed + n, recent := Crowded(s.recent, s.nextSession, n))
    decreases n
  {
    if n == 0 {
      actions := [];
    } else {
      var front := Crowd(s, n - 1);
      StartedAndFinished(After(s, front));
      actions := OneOther(s, front);
    }
  }

  lemma OneOther(s: State, front: seq<Action>) returns (actions: seq<Action>)
    requires Possible(s, front)
    ensures var t := After(s, front);
      && Enabled(Next(t, StartOther), Finish(t.nextSession))
      && Possible(s, actions) && After(s, actions) == Next(Next(t, StartOther), Finish(t.nextSession))
  {
    var t := After(s, front);
    OneMore(s, front, StartOther);
    OneMore(s, front + [StartOther], Finish(t.nextSession));
    actions := front + [StartOther] + [Finish(t.nextSession)];
  }

  lemma StartedAndFinished(t: State)
    requires forall x | x in t.unfinished :: x < t.nextSession
    ensures var u := Next(t, StartOther);
      && Enabled(u, Finish(t.nextSession))
      && Next(u, Finish(t.nextSession))
      == t.(nextSession := t.nextSession + 1, owed := t.owed + 1, recent := Remembered(t.recent, t.nextSession))
  {
    assert t.unfinished + {t.nextSession} - {t.nextSession} == t.unfinished;
  }

  /** The block can outlast its session: a consumer whose session finishes during the start,
      and whose result is followed by 32 others before the start is recorded. */
  lemma SomeConsumerIsBlockedForGood() returns (actions: seq<Action>)
    ensures Possible(INITIAL, actions) && After(INITIAL, actions).phase.Idle? && Forgotten(After(INITIAL, actions), 1)
  {
    var s1 := Next(INITIAL, Register(1));
    One(INITIAL, Register(1));
    var a2 := [Register(1)] + [BeginPump(0)];
    OneMore(INITIAL, [Register(1)], BeginPump(0));
    var s2 := Next(s1, BeginPump(0));
    assert s2.phase.todo == {1};
    var a3 := a2 + [Launch(1)];
    OneMore(INITIAL, a2, Launch(1));
    var s3 := Next(s2, Launch(1));
    assert s3.phase == Running({}, 1, 1);
    var a4 := a3 + [Return(true)];
    OneMore(INITIAL, a3, Return(true));
    var s4 := Next(s3, Return(true));
    var a5 := a4 + [Finish(1)];
    OneMore(INITIAL, a4, Finish(1));
    var s5 := Next(s4, Finish(1));
    assert s5.unfinished == {} && s5.recent == [1];
    var others := Crowd(s5, 32);
    CrowdedForgets(s5.recent, 2, 32);
    Joined(INITIAL, a5, others);
    var a6 := a5 + others;
    var s6 := After(INITIAL, a6);
    assert 1 !in s6.recent;
    actions := EndOfStart(a6);
  }

  /** The rest of a pump that has nothing more to start. */
  lemma EndOfStart(before: seq<Action>) returns (actions: seq<Action>)
    requires Possible(INITIAL, before)
    requires var s := After(INITIAL, before);
      && s.phase == Returned({}, 1, 1, true) && 1 in s.consumers && 1 !in s.recent && 1 !in s.unfinished && s.lists == []
    ensures Possible(INITIAL, actions) && After(INITIAL, actions).phase.Idle? && Forgotten(After(INITIAL, actions), 1)
  {
    var s := After(INITIAL, before);
    OneMore(INITIAL, before, RecordStart);
    OneMore(INITIAL, before + [RecordStart], ReadAfterStart);
    OneMore(INITIAL, before + [RecordStart] + [ReadAfterStart], ApplyAfterStart);
    OneMore(INITIAL, before + [RecordStart] + [ReadAfterStart] + [ApplyAfterStart], EndPump);
    actions := before + [RecordStart] + [ReadAfterStart] + [ApplyAfterStart] + [EndPump];
  }
}
