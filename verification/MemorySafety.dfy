// At most one successful handler call per event, in every run of the in-memory bus.
//
// The argument joins three facts that live in different places: an accepted eventId
// determines its run, the dispatcher keeps one worker per run, and the check of the
// seen map and its update are separated by a handler call.

module MemorySafety {
  import opened Identity
  import opened Sums
  import D = Dispatcher
  import G = Dedupe
  import opened SerialGuard
  import opened MemoryModel

  // --------------------------------------------------------------- invariant

  ghost predicate FrontValid(f: Front) {
    && (forall i :: 0 <= i < |f.pending| ==> ValidIdentity(f.pending[i]))
    && (f.pump.Holding? ==> ValidIdentity(f.pump.env))
    && (f.running <==> !f.pump.Idle?)
  }

  /** Each delivery has a stage, and the guard knows its phase. */
  ghost predicate StagesOk(g: G.Guard, stages: map<nat, Stage>) {
    && stages.Keys == g.threads.Keys
    && (forall w :: w in stages && w in g.threads ==> g.threads[w].phase == PhaseOf(stages[w]))
  }

  ghost predicate Inv(s: State) {
    && Serial(s.disp, s.guard)
    && StagesOk(s.guard, s.stages)
    && FrontValid(s.front)
    && (!s.front.running ==> s.disp.workers == map[])
  }

  lemma InitInv(maxAttempts: int, queueSize: int)
    ensures Inv(Init(maxAttempts, queueSize))
  {
    InitSerial(queueSize);
  }

  // ------------------------------------------------- one lemma per kind of step

  lemma FrontStep(s: State, f: Front, h: History, c: Counters)
    requires Inv(s) && FrontValid(f) && (!f.running ==> s.disp.workers == map[])
    ensures Inv(s.(front := f, hist := h, counters := c))
  {
    hide Serial, StagesOk, FrontValid;
  }

  lemma StartConsumeInv(s: State)
    requires Enabled(s, StartConsume) && Inv(s)
    ensures Inv(Apply(s, StartConsume))
  {
    hide Serial, StagesOk;
    RestartSerial(s.disp, s.guard, s.queueSize);
  }

  lemma PumpSendInv(s: State, q: nat, w: nat)
    requires Enabled(s, PumpSend(q, w)) && Inv(s)
    ensures Inv(Apply(s, PumpSend(q, w)))
  {
    hide Serial, StagesOk, D.TrySend;
    SendSerial(s.disp, s.guard, Delivery(s.front.pump.env), q, w);
  }

  lemma DispatcherMoveInv(s: State, a: D.Action)
    requires Enabled(s, DispatcherMove(a)) && Inv(s)
    ensures Inv(Apply(s, DispatcherMove(a)))
  {
    hide Serial, StagesOk, FrontValid;
    MoveSerial(s.disp, s.guard, a);
  }

  lemma TakeInv(s: State, w: nat)
    requires Enabled(s, Take(w)) && Inv(s)
    ensures Inv(Apply(s, Take(w)))
  {
    hide Serial, FrontValid, D.Take;
    TakeSerial(s.disp, s.guard, w);
    assert D.Take(s.disp, w).workers != map[];
  }

  lemma ReturnInv(s: State, w: nat)
    requires Enabled(s, Return(w)) && Inv(s)
    ensures Inv(Apply(s, Return(w)))
  {
    hide Serial, FrontValid;
    CompleteSerial(s.disp, s.guard, w);
  }

  /** A step inside one delivery: only that delivery's phase and stage move. */
  lemma StageStep(s: State, t: State, w: nat)
    requires Inv(s) && OnStage(s, w)
    requires t.disp == s.disp && t.front == s.front
    requires t.stages.Keys == s.stages.Keys && t.guard.threads.Keys == s.guard.threads.Keys
    requires forall v :: v in s.stages && v != w ==> t.stages[v] == s.stages[v]
    requires forall v :: v in s.guard.threads && v != w ==> t.guard.threads[v] == s.guard.threads[v]
    requires t.guard.threads[w] == G.Thread(s.guard.threads[w].event, PhaseOf(t.stages[w]))
    requires G.Inv(t.guard)
    ensures Inv(t)
  {
    hide Serial, FrontValid, G.Inv;
    PhaseSerial(s.disp, s.guard, t.guard);
  }

  lemma FindDoneInv(s: State, w: nat)
    requires Enabled(s, FindDone(w)) && Inv(s)
    ensures Inv(Apply(s, FindDone(w)))
  {
    hide D.Inv, TasksValid, Linked, G.Inv, FrontValid, StagesOk;
    G.CheckInv(s.guard, w);
    StageStep(s, DoFindDone(s, w), w);
  }

  lemma CallHandlerInv(s: State, w: nat, ok: bool)
    requires Enabled(s, CallHandler(w, ok)) && Inv(s)
    ensures Inv(Apply(s, CallHandler(w, ok)))
  {
    hide D.Inv, TasksValid, Linked, G.Inv, FrontValid, StagesOk;
    if ok {
      G.CommitInv(s.guard, w);
    }
    StageStep(s, DoCallHandler(s, w, ok), w);
  }

  lemma RecordInv(s: State, w: nat)
    requires Enabled(s, Record(w)) && Inv(s)
    ensures Inv(Apply(s, Record(w)))
  {
    hide D.Inv, TasksValid, Linked, G.Inv, FrontValid, StagesOk;
    G.MarkInv(s.guard, w);
    StageStep(s, DoRecord(s, w), w);
  }

  lemma DecideInv(s: State, w: nat)
    requires Enabled(s, Decide(w)) && Inv(s)
    ensures Inv(Apply(s, Decide(w)))
  {
    hide D.Inv, TasksValid, Linked, G.Inv, FrontValid, StagesOk;
    G.GiveUpInv(s.guard, w);
    StageStep(s, DoDecide(s, w), w);
  }

  lemma WaitInv(s: State, w: nat, cut: bool)
    requires Enabled(s, Wait(w, cut)) && Inv(s)
    ensures Inv(Apply(s, Wait(w, cut)))
  {
    hide D.Inv, TasksValid, Linked, G.Inv, FrontValid, StagesOk;
    G.GiveUpInv(s.guard, w);
    StageStep(s, DoWait(s, w, cut), w);
  }

  lemma FireHookInv(s: State, w: nat)
    requires Enabled(s, FireHook(w)) && Inv(s)
    ensures Inv(Apply(s, FireHook(w)))
  {
    hide D.Inv, TasksValid, G.Inv, FrontValid, Linked, StagesOk;
    StageStep(s, Apply(s, FireHook(w)), w);
  }

  /** Every step keeps the invariant. */
  lemma StepInv(s: State, a: Action)
    requires Inv(s) && Enabled(s, a)
    ensures Inv(Apply(s, a))
  {
    hide D.Inv, TasksValid, Linked, G.Inv;
    match a
    case PumpSend(q, w) => PumpSendInv(s, q, w);
    case DispatcherMove(m) => DispatcherMoveInv(s, m);
    case StartConsume => StartConsumeInv(s);
    case Take(w) => TakeInv(s, w);
    case Return(w) => ReturnInv(s, w);
    case FindDone(w) => FindDoneInv(s, w);
    case CallHandler(w, ok) => CallHandlerInv(s, w, ok);
    case Record(w) => RecordInv(s, w);
    case Decide(w) => DecideInv(s, w);
    case Wait(w, cut) => WaitInv(s, w, cut);
    case FireHook(w) => FireHookInv(s, w);
    case _ =>
      var t := Apply(s, a);
      assert t.disp == s.disp && t.guard == s.guard && t.stages == s.stages;
      FrontStep(s, t.front, t.hist, t.counters);
  }

  lemma {:induction false} StepsInv(s: State, acts: seq<Action>, t: State)
    requires Inv(s) && Steps(s, acts, t)
    ensures Inv(t)
    decreases |acts|
  {
    if acts != [] {
      StepInv(s, acts[0]);
      StepsInv(Apply(s, acts[0]), acts[1..], t);
    }
  }

  // ------------------------------------------------------ the observable log

  predicate IsSuccess(entry: Entry, event: string) {
    entry.Tried? && entry.ok && entry.event == event
  }

  /** Some handler call for the event succeeded, according to the log of its run. */
  ghost predicate Succeeded(log: seq<Entry>, event: string) {
    exists i :: 0 <= i < |log| && IsSuccess(log[i], event)
  }

  /** No event succeeds twice in the log of one run. */
  ghost predicate SucceedsOnce(log: seq<Entry>) {
    forall event, i, j | 0 <= i < |log| && 0 <= j < |log| && IsSuccess(log[i], event) &&
      IsSuccess(log[j], event) :: i == j
  }

  /** The successes in the log are the guard's commits, each under its own run. */
  ghost predicate LogOk(log: map<string, seq<Entry>>, commits: seq<string>) {
    && (forall run, event :: Succeeded(At(log, run), event) ==> event in commits && RunOf(event) == run)
    && (forall event :: event in commits ==> Succeeded(At(log, RunOf(event)), event))
    && (forall run :: SucceedsOnce(At(log, run)))
  }

  lemma SucceededPush(log: seq<Entry>, entry: Entry, event: string)
    ensures Succeeded(log + [entry], event) <==> Succeeded(log, event) || IsSuccess(entry, event)
  {
    if Succeeded(log, event) {
      var i :| 0 <= i < |log| && IsSuccess(log[i], event);
      assert (log + [entry])[i] == log[i];
    }
    if IsSuccess(entry, event) {
      assert (log + [entry])[|log|] == entry;
    }
  }

  lemma SucceedsOncePush(log: seq<Entry>, entry: Entry)
    requires SucceedsOnce(log) && (entry.Tried? && entry.ok ==> !Succeeded(log, entry.event))
    ensures SucceedsOnce(log + [entry])
  {
  }

  /** The commits after an entry is logged. */
  function CommitsAfter(commits: seq<string>, entry: Entry): seq<string> {
    if entry.Tried? && entry.ok then commits + [entry.event] else commits
  }

  lemma LogPushSound(log: map<string, seq<Entry>>, commits: seq<string>, run: string, entry: Entry, r: string,
                     event: string)
    requires LogOk(log, commits)
    requires entry.Tried? && entry.ok ==> RunOf(entry.event) == run
    requires Succeeded(At(Push(log, run, entry), r), event)
    ensures event in CommitsAfter(commits, entry) && RunOf(event) == r
  {
    LogSound(log, commits, r, event);
    hide LogOk, RunOf;
    SucceededPush(At(log, run), entry, event);
    hide Succeeded;
    assert At(Push(log, run, entry), r) == if r == run then At(log, run) + [entry] else At(log, r);
  }

  lemma LogSound(log: map<string, seq<Entry>>, commits: seq<string>, run: string, event: string)
    requires LogOk(log, commits)
    ensures Succeeded(At(log, run), event) ==> event in commits && RunOf(event) == run
  {
    hide Succeeded, RunOf, SucceedsOnce;
  }

  lemma LogPushComplete(log: map<string, seq<Entry>>, commits: seq<string>, run: string, entry: Entry, event: string)
    requires LogOk(log, commits) && (entry.Tried? && entry.ok ==> RunOf(entry.event) == run)
    requires event in CommitsAfter(commits, entry)
    ensures Succeeded(At(Push(log, run, entry), RunOf(event)), event)
  {
    assert event in commits ==> Succeeded(At(log, RunOf(event)), event);
    hide LogOk, RunOf;
    SucceededPush(At(log, run), entry, event);
    hide Succeeded;
  }

  lemma LogPushOnce(log: map<string, seq<Entry>>, commits: seq<string>, run: string, entry: Entry, r: string)
    requires LogOk(log, commits) && (entry.Tried? && entry.ok ==> entry.event !in commits)
    ensures SucceedsOnce(At(Push(log, run, entry), r))
  {
    assert SucceedsOnce(At(log, r));
    if r == run {
      assert entry.Tried? && entry.ok ==> !Succeeded(At(log, run), entry.event);
      hide LogOk, SucceedsOnce, Succeeded;
      SucceedsOncePush(At(log, run), entry);
    }
  }

  lemma LogPush(log: map<string, seq<Entry>>, commits: seq<string>, run: string, entry: Entry)
    requires LogOk(log, commits)
    requires entry.Tried? && entry.ok ==> RunOf(entry.event) == run && entry.event !in commits
    ensures LogOk(Push(log, run, entry), CommitsAfter(commits, entry))
  {
    var log', commits' := Push(log, run, entry), CommitsAfter(commits, entry);
    hide SucceedsOnce, Succeeded, RunOf, Push, At;
    forall r, event | Succeeded(At(log', r), event) ensures event in commits' && RunOf(event) == r {
      LogPushSound(log, commits, run, entry, r, event);
    }
    forall event | event in commits' ensures Succeeded(At(log', RunOf(event)), event) {
      LogPushComplete(log, commits, run, entry, event);
    }
    forall r ensures SucceedsOnce(At(log', r)) {
      LogPushOnce(log, commits, run, entry, r);
    }
  }

  lemma CallHandlerLog(s: State, w: nat, ok: bool)
    requires Enabled(s, CallHandler(w, ok)) && G.Inv(s.guard) && LogOk(s.hist.log, s.guard.commits)
    requires s.guard.threads[w].event == TaskOf(s.disp, w).env.eventId
    requires RunOf(TaskOf(s.disp, w).env.eventId) == TaskOf(s.disp, w).env.runId
    ensures LogOk(Apply(s, CallHandler(w, ok)).hist.log, Apply(s, CallHandler(w, ok)).guard.commits)
  {
    hide LogOk;
    var env := TaskOf(s.disp, w).env;
    LogPush(s.hist.log, s.guard.commits, env.runId, Tried(env.eventId, s.stages[w].attempt, ok));
  }

  lemma DecideLog(s: State, w: nat)
    requires LogOk(s.hist.log, s.guard.commits) && Enabled(s, Decide(w))
    ensures var t := DoDecide(s, w); LogOk(t.hist.log, t.guard.commits)
  {
    hide LogOk;
    var env := TaskOf(s.disp, w).env;
    LogPush(s.hist.log, s.guard.commits, env.runId, Dead(env.eventId, s.stages[w].attempt));
  }

  lemma StepLog(s: State, a: Action)
    requires Inv(s) && LogOk(s.hist.log, s.guard.commits) && Enabled(s, a)
    ensures LogOk(Apply(s, a).hist.log, Apply(s, a).guard.commits)
  {
    hide D.Inv, TasksValid, Linked, G.Inv, FrontValid, LogOk;
    match a
    case CallHandler(w, ok) =>
      DeliveryRun(s.disp, s.guard, w);
      CallHandlerLog(s, w, ok);
    case Decide(w) => DecideLog(s, w);
    case _ =>
      var t := Apply(s, a);
      assert t.hist.log == s.hist.log && t.guard.commits == s.guard.commits;
  }

  lemma {:induction false} StepsLog(s: State, acts: seq<Action>, t: State)
    requires Inv(s) && LogOk(s.hist.log, s.guard.commits) && Steps(s, acts, t)
    ensures Inv(t) && LogOk(t.hist.log, t.guard.commits)
    decreases |acts|
  {
    hide Inv, LogOk;
    if acts != [] {
      StepInv(s, acts[0]);
      StepLog(s, acts[0]);
      StepsLog(Apply(s, acts[0]), acts[1..], t);
    }
  }

  /** In every run of the bus, whatever interleaving, duplicates, failures, retries,
      cancellations and further Consume loops it contains, the handler succeeds at most
      once for an event: two successes recorded anywhere are the same call. */
  lemma AtMostOneSuccessPerEvent(maxAttempts: int, queueSize: int, acts: seq<Action>, s: State, event: string,
                                 run1: string, i: nat, run2: string, j: nat)
    requires Steps(Init(maxAttempts, queueSize), acts, s)
    requires i < |At(s.hist.log, run1)| && IsSuccess(At(s.hist.log, run1)[i], event)
    requires j < |At(s.hist.log, run2)| && IsSuccess(At(s.hist.log, run2)[j], event)
    ensures run1 == run2 && i == j
  {
    hide Inv, LogOk;
    InitInv(maxAttempts, queueSize);
    InitLog(maxAttempts, queueSize);
    StepsLog(Init(maxAttempts, queueSize), acts, s);
    SuccessIsUnique(s.hist.log, s.guard.commits, event, run1, i, run2, j);
  }

  lemma SuccessIsUnique(log: map<string, seq<Entry>>, commits: seq<string>, event: string, run1: string, i: nat,
                        run2: string, j: nat)
    requires LogOk(log, commits)
    requires i < |At(log, run1)| && IsSuccess(At(log, run1)[i], event)
    requires j < |At(log, run2)| && IsSuccess(At(log, run2)[j], event)
    ensures run1 == run2 && i == j
  {
    assert Succeeded(At(log, run1), event) && Succeeded(At(log, run2), event);
    assert run1 == RunOf(event) == run2;
    assert SucceedsOnce(At(log, run1));
  }

  lemma InitLog(maxAttempts: int, queueSize: int)
    ensures var s := Init(maxAttempts, queueSize); LogOk(s.hist.log, s.guard.commits)
  {
  }

  /** A delivery that found its event done: the ack of a duplicate is under way. */
  ghost predicate FoundDone(s: State, w: nat) {
    w in s.stages && (s.stages[w].DupHook? || s.stages[w].DupAck?)
  }

  /** Whatever was found done is in the seen set. */
  ghost predicate FoundOk(s: State) {
    forall w :: FoundDone(s, w) ==> w in s.guard.threads && s.guard.threads[w].event in s.guard.seen
  }

  lemma StepFound(s: State, a: Action)
    requires Inv(s) && FoundOk(s) && Enabled(s, a)
    ensures FoundOk(Apply(s, a))
  {
    hide Serial, FrontValid, D.TrySend, D.Take, D.Complete, D.Apply, D.Enabled, Log;
    forall w | FoundDone(Apply(s, a), w)
      ensures w in Apply(s, a).guard.threads && Apply(s, a).guard.threads[w].event in Apply(s, a).guard.seen
    {
      if FoundDone(s, w) {
        FoundStays(s, a, w);
      }
    }
  }

  lemma FoundStays(s: State, a: Action, w: nat)
    requires Inv(s) && FoundOk(s) && Enabled(s, a) && FoundDone(s, w) && FoundDone(Apply(s, a), w)
    ensures w in Apply(s, a).guard.threads && Apply(s, a).guard.threads[w].event in Apply(s, a).guard.seen
  {
    hide Serial, FrontValid, D.TrySend, D.Take, D.Complete, D.Apply, D.Enabled, Log;
  }

  lemma {:induction false} StepsFound(s: State, acts: seq<Action>, t: State)
    requires Inv(s) && FoundOk(s) && Steps(s, acts, t)
    ensures FoundOk(t)
    decreases |acts|
  {
    hide Inv, FoundOk;
    if acts != [] {
      StepInv(s, acts[0]);
      StepFound(s, acts[0]);
      StepsFound(Apply(s, acts[0]), acts[1..], t);
    }
  }

  /** Acked as a duplicate means already succeeded: a delivery about to be acked without
      a handler call, and every event in the seen set, has a successful call of that event
      in the log of its run. */
  lemma DuplicatesWereHandled(maxAttempts: int, queueSize: int, acts: seq<Action>, s: State)
    requires Steps(Init(maxAttempts, queueSize), acts, s)
    ensures forall w :: FoundDone(s, w) ==>
      && Busy(s.disp, w)
      && Succeeded(At(s.hist.log, TaskOf(s.disp, w).env.runId), TaskOf(s.disp, w).env.eventId)
    ensures forall event :: event in s.guard.seen ==> Succeeded(At(s.hist.log, RunOf(event)), event)
    ensures G.NoDuplicates(s.guard.commits)
  {
    hide Inv, LogOk, Succeeded, Steps;
    InitInv(maxAttempts, queueSize);
    InitLog(maxAttempts, queueSize);
    StepsLog(Init(maxAttempts, queueSize), acts, s);
    StepsFound(Init(maxAttempts, queueSize), acts, s);
    SeenSucceeded(s);
    forall w | FoundDone(s, w)
      ensures Busy(s.disp, w)
      ensures Succeeded(At(s.hist.log, TaskOf(s.disp, w).env.runId), TaskOf(s.disp, w).env.eventId)
    {
      FoundSucceeded(s, w);
    }
  }

  lemma SeenSucceeded(s: State)
    requires Inv(s) && LogOk(s.hist.log, s.guard.commits)
    ensures forall event :: event in s.guard.seen ==> Succeeded(At(s.hist.log, RunOf(event)), event)
    ensures G.NoDuplicates(s.guard.commits)
  {
    hide D.Inv, TasksValid, Linked, StagesOk, FrontValid, Succeeded, RunOf, SucceedsOnce;
  }

  lemma FoundSucceeded(s: State, w: nat)
    requires Inv(s) && LogOk(s.hist.log, s.guard.commits) && FoundOk(s) && FoundDone(s, w)
    ensures Busy(s.disp, w)
    ensures Succeeded(At(s.hist.log, TaskOf(s.disp, w).env.runId), TaskOf(s.disp, w).env.eventId)
  {
    SeenSucceeded(s);
    hide LogOk, Succeeded, RunOf, Linked, D.Inv, TasksValid, G.Inv, StagesOk, FrontValid;
    DeliveryRun(s.disp, s.guard, w);
  }
}
