// The bus works off what was published: left alone it takes boundedly many steps, and it
// stops exactly when nothing is pending, in the pump's hand or with a worker.

module MemoryDrain {
  import opened Sums
  import D = Dispatcher
  import DR = DispatcherRuns
  import G = Dedupe
  import opened SerialGuard
  import opened MemoryModel
  import opened MemorySafety
  import opened MemoryTrace
  import opened MemoryRuns

  /** Steps of the pump, the workers and the hooks.  A send to a full queue does no work. */
  predicate Works(s: State, a: Action) {
    match a
    case Pop => true
    case PumpSend(q, w) => s.front.pump.Holding? && D.TrySend(s.disp, Delivery(s.front.pump.env), q, w).1.Sent?
    case DispatcherMove(m) => DR.IsWorkerAction(m)
    case Take(_) => true
    case Return(_) => true
    case FindDone(_) => true
    case CallHandler(_, _) => true
    case Record(_) => true
    case Decide(_) => true
    case Wait(_, cut) => !cut
    case FireHook(_) => true
    case _ => false
  }

  // ------------------------------------------------------------------ a measure

  function Left(n: nat, max: nat): nat {
    if n < max then 5 * (max - n) else 0
  }

  function StageWeight(stage: Stage, max: nat): nat {
    match stage
    case Lookup => 5 * max + 11
    case Invoke(n) => Left(n, max) + 10
    case FailHook(n) => Left(n, max) + 9
    case Judge(n) => Left(n, max) + 8
    case RetryHook(n) => Left(n, max) + 7
    case Delay(n) => Left(n, max) + 6
    case OkHook(_) => 5
    case DeadHook => 5
    case Mark(_) => 4
    case DupHook => 4
    case AckHook(_) => 3
    case DupAck => 3
    case Over => 1
  }

  function Weigh(max: nat): Stage -> nat {
    (stage: Stage) => StageWeight(stage, max)
  }

  /** What one unit of the dispatcher's work may cost in deliveries. */
  function Unit(s: State): nat {
    5 * s.maxAttempts + 12
  }

  function PumpWeight(s: State): nat {
    7 * Unit(s) * |s.front.pending| + 2 * |s.front.pending| + if s.front.pump.Holding? then 7 * Unit(s) + 1 else 0
  }

  ghost function BusWork(s: State): nat {
    Unit(s) * DR.Work(s.disp) + Sum(s.stages, Weigh(s.maxAttempts)) + PumpWeight(s)
  }

  // ------------------------------------------------- every working step reduces it

  /** A send adds at most one task and one worker. */
  lemma SendWork(d: D.State, task: D.Task, q: nat, w: nat)
    requires q !in d.heap && w !in d.workers
    ensures DR.Work(D.TrySend(d, task, q, w).0) <= DR.Work(d) + 7
  {
    if !d.stopped {
      var run := task.env.runId;
      var made := D.MakeQueue(d, run, q);
      MakeWork(d, run, q);
      var owned := D.Own(made, run, w);
      OwnWork(made, run, w);
      var id := owned.queues[run];
      var queue := D.QueueAt(owned, id);
      SumWrite(owned.heap, DR.QueueWeight, id, queue.(tasks := queue.tasks + [task]));
      hide D.MakeQueue, D.Own;
    }
  }

  lemma MakeWork(d: D.State, run: string, q: nat)
    requires q !in d.heap
    ensures DR.Work(D.MakeQueue(d, run, q)) == DR.Work(d)
  {
    SumWrite(d.heap, DR.QueueWeight, q, D.Queue([], false));
    assert d.heap - {q} == d.heap;
  }

  lemma OwnWork(d: D.State, run: string, w: nat)
    requires run in d.queues && w !in d.workers
    ensures DR.Work(D.Own(d, run, w)) <= DR.Work(d) + 2
  {
    var id := d.queues[run];
    SumWrite(d.heap, DR.QueueWeight, id, D.Queue(D.QueueAt(d, id).tasks, true));
    SumWrite(d.workers, DR.WorkerWeight, w, D.Worker(run, id, D.Receive));
    assert d.workers - {w} == d.workers;
  }

  /** A change of stage that weighs less. */
  lemma LighterStage(s: State, t: State, w: nat, stage: Stage)
    requires w in s.stages && t.stages == s.stages[w := stage]
    requires StageWeight(stage, s.maxAttempts) < StageWeight(s.stages[w], s.maxAttempts)
    requires t.disp == s.disp && t.front == s.front && t.maxAttempts == s.maxAttempts
    ensures BusWork(t) < BusWork(s)
  {
    SumWrite(s.stages, Weigh(s.maxAttempts), w, stage);
    assert PumpWeight(t) == PumpWeight(s) && Unit(t) == Unit(s);
    hide Sum, DR.Work, PumpWeight, StageWeight, Unit;
  }

  /** An uninterrupted delivery in its pause has budget left. */
  lemma PauseHasBudget(s: State, w: nat)
    requires Good(s) && !s.front.interrupted && OnStage(s, w) && s.stages[w].Delay?
    ensures s.stages[w].attempt < s.maxAttempts
  {
    assert WorkerTrace(s, w) by {
      hide Inv, LogOk, OrderOk, LettersOk, WorkerTrace, QuietTraces, FlagsOk;
    }
    hide Good, MidTrace;
    var run := s.disp.workers[w].run;
    DelayBudget(At(s.disp.completed, run), At(s.hist.log, run), TaskOf(s.disp, w).env.eventId, s.stages[w],
      s.maxAttempts);
  }

  lemma DelayBudget(deliveries: seq<D.Task>, log: seq<Entry>, event: string, stage: Stage, max: nat)
    requires MidTrace(deliveries, log, event, stage, max) && stage.Delay?
    ensures stage.attempt < max
  {
    hide Explains, Succeeded, Fails;
  }

  predicate IsInside(a: Action) {
    a.FindDone? || a.CallHandler? || a.Record? || a.Decide? || a.Wait? || a.FireHook?
  }

  lemma InsideFalls(s: State, a: Action)
    requires Enabled(s, a) && IsInside(a) && Works(s, a) && !s.front.cancelled
    requires s.maxAttempts >= 1 && (a.Wait? ==> s.stages[a.w].attempt < s.maxAttempts)
    ensures BusWork(Apply(s, a)) < BusWork(s)
  {
    hide BusWork, G.Check, G.Commit, G.Mark, G.GiveUp, Log, D.Enabled, D.Apply, D.TrySend, D.Take;
    var t := Apply(s, a);
    assert t.stages == s.stages[a.w := t.stages[a.w]];
    LighterStage(s, t, a.w, t.stages[a.w]);
  }

  /** Less work for the dispatcher pays for less than one unit in the deliveries. */
  lemma DispatcherLighter(s: State, t: State)
    requires t.front == s.front && t.maxAttempts == s.maxAttempts && DR.Work(t.disp) < DR.Work(s.disp)
    requires Sum(t.stages, Weigh(s.maxAttempts)) < Sum(s.stages, Weigh(s.maxAttempts)) + Unit(s)
    ensures BusWork(t) < BusWork(s)
  {
    assert PumpWeight(t) == PumpWeight(s) && Unit(t) == Unit(s);
    hide Sum, DR.Work, PumpWeight, Unit;
    Times(Unit(s), DR.Work(t.disp), DR.Work(s.disp));
  }

  lemma TakeFalls(s: State, w: nat)
    requires Enabled(s, Take(w)) && D.Inv(s.disp) && w !in s.stages
    ensures BusWork(Apply(s, Take(w))) < BusWork(s)
  {
    var t := Apply(s, Take(w));
    hide *;
    TakeShape(s, w);
    LookupWithinUnit(s);
    DR.WorkAfterTake(s.disp, w);
    SumWrite(s.stages, Weigh(s.maxAttempts), w, Lookup);
    assert s.stages - {w} == s.stages;
    DispatcherLighter(s, t);
  }

  lemma LookupWithinUnit(s: State)
    ensures Weigh(s.maxAttempts)(Lookup) < Unit(s)
  {
  }

  lemma TakeShape(s: State, w: nat)
    requires Enabled(s, Take(w))
    ensures D.Enabled(s.disp, D.DoTake(w)) && Apply(s, Take(w)).disp == D.Take(s.disp, w)
    ensures Apply(s, Take(w)).stages == s.stages[w := Lookup]
    ensures Apply(s, Take(w)).front == s.front && Apply(s, Take(w)).maxAttempts == s.maxAttempts
  {
    hide D.Take, G.Begin, TaskOf;
  }

  lemma ReturnFalls(s: State, w: nat)
    requires Enabled(s, Return(w))
    ensures BusWork(Apply(s, Return(w))) < BusWork(s)
  {
    var t := DoReturn(s, w);
    hide Sum, DR.Work, D.Complete, G.End, BusWork;
    DR.WorkAfterComplete(s.disp, w);
    SumSplit(s.stages, Weigh(s.maxAttempts), w);
    DispatcherLighter(s, t);
  }

  lemma MoveFalls(s: State, m: D.Action)
    requires Enabled(s, DispatcherMove(m)) && D.Inv(s.disp) && DR.IsWorkerAction(m)
    ensures BusWork(Apply(s, DispatcherMove(m))) < BusWork(s)
  {
    hide Sum, DR.Work, D.Apply, D.Enabled, D.Inv, IsMove, BusWork;
    DR.WorkerStepDecreasesWork(s.disp, m);
    DispatcherLighter(s, Apply(s, DispatcherMove(m)));
  }

  lemma PopFalls(s: State)
    requires Enabled(s, Pop)
    ensures BusWork(Apply(s, Pop)) < BusWork(s)
  {
    var t := Apply(s, Pop);
    var n := |t.front.pending|;
    assert 7 * Unit(s) * (n + 1) == 7 * Unit(s) * n + 7 * Unit(s);
    hide Sum, DR.Work;
  }

  lemma PumpSendFalls(s: State, q: nat, w: nat)
    requires Enabled(s, PumpSend(q, w)) && Works(s, PumpSend(q, w))
    ensures BusWork(Apply(s, PumpSend(q, w))) < BusWork(s)
  {
    var t := Apply(s, PumpSend(q, w));
    SendWork(s.disp, Delivery(s.front.pump.env), q, w);
    TimesUpTo(Unit(s), DR.Work(t.disp), DR.Work(s.disp), 7);
    hide Sum, DR.Work, D.TrySend;
  }

  /** Every working step of an uninterrupted bus makes its work smaller and interrupts
      nothing. */
  lemma WorkFalls(s: State, a: Action)
    requires Enabled(s, a) && Works(s, a) && Good(s) && !s.front.interrupted
    ensures BusWork(Apply(s, a)) < BusWork(s)
    ensures !Apply(s, a).front.interrupted && Apply(s, a).front.running == s.front.running
  {
    GoodFacts(s);
    if a.Wait? {
      PauseHasBudget(s, a.w);
    }
    if a.Take? {
      TakeIsNew(s, a.w);
    }
    hide Good, BusWork, D.Inv;
    WorkKeepsFlags(s, a);
    hide Apply, Enabled;
    if IsInside(a) {
      InsideFalls(s, a);
    } else {
      match a
      case Pop => PopFalls(s);
      case PumpSend(q, w) => PumpSendFalls(s, q, w);
      case DispatcherMove(m) => MoveFalls(s, m);
      case Take(w) => TakeFalls(s, w);
      case Return(w) => ReturnFalls(s, w);
    }
  }

  lemma WorkKeepsFlags(s: State, a: Action)
    requires Enabled(s, a) && Works(s, a)
    ensures Apply(s, a).front.interrupted == s.front.interrupted && Apply(s, a).front.running == s.front.running
  {
    hide D.Apply, D.TrySend, D.Enabled, D.Take, D.Complete, G.Check, G.Commit, G.Mark, G.GiveUp, G.Begin, G.End, Log;
  }

  lemma TakeIsNew(s: State, w: nat)
    requires Good(s) && Enabled(s, Take(w))
    ensures w !in s.stages
  {
    hide LogOk, TraceOk, OrderOk, LettersOk, FrontValid, D.Inv, G.Inv, TasksValid;
    assert !Busy(s.disp, w);
  }

  lemma GoodFacts(s: State)
    requires Good(s) && !s.front.interrupted
    ensures D.Inv(s.disp) && s.maxAttempts >= 1 && !s.front.cancelled && !s.front.closed
    ensures !s.disp.stopped && !s.disp.done && !s.front.pump.Exited?
    ensures s.front.running <==> !s.front.pump.Idle?
    ensures s.stages.Keys == s.guard.threads.Keys
    ensures forall w :: Busy(s.disp, w) <==> w in s.guard.threads
    ensures forall w :: w in s.stages ==> s.guard.threads[w].phase == PhaseOf(s.stages[w])
  {
    hide LogOk, OrderOk, LettersOk, WorkerTraces, QuietTraces, D.Inv, G.Inv, TasksValid;
  }

  lemma FullSendKeeps(d: D.State, task: D.Task, q: nat, w: nat)
    requires D.Inv(d) && !d.stopped && D.TrySend(d, task, q, w).1.Full?
    ensures D.TrySend(d, task, q, w).0 == d
  {
    var run := task.env.runId;
    if run in d.queues {
      var owner := D.Owner(d, run);
      assert D.WorkerOk(d, owner);
    } else {
      D.SpawnShape(d, task, q, w);
    }
  }

  /** The one pump step left out of the working steps, a send to a full queue, changes
      nothing: the pump tries again. */
  lemma FullSendChangesNothing(s: State, q: nat, w: nat)
    requires Good(s) && !s.front.interrupted && Enabled(s, PumpSend(q, w)) && !Works(s, PumpSend(q, w))
    ensures Apply(s, PumpSend(q, w)) == s
  {
    hide Good, D.Inv, D.TrySend;
    GoodFacts(s);
    var task := Delivery(s.front.pump.env);
    SendAccepts(s.disp, task, q, w);
    FullSendKeeps(s.disp, task, q, w);
  }

  // ------------------------------------------------------ until nothing is left

  /** Nothing pending, nothing in the pump's hand, nothing with a worker. */
  predicate Drained(s: State) {
    s.front.pending == [] && !s.front.pump.Holding? && s.disp.workers == map[]
  }

  lemma WorkerCanWork(s: State, w: nat) returns (a: Action)
    requires Good(s) && !s.front.interrupted && w in s.disp.workers
    ensures Enabled(s, a) && Works(s, a)
  {
    GoodFacts(s);
    hide Good, Enabled, Works, D.WorkerOk;
    if Busy(s.disp, w) {
      hide D.Inv;
      a := DeliveryCanWork(s, w);
    } else {
      assert D.WorkerOk(s.disp, w);
      hide D.Inv;
      a := LoopCanWork(s, w);
    }
  }

  lemma LoopCanWork(s: State, w: nat) returns (a: Action)
    requires w in s.disp.workers && D.WorkerOk(s.disp, w) && !s.disp.stopped && !Busy(s.disp, w)
    ensures Enabled(s, a) && Works(s, a)
  {
    match s.disp.workers[w].pc
    case Receive => a := Take(w);
    case Check => a := DispatcherMove(D.DoLook(w));
    case Retire => a := DispatcherMove(D.DoRetire(w));
  }

  lemma DeliveryCanWork(s: State, w: nat) returns (a: Action)
    requires OnStage(s, w)
    ensures Enabled(s, a) && Works(s, a)
  {
    match s.stages[w]
    case Lookup => a := FindDone(w);
    case Invoke(_) => a := CallHandler(w, true);
    case Mark(_) => a := Record(w);
    case Judge(_) => a := Decide(w);
    case Delay(_) => a := Wait(w, false);
    case Over => a := Return(w);
    case _ => a := FireHook(w);
  }

  lemma IdleSends(d: D.State, task: D.Task, q: nat, w: nat)
    requires D.Inv(d) && d.workers == map[] && !d.stopped && q !in d.heap
    ensures D.TrySend(d, task, q, w).1.Sent?
  {
    DR.NoWorkersNoQueues(d);
  }

  /** A running, uninterrupted bus that is not drained can take a working step. */
  lemma SomeWorkPossible(s: State) returns (a: Action)
    requires Good(s) && !s.front.interrupted && s.front.running && !Drained(s)
    ensures Enabled(s, a) && Works(s, a)
  {
    hide Good, D.Inv, Enabled, Works;
    if w: nat :| w in s.disp.workers {
      a := WorkerCanWork(s, w);
    } else {
      assert s.disp.workers == map[];
      a := PumpCanWork(s);
    }
  }

  lemma PumpCanWork(s: State) returns (a: Action)
    requires Good(s) && !s.front.interrupted && s.front.running && !Drained(s) && s.disp.workers == map[]
    ensures Enabled(s, a) && Works(s, a)
  {
    GoodFacts(s);
    hide Good, D.Inv, D.TrySend;
    if s.front.pump.Holding? {
      var q := Above(s.disp.heap);
      IdleSends(s.disp, Delivery(s.front.pump.env), q, 0);
      a := PumpSend(q, 0);
    } else {
      a := Pop;
    }
  }

  lemma DrainedRests(s: State, a: Action)
    requires Drained(s) && Enabled(s, a)
    ensures !Works(s, a)
  {
  }

  /** acts are working steps from s to t. */
  ghost predicate WorkSteps(s: State, acts: seq<Action>, t: State)
    decreases |acts|
  {
    if acts == [] then s == t
    else Enabled(s, acts[0]) && Works(s, acts[0]) && WorkSteps(Apply(s, acts[0]), acts[1..], t)
  }

  lemma {:induction false} WorkStepsBounded(s: State, acts: seq<Action>, t: State)
    requires Good(s) && !s.front.interrupted && WorkSteps(s, acts, t)
    ensures Good(t) && !t.front.interrupted && t.front.running == s.front.running && t.maxAttempts == s.maxAttempts
    ensures |acts| + BusWork(t) <= BusWork(s)
    decreases |acts|
  {
    hide Good, BusWork, Enabled, Apply, Works;
    if acts != [] {
      StepGood(s, acts[0]);
      StepSettings(s, acts[0]);
      WorkFalls(s, acts[0]);
      WorkStepsBounded(Apply(s, acts[0]), acts[1..], t);
    }
  }

  /** While a Consume loop runs uninterrupted and nothing more is published, the bus takes
      at most BusWork further steps; it can take no more exactly when it is drained, and
      then the log of every run explains all its published deliveries. */
  lemma BusDrains(maxAttempts: int, queueSize: int, before: seq<Action>, s: State, acts: seq<Action>, t: State)
    requires Steps(Init(maxAttempts, queueSize), before, s) && !s.front.interrupted && s.front.running
    requires WorkSteps(s, acts, t)
    ensures |acts| <= BusWork(s)
    ensures (forall a :: Enabled(t, a) ==> !Works(t, a)) <==> Drained(t)
    ensures Drained(t) ==> t.disp.queues == map[]
    ensures Drained(t) ==>
      forall run :: Explains(At(t.hist.published, run), At(t.hist.log, run), t.maxAttempts)
    ensures 1 <= maxAttempts <= 32 ==> t.maxAttempts == maxAttempts
  {
    InitGood(maxAttempts, queueSize);
    StepsGood(Init(maxAttempts, queueSize), before, s);
    ConfiguredBudget(maxAttempts, queueSize, before, s);
    WorkStepsBounded(s, acts, t);
    hide Good, BusWork, Explains, Steps, WorkSteps;
    if Drained(t) {
      DrainedFacts(t);
      forall a | Enabled(t, a) ensures !Works(t, a) {
        DrainedRests(t, a);
      }
    } else {
      var a := SomeWorkPossible(t);
    }
  }

  lemma DrainedFacts(s: State)
    requires Good(s) && !s.front.interrupted && Drained(s)
    ensures s.disp.queues == map[]
    ensures forall run :: Explains(At(s.hist.published, run), At(s.hist.log, run), s.maxAttempts)
  {
    GoodFacts(s);
    hide Good, Explains, D.Inv;
    DR.NoWorkersNoQueues(s.disp);
    forall run ensures Explains(At(s.hist.published, run), At(s.hist.log, run), s.maxAttempts) {
      DrainedState(s, run);
    }
  }
}
