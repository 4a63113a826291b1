// What holds in every run of the dispatcher: serial and ordered handling per runId,
// no stranded task, no leaked worker, and draining once producers cease.

module DispatcherRuns {
  import opened Sums
  import opened Dispatcher

  lemma {:induction false} StepsInv(s: State, acts: seq<Action>, t: State)
    requires Inv(s) && Steps(s, acts, t)
    ensures Inv(t)
    decreases |acts|
  {
    if acts != [] {
      StepInv(s, acts[0]);
      StepsInv(Apply(s, acts[0]), acts[1..], t);
    }
  }

  /** Worker w is inside a handler call for the run. */
  ghost predicate Handles(s: State, w: nat, run: string) {
    w in s.workers && s.workers[w].run == run && s.workers[w].pc.Running?
  }

  /** Task t of the run is being handled right now. */
  ghost predicate Handling(s: State, run: string, t: Task) {
    exists w :: Handles(s, w, run) && s.workers[w].pc.task == t
  }

  /** The tasks of the run that some worker is inside of: none, or the single one. */
  ghost function RunningOf(s: State, run: string): seq<Task> {
    if exists t :: Handling(s, run, t) then
      var t :| Handling(s, run, t);
      [t]
    else []
  }

  function QueuedOf(s: State, run: string): seq<Task> {
    if run in s.queues then QueueAt(s, s.queues[run]).tasks else []
  }

  lemma RunningOfOwner(s: State, w: nat)
    requires Inv(s) && w in s.workers
    ensures RunningOf(s, s.workers[w].run) == InFlight(s.workers[w].pc)
  {
    var run := s.workers[w].run;
    if s.workers[w].pc.Running? {
      assert Handles(s, w, run);
      assert Handling(s, run, s.workers[w].pc.task);
    }
  }

  lemma RunningOfIdle(s: State, run: string)
    requires Inv(s) && run !in s.queues
    ensures RunningOf(s, run) == []
  {
    forall w | w in s.workers ensures s.workers[w].run != run {
      assert WorkerOk(s, w);
    }
  }

  /** At most one worker is ever inside a handler call of one run.  Until stop, what a
      run was given is what it finished, then the task in progress, then its queue, in
      that order; after stop the finished part and the task in progress are still an
      initial stretch of what was given. */
  lemma SerialAndInOrder(queueSize: int, acts: seq<Action>, s: State, run: string)
    requires Steps(Init(queueSize), acts, s)
    ensures forall v, w :: Handles(s, v, run) && Handles(s, w, run) ==> v == w
    ensures !s.stopped ==>
      At(s.accepted, run) == At(s.completed, run) + RunningOf(s, run) + QueuedOf(s, run)
    ensures At(s.completed, run) + RunningOf(s, run) <= At(s.accepted, run)
  {
    InitInv(queueSize);
    StepsInv(Init(queueSize), acts, s);
    if run in s.queues {
      var w := Owner(s, run);
      RunningOfOwner(s, w);
    } else {
      assert IdleOk(s, run);
      RunningOfIdle(s, run);
    }
  }

  /** A mapped queue has exactly one owner, every worker owns a mapped queue, a worker
      about to receive has something to receive, and no queue outgrows its bound. */
  lemma NothingStranded(queueSize: int, acts: seq<Action>, s: State)
    requires Steps(Init(queueSize), acts, s)
    ensures forall run :: run in s.queues ==>
      exists w :: w in s.workers && s.workers[w].run == run && s.workers[w].queue == s.queues[run]
    ensures forall v, w :: v in s.workers && w in s.workers && s.workers[v].queue == s.workers[w].queue ==> v == w
    ensures forall w :: w in s.workers ==>
      && s.workers[w].run in s.queues && s.queues[s.workers[w].run] == s.workers[w].queue
      && |QueueAt(s, s.workers[w].queue).tasks| <= s.queueSize
      && (s.workers[w].pc == Receive ==> QueueAt(s, s.workers[w].queue).tasks != [])
  {
    InitInv(queueSize);
    StepsInv(Init(queueSize), acts, s);
    forall run | run in s.queues
      ensures exists w :: w in s.workers && s.workers[w].run == run && s.workers[w].queue == s.queues[run]
    {
      var w := Owner(s, run);
      assert w in s.workers;
    }
    forall w | w in s.workers ensures WorkerOk(s, w) {
    }
  }

  // ---------------------------------------------------------------- draining

  predicate IsWorkerAction(a: Action) {
    !a.DoDispatch? && !a.DoStop? && !a.DoCloseDone?
  }

  function QueueWeight(q: Queue): nat {
    5 * |q.tasks|
  }

  function WorkerWeight(k: Worker): nat {
    match k.pc
    case Running(_) => 5
    case Check => 4
    case Retire => 3
    case Receive => 2
    case Release => 1
  }

  /** Work left: five per queued task, and the distance of each worker from its end. */
  ghost function Work(s: State): nat {
    Sum(s.heap, QueueWeight) + Sum(s.workers, WorkerWeight)
  }

  lemma WorkAfterGoto(s: State, w: nat, pc: Pc)
    requires w in s.workers
    ensures Work(Goto(s, w, pc)) == Work(s) - WorkerWeight(s.workers[w]) + WorkerWeight(s.workers[w].(pc := pc))
  {
    SumWrite(s.workers, WorkerWeight, w, s.workers[w].(pc := pc));
  }

  lemma WorkAfterTake(s: State, w: nat)
    requires Inv(s) && Enabled(s, DoTake(w))
    ensures Work(Take(s, w)) < Work(s)
  {
    assert WorkerOk(s, w);
    var q := s.workers[w].queue;
    SumWrite(s.heap, QueueWeight, q, s.heap[q].(tasks := s.heap[q].tasks[1..]));
    SumWrite(s.workers, WorkerWeight, w, s.workers[w].(pc := Running(s.heap[q].tasks[0])));
  }

  lemma WorkAfterDrop(s: State, w: nat)
    requires Inv(s) && w in s.workers
    ensures Work(Drop(s, w)) < Work(s)
  {
    assert WorkerOk(s, w);
    var q := s.workers[w].queue;
    SumWrite(s.heap, QueueWeight, q, s.heap[q].(active := false));
    SumSplit(s.workers, WorkerWeight, w);
  }

  lemma WorkAfterComplete(s: State, w: nat)
    requires Enabled(s, DoComplete(w))
    ensures Work(Complete(s, w)) < Work(s)
  {
    WorkAfterGoto(s.(completed := Push(s.completed, s.workers[w].run, s.workers[w].pc.task)), w, Check);
  }

  lemma WorkAfterLook(s: State, w: nat)
    requires Enabled(s, DoLook(w))
    ensures Work(Look(s, w)) < Work(s)
  {
    WorkAfterGoto(s, w, if QueueAt(s, s.workers[w].queue).tasks == [] then Retire else Receive);
  }

  lemma WorkAfterRetire(s: State, w: nat)
    requires Inv(s) && Enabled(s, DoRetire(w))
    ensures Work(RetireIfEmpty(s, w)) < Work(s)
  {
    WorkAfterGoto(s, w, Receive);
    WorkAfterDrop(s, w);
  }

  lemma WorkerStepDecreasesWork(s: State, a: Action)
    requires Inv(s) && IsWorkerAction(a) && Enabled(s, a)
    ensures Work(Apply(s, a)) < Work(s)
  {
    hide Inv, Work, Take, Complete, Look, Drop, RetireIfEmpty, TrySend;
    match a
    case DoTake(w) => WorkAfterTake(s, w);
    case DoSeeDone(w) => WorkAfterGoto(s, w, Release);
    case DoComplete(w) => WorkAfterComplete(s, w);
    case DoLook(w) => WorkAfterLook(s, w);
    case DoRetire(w) => WorkAfterRetire(s, w);
    case DoRelease(w) => WorkAfterDrop(s, w);
  }

  /** A worker that exists can always move: its receive never blocks, and a handler
      call is taken to return. */
  lemma SomeWorkerCanMove(s: State)
    requires Inv(s) && s.workers != map[]
    ensures exists a :: IsWorkerAction(a) && Enabled(s, a)
  {
    var w :| w in s.workers;
    assert WorkerOk(s, w);
    var a := match s.workers[w].pc
      case Receive => DoTake(w)
      case Running(_) => DoComplete(w)
      case Check => DoLook(w)
      case Retire => DoRetire(w)
      case Release => DoRelease(w);
    assert IsWorkerAction(a) && Enabled(s, a);
  }

  lemma NoWorkersNoQueues(s: State)
    requires Inv(s) && s.workers == map[]
    ensures s.queues == map[]
    ensures !s.stopped ==> forall run :: At(s.completed, run) == At(s.accepted, run)
  {
    forall run ensures run !in s.queues {
      assert run in s.queues ==> Owned(s, run);
    }
    forall run ensures IdleOk(s, run) {
    }
  }

  lemma {:induction false} WorkBoundsSteps(s: State, acts: seq<Action>, t: State)
    requires Inv(s) && Steps(s, acts, t)
    requires forall i :: 0 <= i < |acts| ==> IsWorkerAction(acts[i])
    ensures |acts| + Work(t) <= Work(s)
    decreases |acts|
  {
    if acts != [] {
      WorkerStepDecreasesWork(s, acts[0]);
      StepInv(s, acts[0]);
      WorkBoundsSteps(Apply(s, acts[0]), acts[1..], t);
    }
  }

  /** Once producers cease, the workers stop by themselves: they make at most Work(s)
      further steps, and when none of them can move every worker is gone, no queue is
      mapped and, unless stop was called, every accepted task has been completed. */
  lemma Drains(queueSize: int, before: seq<Action>, s: State, acts: seq<Action>, t: State)
    requires Steps(Init(queueSize), before, s)
    requires Steps(s, acts, t) && forall i :: 0 <= i < |acts| ==> IsWorkerAction(acts[i])
    ensures |acts| <= Work(s)
    ensures (forall a :: IsWorkerAction(a) ==> !Enabled(t, a)) <==> t.workers == map[]
    ensures t.workers == map[] ==> t.queues == map[]
    ensures t.workers == map[] && !t.stopped ==> forall run :: At(t.completed, run) == At(t.accepted, run)
  {
    assert Inv(t) && |acts| + Work(t) <= Work(s) by {
      InitInv(queueSize);
      StepsInv(Init(queueSize), before, s);
      StepsInv(s, acts, t);
      WorkBoundsSteps(s, acts, t);
    }
    if t.workers == map[] {
      NoWorkersNoQueues(t);
      NoWorkersNoSteps(t);
    } else {
      SomeWorkerCanMove(t);
    }
  }

  lemma NoWorkersNoSteps(s: State)
    requires s.workers == map[]
    ensures forall a :: IsWorkerAction(a) ==> !Enabled(s, a)
  {
  }
}
