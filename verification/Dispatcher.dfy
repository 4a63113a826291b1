// The per-run serial dispatcher as a transition system.
//
// Every region that the source runs under its mutex is one step, and so is every
// channel receive and every return of a task.  Producers and workers interleave
// freely: a run of the system is any sequence of enabled steps.

module Dispatcher {
  import opened Identity
  import opened Sums

  /** One delivery: an envelope, the transport's own id for it (the stream position;
      none in memory) and the consumer-side attempt. */
  datatype Task = Task(env: Envelope, entry: Option<nat>, attempt: nat)

  /** The mailbox of one runId.  active says whether a worker owns it. */
  datatype Queue = Queue(tasks: seq<Task>, active: bool)

  /** Where a worker goroutine stands in its loop.  Receive covers a worker that was
      spawned and has not been scheduled yet. */
  datatype Pc = Receive | Running(task: Task) | Check | Retire | Release

  datatype Worker = Worker(run: string, queue: nat, pc: Pc)

  /** queues maps a runId to the identity of its queue object; heap holds every queue
      object ever made, mapped or not.  accepted and completed are histories. */
  datatype State = State(
    queueSize: nat,
    heap: map<nat, Queue>,
    queues: map<string, nat>,
    workers: map<nat, Worker>,
    stopped: bool,
    done: bool,
    accepted: map<string, seq<Task>>,
    completed: map<string, seq<Task>>)

  const DEFAULT_QUEUE_SIZE: nat := 256

  function Init(queueSize: int): State {
    State(if queueSize <= 0 then DEFAULT_QUEUE_SIZE else queueSize, map[], map[], map[], false, false, map[], map[])
  }

  function QueueAt(s: State, q: nat): Queue {
    if q in s.heap then s.heap[q] else Queue([], false)
  }

  // ------------------------------------------------------------------- steps

  datatype Outcome = Closed | Sent | Full

  function MakeQueue(s: State, run: string, q: nat): State {
    if run in s.queues then s
    else s.(heap := s.heap[q := Queue([], false)], queues := s.queues[run := q])
  }

  /** Gives an idle queue to a new worker w. */
  function Own(s: State, run: string, w: nat): State
    requires run in s.queues
  {
    var id := s.queues[run];
    if QueueAt(s, id).active then s
    else s.(heap := s.heap[id := Queue(QueueAt(s, id).tasks, true)],
      workers := s.workers[w := Worker(run, id, Receive)])
  }

  /** The non-blocking send on the run's channel. */
  function Send(s: State, task: Task): (State, Outcome)
    requires task.env.runId in s.queues
  {
    var id := s.queues[task.env.runId];
    var queue := QueueAt(s, id);
    if |queue.tasks| < s.queueSize then
      (s.(heap := s.heap[id := queue.(tasks := queue.tasks + [task])],
          accepted := Push(s.accepted, task.env.runId, task)), Sent)
    else (s, Full)
  }

  /** The locked region of dispatch: find or make the run's queue, own it with a new
      worker w when nobody does, and try to send.  q names a queue made here. */
  function TrySend(s: State, task: Task, q: nat, w: nat): (State, Outcome) {
    if s.stopped then (s, Closed)
    else Send(Own(MakeQueue(s, task.env.runId, q), task.env.runId, w), task)
  }

  lemma WriteAgain<K, V>(m: map<K, V>, k: K, first: V, second: V)
    ensures m[k := first][k := second] == m[k := second]
  {
  }

  lemma SendExactly(s: State, task: Task, w: nat)
    requires task.env.runId in s.queues && s.queues[task.env.runId] in s.heap
    ensures var (t, outcome) := Send(Own(s, task.env.runId, w), task);
      var run := task.env.runId;
      var id := s.queues[run];
      var waiting := s.heap[id].tasks;
      && outcome == (if |waiting| < s.queueSize then Sent else Full)
      && t.queues == s.queues
      && t.heap == s.heap[id := Queue(if outcome == Sent then waiting + [task] else waiting, true)]
      && t.workers == (if s.heap[id].active then s.workers else s.workers[w := Worker(run, id, Receive)])
      && t.accepted == (if outcome == Sent then Push(s.accepted, run, task) else s.accepted)
      && t.completed == s.completed && t.queueSize == s.queueSize && t.stopped == s.stopped && t.done == s.done
  {
    hide Push;
    var id := s.queues[task.env.runId];
    var waiting := s.heap[id].tasks;
    assert s.heap == s.heap[id := s.heap[id]];
    assert s.heap[id := Queue(waiting, true)][id := Queue(waiting + [task], true)]
        == s.heap[id := Queue(waiting + [task], true)];
  }

  /** Where a dispatched task goes: nowhere after stop; else to the end of its run's queue,
      made if the run has none, unless that already holds as many tasks as it may; either
      way the queue has an owner afterwards, the new worker w if it had none. */
  lemma TrySendExactly(s: State, task: Task, q: nat, w: nat)
    requires forall run :: run in s.queues ==> s.queues[run] in s.heap
    requires q !in s.heap
    ensures s.stopped ==> TrySend(s, task, q, w) == (s, Closed)
    ensures !s.stopped ==>
      var (t, outcome) := TrySend(s, task, q, w);
      var run := task.env.runId;
      var id := if run in s.queues then s.queues[run] else q;
      var waiting := if run in s.queues then s.heap[id].tasks else [];
      var owned := run in s.queues && s.heap[id].active;
      && outcome == (if |waiting| < s.queueSize then Sent else Full)
      && t.queues == s.queues[run := id]
      && t.heap == s.heap[id := Queue(if outcome == Sent then waiting + [task] else waiting, true)]
      && t.workers == (if owned then s.workers else s.workers[w := Worker(run, id, Receive)])
      && t.accepted == (if outcome == Sent then Push(s.accepted, run, task) else s.accepted)
      && t.completed == s.completed && t.queueSize == s.queueSize && t.stopped == s.stopped && t.done == s.done
  {
    hide Push;
    if !s.stopped {
      var run := task.env.runId;
      var m := MakeQueue(s, run, q);
      SendExactly(m, task, w);
      hide Send, Own;
      if run !in s.queues {
        WriteAgain(s.heap, q, Queue([], false), Queue([] + [task], true));
        WriteAgain(s.heap, q, Queue([], false), Queue([], true));
      } else {
        assert s.queues == s.queues[run := s.queues[run]];
      }
    }
  }

  /** A configured queue size that is positive is kept; one that is not means 256. */
  lemma InitExactly(queueSize: int)
    ensures var s := Init(queueSize);
      && s.queueSize == (if queueSize > 0 then queueSize else 256)
      && s.queues == map[] && s.heap == map[] && s.workers == map[] && !s.stopped && !s.done
      && s.accepted == map[] && s.completed == map[]
  {
  }

  function Goto(s: State, w: nat, pc: Pc): State
    requires w in s.workers
  {
    s.(workers := s.workers[w := s.workers[w].(pc := pc)])
  }

  /** The worker takes the head of its queue and starts running it. */
  function Take(s: State, w: nat): State
    requires w in s.workers && QueueAt(s, s.workers[w].queue).tasks != []
  {
    var q := s.workers[w].queue;
    var queue := QueueAt(s, q);
    Goto(s.(heap := s.heap[q := queue.(tasks := queue.tasks[1..])]), w, Running(queue.tasks[0]))
  }

  /** The task's run returned. */
  function Complete(s: State, w: nat): State
    requires w in s.workers && s.workers[w].pc.Running?
  {
    Goto(s.(completed := Push(s.completed, s.workers[w].run, s.workers[w].pc.task)), w, Check)
  }

  /** The unlocked length test after a task. */
  function Look(s: State, w: nat): State
    requires w in s.workers
  {
    Goto(s, w, if QueueAt(s, s.workers[w].queue).tasks == [] then Retire else Receive)
  }

  /** Unmap the queue if the run still maps to it, mark it idle, and end the worker. */
  function Drop(s: State, w: nat): State
    requires w in s.workers
  {
    var run, q := s.workers[w].run, s.workers[w].queue;
    s.(queues := if run in s.queues && s.queues[run] == q then s.queues - {run} else s.queues,
       heap := s.heap[q := QueueAt(s, q).(active := false)],
       workers := s.workers - {w})
  }

  function RetireIfEmpty(s: State, w: nat): State
    requires w in s.workers
  {
    if QueueAt(s, s.workers[w].queue).tasks != [] && !s.stopped then Goto(s, w, Receive) else Drop(s, w)
  }

  datatype Action =
    | DoDispatch(task: Task, q: nat, w: nat)
    | DoTake(w: nat)
    | DoSeeDone(w: nat)
    | DoComplete(w: nat)
    | DoLook(w: nat)
    | DoRetire(w: nat)
    | DoRelease(w: nat)
    | DoStop
    | DoCloseDone

  ghost predicate AtPc(s: State, w: nat, pc: Pc) {
    w in s.workers && s.workers[w].pc == pc
  }

  ghost predicate Enabled(s: State, a: Action) {
    match a
    case DoDispatch(task, q, w) => q !in s.heap && w !in s.workers
    case DoTake(w) => AtPc(s, w, Receive) && QueueAt(s, s.workers[w].queue).tasks != []
    case DoSeeDone(w) => AtPc(s, w, Receive) && s.done
    case DoComplete(w) => w in s.workers && s.workers[w].pc.Running?
    case DoLook(w) => AtPc(s, w, Check)
    case DoRetire(w) => AtPc(s, w, Retire)
    case DoRelease(w) => AtPc(s, w, Release)
    case DoStop => true
    case DoCloseDone => s.stopped
  }

  function Apply(s: State, a: Action): State
    requires Enabled(s, a)
  {
    match a
    case DoDispatch(task, q, w) => TrySend(s, task, q, w).0
    case DoTake(w) => Take(s, w)
    case DoSeeDone(w) => Goto(s, w, Release)
    case DoComplete(w) => Complete(s, w)
    case DoLook(w) => Look(s, w)
    case DoRetire(w) => RetireIfEmpty(s, w)
    case DoRelease(w) => Drop(s, w)
    case DoStop => s.(stopped := true)
    case DoCloseDone => s.(done := true)
  }

  /** acts is a possible run from s, ending in t. */
  ghost predicate Steps(s: State, acts: seq<Action>, t: State)
    decreases |acts|
  {
    if acts == [] then s == t
    else Enabled(s, acts[0]) && Steps(Apply(s, acts[0]), acts[1..], t)
  }

  // --------------------------------------------------------------- invariant

  function InFlight(pc: Pc): seq<Task> {
    if pc.Running? then [pc.task] else []
  }

  ghost predicate AllOfRun(tasks: seq<Task>, run: string) {
    forall i :: 0 <= i < |tasks| ==> tasks[i].env.runId == run
  }

  /** A worker owns the queue its run maps to, has work whenever it is about to
      receive, and accounts for every task accepted for its run. */
  ghost predicate WorkerOk(s: State, w: nat)
    requires w in s.workers
  {
    var k := s.workers[w];
    && k.run in s.queues && s.queues[k.run] == k.queue
    && k.queue in s.heap && s.heap[k.queue].active
    && |s.heap[k.queue].tasks| <= s.queueSize
    && AllOfRun(s.heap[k.queue].tasks, k.run)
    && (k.pc.Receive? ==> s.heap[k.queue].tasks != [])
    && (k.pc.Running? ==> k.pc.task.env.runId == k.run)
    && (k.pc.Release? ==> s.stopped)
    && At(s.accepted, k.run) == At(s.completed, k.run) + InFlight(k.pc) + s.heap[k.queue].tasks
  }

  /** A run without a queue has nothing outstanding, unless stop dropped it. */
  ghost predicate IdleOk(s: State, run: string) {
    && At(s.completed, run) <= At(s.accepted, run)
    && (!s.stopped ==> At(s.completed, run) == At(s.accepted, run))
  }

  ghost predicate Owned(s: State, run: string) {
    exists w :: w in s.workers && s.workers[w].run == run
  }

  ghost predicate WorkersOk(s: State) {
    forall w :: w in s.workers ==> WorkerOk(s, w)
  }

  /** No two workers serve the same run, or the same queue. */
  ghost predicate Exclusive(s: State) {
    forall v, w :: v in s.workers && w in s.workers && v != w ==>
      s.workers[v].run != s.workers[w].run && s.workers[v].queue != s.workers[w].queue
  }

  ghost predicate AllOwned(s: State) {
    forall run :: run in s.queues ==> Owned(s, run)
  }

  ghost predicate AllIdleOk(s: State) {
    forall run :: run !in s.queues ==> IdleOk(s, run)
  }

  ghost predicate Inv(s: State) {
    && s.queueSize > 0
    && (s.done ==> s.stopped)
    && WorkersOk(s)
    && Exclusive(s)
    && AllOwned(s)
    && AllIdleOk(s)
  }

  lemma InitInv(queueSize: int)
    ensures Inv(Init(queueSize))
  {
  }

  ghost function Owner(s: State, run: string): (w: nat)
    requires Inv(s) && run in s.queues
    ensures w in s.workers && s.workers[w].run == run && WorkerOk(s, w)
  {
    assert Owned(s, run);
    var w :| w in s.workers && s.workers[w].run == run;
    assert WorkerOk(s, w);
    w
  }

  /** The states agree on everything but worker w, its queue and its run's history. */
  ghost predicate SameBut(s: State, t: State, w: nat) {
    && w in s.workers && w in t.workers
    && t.workers.Keys == s.workers.Keys && t.queues == s.queues
    && t.queueSize == s.queueSize && t.stopped == s.stopped && t.done == s.done
    && t.workers[w].run == s.workers[w].run && t.workers[w].queue == s.workers[w].queue
    && (forall v :: v in s.workers && v != w ==> t.workers[v] == s.workers[v])
    && (forall q :: q in s.heap && q != s.workers[w].queue ==> q in t.heap && t.heap[q] == s.heap[q])
    && (forall r :: r != s.workers[w].run ==>
       At(t.accepted, r) == At(s.accepted, r) && At(t.completed, r) == At(s.completed, r))
  }

  lemma OtherWorkerKept(s: State, t: State, w: nat, v: nat)
    requires WorkersOk(s) && Exclusive(s) && SameBut(s, t, w)
    requires v in s.workers && v != w
    ensures WorkerOk(t, v)
  {
    assert WorkerOk(s, v);
  }

  lemma OwnersKept(s: State, t: State, w: nat)
    requires AllOwned(s) && SameBut(s, t, w)
    ensures AllOwned(t)
  {
    forall r | r in t.queues ensures Owned(t, r) {
      assert Owned(s, r);
      var v :| v in s.workers && s.workers[v].run == r;
      assert v in t.workers && t.workers[v].run == r;
    }
  }

  lemma ExclusiveKept(s: State, t: State, w: nat)
    requires Exclusive(s) && SameBut(s, t, w)
    ensures Exclusive(t)
  {
    forall v | v in t.workers ensures t.workers[v].run == s.workers[v].run && t.workers[v].queue == s.workers[v].queue {
    }
  }

  lemma IdlesKept(s: State, t: State, w: nat)
    requires WorkersOk(s) && AllIdleOk(s) && SameBut(s, t, w)
    ensures AllIdleOk(t)
  {
    assert WorkerOk(s, w);
    forall r | r !in t.queues ensures IdleOk(t, r) {
      assert IdleOk(s, r);
    }
  }

  /** A step of one worker keeps the invariant if that worker comes out right. */
  lemma LocalStep(s: State, t: State, w: nat)
    requires Inv(s) && SameBut(s, t, w) && WorkerOk(t, w)
    ensures Inv(t)
  {
    assert WorkersOk(t) by {
      forall v | v in t.workers ensures WorkerOk(t, v) {
        if v != w {
          OtherWorkerKept(s, t, w, v);
        }
      }
    }
    ExclusiveKept(s, t, w);
    OwnersKept(s, t, w);
    IdlesKept(s, t, w);
  }

  lemma TakeInv(s: State, w: nat)
    requires Inv(s) && Enabled(s, DoTake(w))
    ensures Inv(Take(s, w))
  {
    assert WorkerOk(s, w);
    TakeWorker(s, w);
    LocalStep(s, Take(s, w), w);
  }

  lemma TakeWorker(s: State, w: nat)
    requires w in s.workers && WorkerOk(s, w) && Enabled(s, DoTake(w))
    ensures WorkerOk(Take(s, w), w) && SameBut(s, Take(s, w), w)
  {
    var k := s.workers[w];
    var tasks := s.heap[k.queue].tasks;
    assert [tasks[0]] + tasks[1..] == tasks;
    assert At(s.completed, k.run) + [] + tasks == At(s.completed, k.run) + [tasks[0]] + tasks[1..];
  }

  lemma CompleteInv(s: State, w: nat)
    requires Inv(s) && Enabled(s, DoComplete(w))
    ensures Inv(Complete(s, w))
  {
    assert WorkerOk(s, w);
    CompleteWorker(s, w);
    LocalStep(s, Complete(s, w), w);
  }

  lemma CompleteWorker(s: State, w: nat)
    requires w in s.workers && WorkerOk(s, w) && Enabled(s, DoComplete(w))
    ensures WorkerOk(Complete(s, w), w) && SameBut(s, Complete(s, w), w)
  {
    var k := s.workers[w];
    assert At(s.completed, k.run) + [k.pc.task] + [] == At(s.completed, k.run) + [k.pc.task];
  }

  lemma GotoInv(s: State, w: nat, pc: Pc)
    requires Inv(s) && w in s.workers && !s.workers[w].pc.Running? && !pc.Running?
    requires pc.Receive? ==> QueueAt(s, s.workers[w].queue).tasks != []
    requires pc.Release? ==> s.stopped
    ensures Inv(Goto(s, w, pc))
  {
    assert WorkerOk(s, w);
    assert WorkerOk(Goto(s, w, pc), w);
    LocalStep(s, Goto(s, w, pc), w);
  }

  lemma DropInv(s: State, w: nat)
    requires Inv(s) && w in s.workers && !s.workers[w].pc.Running?
    requires s.stopped || QueueAt(s, s.workers[w].queue).tasks == []
    ensures Inv(Drop(s, w))
  {
    var t := Drop(s, w);
    assert WorkerOk(s, w);
    assert t.queues == s.queues - {s.workers[w].run};
    forall v | v in t.workers ensures WorkerOk(t, v) {
      RemainingOk(s, w, v);
    }
    forall r | r in t.queues ensures Owned(t, r) {
      assert Owner(s, r) in t.workers;
    }
    forall r | r !in t.queues ensures IdleOk(t, r) {
      if r == s.workers[w].run {
        RetiredOk(s, w);
      } else {
        assert IdleOk(s, r);
      }
    }
  }

  lemma RemainingOk(s: State, w: nat, v: nat)
    requires WorkersOk(s) && Exclusive(s) && w in s.workers && v in s.workers && v != w
    ensures WorkerOk(Drop(s, w), v)
  {
    assert WorkerOk(s, v);
  }

  lemma RetiredOk(s: State, w: nat)
    requires w in s.workers && WorkerOk(s, w) && !s.workers[w].pc.Running?
    requires s.stopped || QueueAt(s, s.workers[w].queue).tasks == []
    ensures IdleOk(Drop(s, w), s.workers[w].run)
  {
    var k := s.workers[w];
    assert At(s.completed, k.run) + [] == At(s.completed, k.run);
  }

  /** Whoever dispatches for a run nobody owns gets room for its own task: the queue
      is then new.  So spawning and failing to send never happen together, and a send
      is refused only by a full queue or by stop. */
  lemma SpawnAlwaysSends(s: State, task: Task, q: nat, w: nat)
    requires Inv(s) && Enabled(s, DoDispatch(task, q, w))
    ensures TrySend(s, task, q, w).0.workers != s.workers ==>
      TrySend(s, task, q, w).1 == Sent && task.env.runId !in s.queues
    ensures TrySend(s, task, q, w).1 == Full <==>
      !s.stopped && task.env.runId in s.queues && |QueueAt(s, s.queues[task.env.runId]).tasks| == s.queueSize
    ensures TrySend(s, task, q, w).1 == Closed <==> s.stopped
  {
    if task.env.runId in s.queues {
      var v := Owner(s, task.env.runId);
    }
  }

  lemma JoinInv(s: State, task: Task, q: nat, w: nat)
    requires Inv(s) && Enabled(s, DoDispatch(task, q, w))
    requires task.env.runId in s.queues
    ensures Inv(TrySend(s, task, q, w).0)
  {
    var v := Owner(s, task.env.runId);
    if !s.stopped {
      JoinWorker(s, task, q, w, v);
      LocalStep(s, TrySend(s, task, q, w).0, v);
    }
  }

  lemma JoinWorker(s: State, task: Task, q: nat, w: nat, v: nat)
    requires v in s.workers && s.workers[v].run == task.env.runId && WorkerOk(s, v) && !s.stopped
    ensures var t := TrySend(s, task, q, w).0; SameBut(s, t, v) && WorkerOk(t, v)
  {
    var k := s.workers[v];
    var queue := s.heap[k.queue];
    if |queue.tasks| < s.queueSize {
      assert TrySend(s, task, q, w).0 == s.(
        heap := s.heap[k.queue := Queue(queue.tasks + [task], true)],
        accepted := Push(s.accepted, k.run, task));
      assert At(s.completed, k.run) + InFlight(k.pc) + queue.tasks + [task]
          == At(s.completed, k.run) + InFlight(k.pc) + (queue.tasks + [task]);
    } else {
      assert TrySend(s, task, q, w).0 == s;
    }
  }

  lemma SpawnInv(s: State, task: Task, q: nat, w: nat)
    requires Inv(s) && Enabled(s, DoDispatch(task, q, w))
    requires task.env.runId !in s.queues && !s.stopped
    ensures Inv(TrySend(s, task, q, w).0)
  {
    SpawnShape(s, task, q, w);
    SpawnWorkers(s, task, q, w);
    SpawnRuns(s, task, q, w);
  }

  lemma SpawnWorkers(s: State, task: Task, q: nat, w: nat)
    requires Inv(s) && Enabled(s, DoDispatch(task, q, w))
    requires task.env.runId !in s.queues && !s.stopped
    ensures WorkersOk(Spawned(s, task, q, w)) && Exclusive(Spawned(s, task, q, w))
  {
    var t := Spawned(s, task, q, w);
    forall v | v in t.workers ensures WorkerOk(t, v) {
      if v != w {
        BystanderOk(s, task, q, w, v);
      } else {
        NewcomerOk(s, task, q, w);
      }
    }
    forall v | v in s.workers ensures s.workers[v].run != task.env.runId && s.workers[v].queue != q {
      assert WorkerOk(s, v);
    }
  }

  lemma NewcomerOk(s: State, task: Task, q: nat, w: nat)
    requires IdleOk(s, task.env.runId) && s.queueSize > 0 && !s.stopped
    ensures WorkerOk(Spawned(s, task, q, w), w)
  {
    assert At(s.completed, task.env.runId) + [] + [task] == At(s.completed, task.env.runId) + [task];
  }

  lemma BystanderOk(s: State, task: Task, q: nat, w: nat, v: nat)
    requires v in s.workers && v != w && q !in s.heap && task.env.runId !in s.queues
    requires WorkerOk(s, v)
    ensures WorkerOk(Spawned(s, task, q, w), v)
  {
    assert s.workers[v].run != task.env.runId;
  }

  lemma SpawnRuns(s: State, task: Task, q: nat, w: nat)
    requires Inv(s) && Enabled(s, DoDispatch(task, q, w))
    ensures AllOwned(Spawned(s, task, q, w)) && AllIdleOk(Spawned(s, task, q, w))
  {
    var t := Spawned(s, task, q, w);
    forall r | r in t.queues ensures Owned(t, r) {
      if r == task.env.runId {
        assert t.workers[w].run == r;
      } else {
        var v := Owner(s, r);
        assert t.workers[v].run == r;
      }
    }
    forall r | r !in t.queues ensures IdleOk(t, r) {
      assert IdleOk(s, r);
    }
  }

  /** The state after a dispatch that found no queue for the run. */
  function Spawned(s: State, task: Task, q: nat, w: nat): State {
    s.(heap := s.heap[q := Queue([task], true)],
       queues := s.queues[task.env.runId := q],
       workers := s.workers[w := Worker(task.env.runId, q, Receive)],
       accepted := Push(s.accepted, task.env.runId, task))
  }

  lemma SpawnShape(s: State, task: Task, q: nat, w: nat)
    requires task.env.runId !in s.queues && !s.stopped && s.queueSize > 0
    ensures TrySend(s, task, q, w) == (Spawned(s, task, q, w), Sent)
  {
    var none: seq<Task> := [];
    assert none + [task] == [task];
    var made := MakeQueue(s, task.env.runId, q);
    assert Own(made, task.env.runId, w).heap == s.heap[q := Queue(none, true)];
    assert s.heap[q := Queue(none, true)][q := Queue([task], true)] == s.heap[q := Queue([task], true)];
  }

  lemma FlagsInv(s: State, stopped: bool, done: bool)
    requires Inv(s) && (s.stopped ==> stopped) && (done ==> stopped)
    ensures Inv(s.(stopped := stopped, done := done))
  {
    var t := s.(stopped := stopped, done := done);
    forall v | v in t.workers ensures WorkerOk(t, v) {
      assert WorkerOk(s, v);
    }
    forall r | r in t.queues ensures Owned(t, r) {
      assert Owned(s, r);
    }
    forall r | r !in t.queues ensures IdleOk(t, r) {
      assert IdleOk(s, r);
    }
  }

  /** Every step keeps the invariant. */
  lemma StepInv(s: State, a: Action)
    requires Inv(s) && Enabled(s, a)
    ensures Inv(Apply(s, a))
  {
    match a
    case DoDispatch(task, q, w) =>
      if task.env.runId in s.queues {
        JoinInv(s, task, q, w);
      } else if !s.stopped {
        SpawnInv(s, task, q, w);
      }
    case DoTake(w) => TakeInv(s, w);
    case DoSeeDone(w) => GotoInv(s, w, Release);
    case DoComplete(w) => CompleteInv(s, w);
    case DoLook(w) =>
      GotoInv(s, w, if QueueAt(s, s.workers[w].queue).tasks == [] then Retire else Receive);
    case DoRetire(w) =>
      if QueueAt(s, s.workers[w].queue).tasks != [] && !s.stopped {
        GotoInv(s, w, Receive);
      } else {
        DropInv(s, w);
      }
    case DoRelease(w) =>
      assert WorkerOk(s, w);
      DropInv(s, w);
    case DoStop => FlagsInv(s, true, s.done);
    case DoCloseDone => FlagsInv(s, s.stopped, true);
  }
}
