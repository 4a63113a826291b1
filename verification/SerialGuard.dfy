// The dispatcher and the duplicate guard together: what both transports rest on.
//
// Every worker inside a task has one delivery in the guard, under the event of its
// task.  Since an accepted eventId determines its run and a run has one worker, the
// guard's exclusion precondition always holds.

module SerialGuard {
  import opened Identity
  import opened Sums
  import D = Dispatcher
  import G = Dedupe

  predicate Busy(d: D.State, w: nat) {
    w in d.workers && d.workers[w].pc.Running?
  }

  function TaskOf(d: D.State, w: nat): D.Task
    requires Busy(d, w)
  {
    d.workers[w].pc.task
  }

  ghost predicate ValidTask(task: D.Task, run: string) {
    ValidIdentity(task.env) && task.env.runId == run
  }

  /** Everything the dispatcher ever accepted carries a valid identity. */
  ghost predicate TasksValid(d: D.State) {
    forall run, i :: 0 <= i < |At(d.accepted, run)| ==> ValidTask(At(d.accepted, run)[i], run)
  }

  /** The guard's deliveries are the tasks being run. */
  ghost predicate Linked(d: D.State, g: G.Guard) {
    && (forall w :: Busy(d, w) <==> w in g.threads)
    && (forall w :: Busy(d, w) && w in g.threads ==> g.threads[w].event == TaskOf(d, w).env.eventId)
  }

  ghost predicate Serial(d: D.State, g: G.Guard) {
    D.Inv(d) && TasksValid(d) && Linked(d, g) && G.Inv(g)
  }

  lemma InitSerial(queueSize: int)
    ensures Serial(D.Init(queueSize), G.FRESH)
  {
    D.InitInv(queueSize);
    G.FreshInv();
  }

  /** A fresh dispatcher may replace one whose workers are gone; the guard stays. */
  lemma RestartSerial(d: D.State, g: G.Guard, queueSize: int)
    requires Serial(d, g) && d.workers == map[]
    ensures Serial(D.Init(queueSize), g)
  {
    D.InitInv(queueSize);
    forall w ensures !Busy(d, w) && w !in g.threads {
    }
  }

  /** The task a worker runs was accepted for the worker's run. */
  lemma RunningTaskValid(d: D.State, w: nat)
    requires D.Inv(d) && TasksValid(d) && Busy(d, w)
    ensures ValidTask(TaskOf(d, w), d.workers[w].run)
  {
    assert D.WorkerOk(d, w);
    var run := d.workers[w].run;
    var i := |At(d.completed, run)|;
    assert At(d.accepted, run)[i] == TaskOf(d, w);
  }

  /** Two running workers never run the same event. */
  lemma RunningEventsDiffer(d: D.State, v: nat, w: nat)
    requires D.Inv(d) && TasksValid(d) && Busy(d, v) && Busy(d, w) && v != w
    ensures TaskOf(d, v).env.eventId != TaskOf(d, w).env.eventId
  {
    RunningTaskValid(d, v);
    RunningTaskValid(d, w);
    ValidEventIdDeterminesRun(TaskOf(d, v).env);
    ValidEventIdDeterminesRun(TaskOf(d, w).env);
  }

  /** The deliveries under way are untouched. */
  ghost predicate SameBusy(d: D.State, e: D.State) {
    forall w :: (Busy(d, w) <==> Busy(e, w)) && (Busy(d, w) ==> e.workers[w] == d.workers[w])
  }

  lemma SameAccepted(d: D.State, e: D.State)
    requires TasksValid(d) && e.accepted == d.accepted
    ensures TasksValid(e)
  {
  }

  /** Dispatcher steps that leave every delivery where it is. */
  predicate IsMove(a: D.Action) {
    a.DoSeeDone? || a.DoLook? || a.DoRetire? || a.DoRelease? || a.DoStop? || a.DoCloseDone?
  }

  lemma MoveKeepsBusy(d: D.State, a: D.Action)
    requires D.Enabled(d, a) && IsMove(a)
    ensures SameBusy(d, D.Apply(d, a)) && D.Apply(d, a).accepted == d.accepted && D.Apply(d, a).completed == d.completed
  {
  }

  lemma MoveSerial(d: D.State, g: G.Guard, a: D.Action)
    requires Serial(d, g) && D.Enabled(d, a) && IsMove(a)
    ensures Serial(D.Apply(d, a), g)
  {
    hide D.Inv, TasksValid, G.Inv, D.Apply, D.Enabled, IsMove;
    D.StepInv(d, a);
    MoveKeepsBusy(d, a);
    SameAccepted(d, D.Apply(d, a));
  }

  lemma SendKeepsBusy(d: D.State, task: D.Task, q: nat, w: nat)
    requires w !in d.workers
    ensures SameBusy(d, D.TrySend(d, task, q, w).0)
  {
  }

  lemma SendAccepts(d: D.State, task: D.Task, q: nat, w: nat)
    ensures var (e, outcome) := D.TrySend(d, task, q, w);
      && e.completed == d.completed
      && e.accepted == (if outcome.Sent? then Push(d.accepted, task.env.runId, task) else d.accepted)
      && e.stopped == d.stopped && e.done == d.done && (outcome.Closed? <==> d.stopped)
  {
    var made := D.MakeQueue(d, task.env.runId, q);
    assert made.completed == d.completed && made.accepted == d.accepted && made.stopped == d.stopped &&
      made.done == d.done;
    var owned := D.Own(made, task.env.runId, w);
    assert owned.completed == d.completed && owned.accepted == d.accepted && owned.stopped == d.stopped &&
      owned.done == d.done;
    hide D.MakeQueue, D.Own;
  }

  lemma PushValid(d: D.State, e: D.State, task: D.Task)
    requires TasksValid(d) && ValidTask(task, task.env.runId)
    requires e.accepted == d.accepted || e.accepted == Push(d.accepted, task.env.runId, task)
    ensures TasksValid(e)
  {
    forall run, i | 0 <= i < |At(e.accepted, run)| ensures ValidTask(At(e.accepted, run)[i], run) {
      if i < |At(d.accepted, run)| {
        assert ValidTask(At(d.accepted, run)[i], run);
      }
    }
  }

  lemma SendSerial(d: D.State, g: G.Guard, task: D.Task, q: nat, w: nat)
    requires Serial(d, g) && D.Enabled(d, D.DoDispatch(task, q, w)) && ValidIdentity(task.env)
    ensures Serial(D.TrySend(d, task, q, w).0, g)
  {
    hide D.Inv, TasksValid, G.Inv, D.TrySend, ValidIdentity;
    D.StepInv(d, D.DoDispatch(task, q, w));
    SendKeepsBusy(d, task, q, w);
    SendAccepts(d, task, q, w);
    PushValid(d, D.TrySend(d, task, q, w).0, task);
  }

  /** A worker takes a task and its delivery begins. */
  lemma TakeSerial(d: D.State, g: G.Guard, w: nat)
    requires Serial(d, g) && D.Enabled(d, D.DoTake(w))
    ensures Busy(D.Take(d, w), w) && w !in g.threads
    ensures Serial(D.Take(d, w), G.Begin(g, w, TaskOf(D.Take(d, w), w).env.eventId))
  {
    hide D.Inv, TasksValid, G.Inv;
    var e := D.Take(d, w);
    D.StepInv(d, D.DoTake(w));
    SameAccepted(d, e);
    forall v | v in g.threads ensures g.threads[v].event != TaskOf(e, w).env.eventId {
      assert Busy(d, v);
      RunningEventsDiffer(e, v, w);
    }
    G.BeginInv(g, w, TaskOf(e, w).env.eventId);
  }

  /** A delivery that is settled ends and its task completes. */
  lemma CompleteSerial(d: D.State, g: G.Guard, w: nat)
    requires Serial(d, g) && Busy(d, w) && G.InPhase(g, w, G.Settled)
    ensures Serial(D.Complete(d, w), G.End(g, w))
  {
    hide D.Inv, TasksValid, G.Inv;
    D.StepInv(d, D.DoComplete(w));
    SameAccepted(d, D.Complete(d, w));
    G.EndInv(g, w);
  }

  /** A change of phase of deliveries under way. */
  lemma PhaseSerial(d: D.State, g: G.Guard, h: G.Guard)
    requires Serial(d, g) && G.Inv(h) && h.threads.Keys == g.threads.Keys
    requires forall w :: w in g.threads ==> h.threads[w].event == g.threads[w].event
    ensures Serial(d, h)
  {
    hide D.Inv, TasksValid, G.Inv;
  }

  /** The event of a delivery is that of a valid task of its worker's run. */
  lemma DeliveryRun(d: D.State, g: G.Guard, w: nat)
    requires Serial(d, g) && w in g.threads
    ensures Busy(d, w) && g.threads[w].event == TaskOf(d, w).env.eventId
    ensures TaskOf(d, w).env.runId == d.workers[w].run == RunOf(g.threads[w].event)
  {
    hide D.Inv, TasksValid, G.Inv, ValidIdentity;
    RunningTaskValid(d, w);
    ValidEventIdDeterminesRun(TaskOf(d, w).env);
  }
}
