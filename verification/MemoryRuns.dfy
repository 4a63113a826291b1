// The trace theorem of the in-memory bus, over all runs.

module MemoryRuns {
  import opened Identity
  import opened Sums
  import D = Dispatcher
  import DR = DispatcherRuns
  import opened SerialGuard
  import opened MemoryModel
  import opened MemorySafety
  import opened MemoryTrace

  // ------------------------------------------------------------------- order

  function OneOfRun(env: Envelope, run: string): seq<D.Task> {
    if env.runId == run then [Delivery(env)] else []
  }

  /** The deliveries of one run in a stretch of the global queue. */
  function OfRun(pending: seq<Envelope>, run: string): seq<D.Task> {
    if pending == [] then []
    else OneOfRun(pending[0], run) + OfRun(pending[1..], run)
  }

  function Held(pump: Pump, run: string): seq<D.Task> {
    if pump.Holding? && pump.env.runId == run then [Delivery(pump.env)] else []
  }

  lemma {:induction false} OfRunAppend(a: seq<Envelope>, b: seq<Envelope>, run: string)
    ensures OfRun(a + b, run) == OfRun(a, run) + OfRun(b, run)
  {
    if a == [] {
      assert a + b == b && [] + OfRun(b, run) == OfRun(b, run);
    } else {
      hide *;
      var env, rest := a[0], a[1..];
      assert a == [env] + rest && a + b == [env] + (rest + b);
      OfRunMore(env, rest, run);
      OfRunMore(env, rest + b, run);
      OfRunAppend(rest, b, run);
      Regroup(OneOfRun(env, run), OfRun(rest, run), OfRun(b, run));
    }
  }

  lemma OfRunMore(env: Envelope, pending: seq<Envelope>, run: string)
    ensures OfRun([env] + pending, run) == OneOfRun(env, run) + OfRun(pending, run)
  {
    assert ([env] + pending)[1..] == pending;
  }

  lemma Regroup(a: seq<D.Task>, b: seq<D.Task>, c: seq<D.Task>)
    ensures (a + b) + c == a + (b + c)
  {
  }

  lemma {:induction false} OfRunCopies(env: Envelope, n: nat, run: string)
    ensures OfRun(Copies(env, n), run) == if run == env.runId then seq(n, _ => Delivery(env)) else []
  {
    if n > 0 {
      assert Copies(env, n)[1..] == Copies(env, n - 1);
      OfRunCopies(env, n - 1, run);
    }
  }

  /** Published is what was accepted, then the one in the pump's hand, then the queue. */
  ghost predicate RunInOrder(s: State, run: string) {
    At(s.hist.published, run) == At(s.disp.accepted, run) + Held(s.front.pump, run) + OfRun(s.front.pending, run)
  }

  ghost predicate OrderOk(s: State) {
    !s.front.interrupted ==> forall run :: RunInOrder(s, run)
  }

  lemma PublishOrder(s: State, env: Envelope, copies: nat)
    requires Enabled(s, Publish(env, copies)) && OrderOk(s)
    ensures OrderOk(Apply(s, Publish(env, copies)))
  {
    var t := Apply(s, Publish(env, copies));
    if !s.front.interrupted {
      forall run ensures RunInOrder(t, run) {
        assert RunInOrder(s, run);
        OfRunAppend(s.front.pending, Copies(env, copies), run);
        OfRunCopies(env, copies, run);
        hide OfRun, Held;
        Regroup(At(s.disp.accepted, run) + Held(s.front.pump, run), OfRun(s.front.pending, run),
                OfRun(Copies(env, copies), run));
      }
    }
  }

  lemma PopOrder(s: State)
    requires Enabled(s, Pop) && OrderOk(s)
    ensures OrderOk(Apply(s, Pop))
  {
    if !s.front.interrupted {
      forall run ensures RunInOrder(Apply(s, Pop), run) {
        assert RunInOrder(s, run);
        PopSplit(At(s.disp.accepted, run), s.front.pending, run);
        hide OfRun;
      }
    }
  }

  lemma PopSplit(accepted: seq<D.Task>, pending: seq<Envelope>, run: string)
    requires pending != []
    ensures accepted + [] + OfRun(pending, run) == accepted + Held(Holding(pending[0]), run) + OfRun(pending[1..], run)
  {
  }

  lemma PumpSendOrder(s: State, q: nat, w: nat)
    requires Enabled(s, PumpSend(q, w)) && OrderOk(s) && FlagsOk(s)
    ensures OrderOk(Apply(s, PumpSend(q, w)))
  {
    var t := Apply(s, PumpSend(q, w));
    SendAccepts(s.disp, Delivery(s.front.pump.env), q, w);
    hide D.TrySend;
    if !t.front.interrupted {
      forall run ensures RunInOrder(t, run) {
        assert RunInOrder(s, run);
      }
    }
  }

  lemma SameOrder(s: State, t: State)
    requires OrderOk(s) && t.hist.published == s.hist.published
    requires s.front.interrupted ==> t.front.interrupted
    requires !t.front.interrupted ==> t.disp.accepted == s.disp.accepted && t.front.pending == s.front.pending
    requires !t.front.interrupted && t.front.pump != s.front.pump ==> !t.front.pump.Holding? && !s.front.pump.Holding?
    ensures OrderOk(t)
  {
    if !t.front.interrupted {
      forall run ensures RunInOrder(t, run) {
        assert RunInOrder(s, run);
      }
    }
  }

  lemma DispatcherMoveOrder(s: State, a: D.Action)
    requires Enabled(s, DispatcherMove(a)) && OrderOk(s)
    ensures OrderOk(Apply(s, DispatcherMove(a)))
  {
    MoveKeepsBusy(s.disp, a);
    SameOrder(s, Apply(s, DispatcherMove(a)));
  }

  lemma StepOrder(s: State, a: Action)
    requires Enabled(s, a) && OrderOk(s) && FlagsOk(s) && FrontValid(s.front)
    ensures OrderOk(Apply(s, a))
  {
    hide OrderOk, OfRun, D.TrySend, D.Apply, D.Enabled, ValidIdentity;
    match a
    case Publish(env, copies) => PublishOrder(s, env, copies);
    case Pop => PopOrder(s);
    case PumpSend(q, w) => PumpSendOrder(s, q, w);
    case DispatcherMove(m) => DispatcherMoveOrder(s, m);
    case _ => OtherOrder(s, a);
  }

  lemma OtherOrder(s: State, a: Action)
    requires Enabled(s, a) && OrderOk(s) && FlagsOk(s) && FrontValid(s.front)
    requires !a.Publish? && !a.Pop? && !a.PumpSend? && !a.DispatcherMove?
    ensures OrderOk(Apply(s, a))
  {
    hide OrderOk, D.TrySend, D.Apply, D.Enabled, ValidIdentity, OnStage;
    SameOrder(s, Apply(s, a));
  }

  // -------------------------------------------------------------- every step

  lemma PumpSendFlags(s: State, q: nat, w: nat)
    requires Enabled(s, PumpSend(q, w)) && FlagsOk(s) && FrontValid(s.front)
    ensures FlagsOk(Apply(s, PumpSend(q, w)))
  {
    SendAccepts(s.disp, Delivery(s.front.pump.env), q, w);
    hide D.TrySend;
  }

  lemma MoveFlags(s: State, a: D.Action)
    requires Enabled(s, DispatcherMove(a)) && FlagsOk(s) && Inv(s)
    ensures FlagsOk(Apply(s, DispatcherMove(a)))
  {
    hide FrontValid, Serial, StagesOk;
    assert !s.front.running ==> a.DoStop? || a.DoCloseDone?;
  }

  lemma StepFlags(s: State, a: Action)
    requires Enabled(s, a) && FlagsOk(s) && Inv(s)
    ensures FlagsOk(Apply(s, a))
    ensures s.front.interrupted ==> Apply(s, a).front.interrupted
  {
    hide Serial, StagesOk, D.TrySend;
    match a
    case PumpSend(q, w) => PumpSendFlags(s, q, w);
    case DispatcherMove(m) => MoveFlags(s, m);
    case _ =>
  }

  lemma PumpSendTrace(s: State, q: nat, w: nat)
    requires Enabled(s, PumpSend(q, w)) && Inv(s) && TraceOk(s)
    ensures TraceOk(Apply(s, PumpSend(q, w)))
  {
    hide WorkerTraces, QuietTraces, Serial, StagesOk, SameBusy, D.TrySend;
    StepFlags(s, PumpSend(q, w));
    SendKeepsBusy(s.disp, Delivery(s.front.pump.env), q, w);
    SendAccepts(s.disp, Delivery(s.front.pump.env), q, w);
    OutsideStep(s, Apply(s, PumpSend(q, w)));
  }

  lemma DispatcherMoveTrace(s: State, a: D.Action)
    requires Enabled(s, DispatcherMove(a)) && Inv(s) && TraceOk(s)
    ensures TraceOk(Apply(s, DispatcherMove(a)))
  {
    StepFlags(s, DispatcherMove(a));
    MoveKeepsBusy(s.disp, a);
    hide Inv, TraceOk, FlagsOk, SameBusy;
    OutsideStep(s, Apply(s, DispatcherMove(a)));
  }

  lemma StartConsumeTrace(s: State)
    requires Enabled(s, StartConsume) && Inv(s) && TraceOk(s)
    ensures TraceOk(Apply(s, StartConsume))
  {
    StepFlags(s, StartConsume);
    hide Inv, QuietTraces, WorkerTraces;
    var t := Apply(s, StartConsume);
    if !t.front.interrupted {
      assert t.disp == s.disp;
      OutsideStep(s, t);
    }
  }

  lemma StepTrace(s: State, a: Action)
    requires Enabled(s, a) && Inv(s) && LogOk(s.hist.log, s.guard.commits) && TraceOk(s)
    ensures TraceOk(Apply(s, a))
  {
    StepFlags(s, a);
    SerialExclusive(s);
    hide Inv, LogOk, TraceOk, FlagsOk, D.Inv;
    match a
    case PumpSend(q, w) => PumpSendTrace(s, q, w);
    case DispatcherMove(m) => DispatcherMoveTrace(s, m);
    case StartConsume => StartConsumeTrace(s);
    case Take(w) => TakeTrace(s, w);
    case Return(w) => ReturnTrace(s, w);
    case FindDone(w) => FindDoneTrace(s, w);
    case CallHandler(w, ok) => CallHandlerTrace(s, w, ok);
    case Record(w) => RecordTrace(s, w);
    case Decide(w) => DecideTrace(s, w);
    case Wait(w, cut) => WaitTrace(s, w, cut);
    case FireHook(w) => FireHookTrace(s, w);
    case _ => OutsideStep(s, Apply(s, a));
  }

  // --------------------------------------------------------------- dead letters

  /** The dead letters of one run, from the bus-wide list and from the run's log. */
  function LettersOf(dlq: seq<DeadLetter>, run: string): seq<DeadLetter> {
    if dlq == [] then []
    else
      var last := |dlq| - 1;
      LettersOf(dlq[..last], run) + if dlq[last].run == run then [dlq[last]] else []
  }

  function LettersIn(log: seq<Entry>, run: string): seq<DeadLetter> {
    if log == [] then []
    else
      var last := |log| - 1;
      var letter := DeadLetter(log[last].event, run, log[last].attempt);
      LettersIn(log[..last], run) + if log[last].Dead? then [letter] else []
  }

  ghost predicate LettersOk(h: History) {
    forall run :: LettersOf(h.dlq, run) == LettersIn(At(h.log, run), run)
  }

  lemma LettersInPush(log: seq<Entry>, entry: Entry, run: string)
    ensures LettersIn(log + [entry], run)
         == LettersIn(log, run) + if entry.Dead? then [DeadLetter(entry.event, run, entry.attempt)] else []
  {
    assert (log + [entry])[..|log|] == log;
  }

  lemma LettersOfPush(dlq: seq<DeadLetter>, letter: DeadLetter, run: string)
    ensures LettersOf(dlq + [letter], run) == LettersOf(dlq, run) + if letter.run == run then [letter] else []
  {
    assert (dlq + [letter])[..|dlq|] == dlq;
  }

  lemma StepLetters(s: State, a: Action)
    requires Enabled(s, a) && LettersOk(s.hist)
    ensures LettersOk(Apply(s, a).hist)
  {
    hide LettersOf, LettersIn, Fails;
    var h, h' := s.hist, Apply(s, a).hist;
    forall run ensures LettersOf(h'.dlq, run) == LettersIn(At(h'.log, run), run) {
      match a
      case CallHandler(w, ok) =>
        LettersInPush(At(h.log, run), Tried(TaskOf(s.disp, w).env.eventId, s.stages[w].attempt, ok), run);
      case Decide(w) =>
        var env, n := TaskOf(s.disp, w).env, s.stages[w].attempt;
        LettersInPush(At(h.log, run), Dead(env.eventId, n), run);
        LettersOfPush(h.dlq, DeadLetter(env.eventId, env.runId, n), run);
      case _ =>
    }
  }

  // ------------------------------------------------------------------ theorem

  ghost predicate Good(s: State) {
    Inv(s) && LogOk(s.hist.log, s.guard.commits) && TraceOk(s) && OrderOk(s) && LettersOk(s.hist)
  }

  lemma InitGood(maxAttempts: int, queueSize: int)
    ensures Good(Init(maxAttempts, queueSize))
  {
    InitInv(maxAttempts, queueSize);
    InitLog(maxAttempts, queueSize);
    InitTrace(maxAttempts, queueSize);
  }

  lemma StepGood(s: State, a: Action)
    requires Enabled(s, a) && Good(s)
    ensures Good(Apply(s, a))
  {
    StepInv(s, a);
    StepLog(s, a);
    StepTrace(s, a);
    assert FlagsOk(s) && FrontValid(s.front);
    StepOrder(s, a);
    StepLetters(s, a);
  }

  lemma {:induction false} StepsGood(s: State, acts: seq<Action>, t: State)
    requires Good(s) && Steps(s, acts, t)
    ensures Good(t)
    decreases |acts|
  {
    hide Good;
    if acts != [] {
      StepGood(s, acts[0]);
      StepsGood(Apply(s, acts[0]), acts[1..], t);
    }
  }

  /** The trace of every run, in every reachable state of a bus that nobody cancelled or
      closed.  Published deliveries are, in order, the completed ones, the one being
      handled, those in the run's queue, the one in the pump's hand, and those still in
      the global queue.  The log is one block per completed delivery, of at most as many
      attempts as were configured, plus what the one being handled has contributed; the dead
      letters are the log's. */
  lemma RunTrace(maxAttempts: int, queueSize: int, acts: seq<Action>, s: State, run: string)
    requires Steps(Init(maxAttempts, queueSize), acts, s) && !s.front.interrupted
    ensures At(s.hist.published, run)
         == At(s.disp.completed, run) + DR.RunningOf(s.disp, run) + DR.QueuedOf(s.disp, run)
            + Held(s.front.pump, run) + OfRun(s.front.pending, run)
    ensures Quiet(s.disp, run) ==> Explains(At(s.disp.completed, run), At(s.hist.log, run), s.maxAttempts)
    ensures 1 <= maxAttempts <= 32 ==> s.maxAttempts == maxAttempts
    ensures maxAttempts <= 0 ==> s.maxAttempts == 5
    ensures maxAttempts > 32 ==> s.maxAttempts == 32
    ensures forall w :: Busy(s.disp, w) && s.disp.workers[w].run == run ==> w in s.stages && WorkerTrace(s, w)
    ensures LettersOf(s.hist.dlq, run) == LettersIn(At(s.hist.log, run), run)
  {
    InitGood(maxAttempts, queueSize);
    StepsGood(Init(maxAttempts, queueSize), acts, s);
    ConfiguredBudget(maxAttempts, queueSize, acts, s);
    assert RunInOrder(s, run);
    AcceptedSplit(s.disp, run);
    forall w | Busy(s.disp, w) && s.disp.workers[w].run == run ensures w in s.stages && WorkerTrace(s, w) {
      assert w in s.guard.threads;
    }
  }

  lemma AcceptedSplit(d: D.State, run: string)
    requires D.Inv(d) && !d.stopped
    ensures At(d.accepted, run) == At(d.completed, run) + DR.RunningOf(d, run) + DR.QueuedOf(d, run)
  {
    if run in d.queues {
      DR.RunningOfOwner(d, D.Owner(d, run));
    } else {
      assert D.IdleOk(d, run);
      DR.RunningOfIdle(d, run);
    }
  }

  /** When everything published has been worked off, the log of each run explains all
      its published deliveries under the budget that was configured. */
  lemma DrainedTrace(maxAttempts: int, queueSize: int, acts: seq<Action>, s: State, run: string)
    requires Steps(Init(maxAttempts, queueSize), acts, s) && !s.front.interrupted
    requires s.front.pending == [] && !s.front.pump.Holding? && s.disp.workers == map[]
    ensures Explains(At(s.hist.published, run), At(s.hist.log, run), s.maxAttempts)
    ensures 1 <= maxAttempts <= 32 ==> Explains(At(s.hist.published, run), At(s.hist.log, run), maxAttempts)
    ensures maxAttempts <= 0 ==> Explains(At(s.hist.published, run), At(s.hist.log, run), 5)
    ensures maxAttempts > 32 ==> Explains(At(s.hist.published, run), At(s.hist.log, run), 32)
  {
    InitGood(maxAttempts, queueSize);
    StepsGood(Init(maxAttempts, queueSize), acts, s);
    ConfiguredBudget(maxAttempts, queueSize, acts, s);
    hide Good, Explains, Steps;
    DrainedState(s, run);
  }

  lemma DrainedState(s: State, run: string)
    requires Good(s) && !s.front.interrupted
    requires s.front.pending == [] && !s.front.pump.Holding? && s.disp.workers == map[]
    ensures Explains(At(s.hist.published, run), At(s.hist.log, run), s.maxAttempts)
  {
    assert RunInOrder(s, run);
    assert Quiet(s.disp, run);
    assert D.Inv(s.disp) && !s.disp.stopped;
    DR.NoWorkersNoQueues(s.disp);
    hide Inv, LogOk, LettersOk, Explains, D.Inv;
    assert Explains(At(s.disp.completed, run), At(s.hist.log, run), s.maxAttempts);
    assert At(s.hist.published, run) == At(s.disp.accepted, run);
  }
}
