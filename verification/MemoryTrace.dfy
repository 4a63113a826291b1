// The trace of one run in the in-memory bus, as long as nothing was cancelled or
// closed: the deliveries are handled in publish order, and each contributes one block
// of attempts 1, 2, ... that ends in a success or, at the attempt bound, in a dead
// letter; a duplicate of an event that succeeded contributes nothing.

module MemoryTrace {
  import opened Identity
  import opened Sums
  import D = Dispatcher
  import G = Dedupe
  import opened SerialGuard
  import opened MemoryModel
  import opened MemorySafety

  // --------------------------------------------------------------- the shape

  /** Attempts 1..n, all failed. */
  function Fails(event: string, n: nat): (log: seq<Entry>)
    ensures |log| == n
  {
    seq(n, (i: nat) => Tried(event, i + 1, false))
  }

  /** What one delivery adds to a log that reads prior. */
  ghost predicate IsBlock(prior: seq<Entry>, block: seq<Entry>, event: string, max: nat) {
    if Succeeded(prior, event) then block == []
    else
      || (exists n :: 1 <= n <= max && block == Fails(event, n - 1) + [Tried(event, n, true)])
      || block == Fails(event, max) + [Dead(event, max)]
  }

  /** The log is one block per delivery, in order. */
  ghost predicate Explains(deliveries: seq<D.Task>, log: seq<Entry>, max: nat)
    decreases |deliveries|
  {
    if deliveries == [] then log == []
    else
      var last := |deliveries| - 1;
      exists k :: 0 <= k <= |log| && Explains(deliveries[..last], log[..k], max)
               && IsBlock(log[..k], log[k..], deliveries[last].env.eventId, max)
  }

  lemma ExplainsPush(deliveries: seq<D.Task>, task: D.Task, log: seq<Entry>, k: nat, max: nat)
    requires k <= |log| && Explains(deliveries, log[..k], max) && IsBlock(log[..k], log[k..], task.env.eventId, max)
    ensures Explains(deliveries + [task], log, max)
  {
    assert (deliveries + [task])[..|deliveries|] == deliveries;
  }

  /** What a delivery at a stage has added so far. */
  ghost predicate Partial(prior: seq<Entry>, part: seq<Entry>, event: string, stage: Stage, max: nat) {
    match stage
    case Lookup => part == []
    case DupHook => part == [] && Succeeded(prior, event)
    case DupAck => part == [] && Succeeded(prior, event)
    case Invoke(n) => !Succeeded(prior, event) && 1 <= n <= max && part == Fails(event, n - 1)
    case OkHook(n) => WonAt(prior, part, event, n, max)
    case Mark(n) => WonAt(prior, part, event, n, max)
    case AckHook(n) => WonAt(prior, part, event, n, max)
    case FailHook(n) => !Succeeded(prior, event) && 1 <= n <= max && part == Fails(event, n)
    case Judge(n) => !Succeeded(prior, event) && 1 <= n <= max && part == Fails(event, n)
    case RetryHook(n) => !Succeeded(prior, event) && 1 <= n < max && part == Fails(event, n)
    case Delay(n) => !Succeeded(prior, event) && 1 <= n < max && part == Fails(event, n)
    case DeadHook => !Succeeded(prior, event) && part == Fails(event, max) + [Dead(event, max)]
    case Over => IsBlock(prior, part, event, max)
  }

  ghost predicate WonAt(prior: seq<Entry>, part: seq<Entry>, event: string, n: nat, max: nat) {
    !Succeeded(prior, event) && 1 <= n <= max && part == Fails(event, n - 1) + [Tried(event, n, true)]
  }

  ghost predicate MidTrace(deliveries: seq<D.Task>, log: seq<Entry>, event: string, stage: Stage, max: nat) {
    exists k :: 0 <= k <= |log| && Explains(deliveries, log[..k], max) && Partial(log[..k], log[k..], event, stage, max)
  }

  // ------------------------------------------------------ moves of one delivery

  /** The stages a delivery passes through without logging, uninterrupted. */
  ghost predicate QuietMove(from: Stage, to: Stage, max: nat) {
    || (HasHook(from) && to == AfterHook(from))
    || (from.Mark? && to == AckHook(from.attempt))
    || (from.Judge? && from.attempt < max && to == RetryHook(from.attempt))
    || (from.Delay? && to == Invoke(from.attempt + 1))
  }

  lemma QuietPartial(prior: seq<Entry>, part: seq<Entry>, event: string, from: Stage, to: Stage, max: nat)
    requires Partial(prior, part, event, from, max) && QuietMove(from, to, max)
    ensures Partial(prior, part, event, to, max)
  {
    hide Succeeded, Fails;
  }

  lemma QuietTrace(deliveries: seq<D.Task>, log: seq<Entry>, event: string, from: Stage, to: Stage, max: nat)
    requires MidTrace(deliveries, log, event, from, max) && QuietMove(from, to, max)
    ensures MidTrace(deliveries, log, event, to, max)
  {
    var k :| 0 <= k <= |log| && Explains(deliveries, log[..k], max) && Partial(log[..k], log[k..], event, from, max);
    QuietPartial(log[..k], log[k..], event, from, to, max);
    hide Explains, Partial;
  }

  lemma FoundTrace(deliveries: seq<D.Task>, log: seq<Entry>, event: string, max: nat)
    requires MidTrace(deliveries, log, event, Lookup, max) && max >= 1
    ensures MidTrace(deliveries, log, event, if Succeeded(log, event) then DupHook else Invoke(1), max)
  {
    var k :| 0 <= k <= |log| && Explains(deliveries, log[..k], max) && Partial(log[..k], log[k..], event, Lookup, max);
    assert log[..k] == log;
    assert Fails(event, 0) == [];
  }

  /** Logging one more entry takes a delivery from one stage to another. */
  ghost predicate LoudMove(event: string, from: Stage, entry: Entry, to: Stage, max: nat) {
    || (from.Invoke? && entry == Tried(event, from.attempt, true) && to == OkHook(from.attempt))
    || (from.Invoke? && entry == Tried(event, from.attempt, false) && to == FailHook(from.attempt))
    || (from.Judge? && from.attempt >= max && entry == Dead(event, from.attempt) && to == DeadHook)
  }

  lemma LoudPartial(prior: seq<Entry>, part: seq<Entry>, event: string, from: Stage, entry: Entry, to: Stage, max: nat)
    requires Partial(prior, part, event, from, max) && LoudMove(event, from, entry, to, max)
    ensures Partial(prior, part + [entry], event, to, max)
  {
    if to.FailHook? {
      assert part + [entry] == Fails(event, from.attempt);
    }
  }

  lemma LoudTrace(deliveries: seq<D.Task>, log: seq<Entry>, event: string, from: Stage, entry: Entry, to: Stage,
                  max: nat)
    requires MidTrace(deliveries, log, event, from, max) && LoudMove(event, from, entry, to, max)
    ensures MidTrace(deliveries, log + [entry], event, to, max)
  {
    var k :| 0 <= k <= |log| && Explains(deliveries, log[..k], max) && Partial(log[..k], log[k..], event, from, max);
    LoudPartial(log[..k], log[k..], event, from, entry, to, max);
    assert (log + [entry])[..k] == log[..k] && (log + [entry])[k..] == log[k..] + [entry];
    hide Explains, Partial;
  }

  lemma StartTrace(deliveries: seq<D.Task>, log: seq<Entry>, event: string, max: nat)
    requires Explains(deliveries, log, max)
    ensures MidTrace(deliveries, log, event, Lookup, max)
  {
    assert log[..|log|] == log && log[|log|..] == [];
  }

  lemma EndTrace(deliveries: seq<D.Task>, log: seq<Entry>, task: D.Task, max: nat)
    requires MidTrace(deliveries, log, task.env.eventId, Over, max)
    ensures Explains(deliveries + [task], log, max)
  {
    var k :| 0 <= k <= |log| && Explains(deliveries, log[..k], max) &&
      Partial(log[..k], log[k..], task.env.eventId, Over, max);
    ExplainsPush(deliveries, task, log, k, max);
  }

  // --------------------------------------------------------------- the state

  /** Nobody is inside a delivery of the run. */
  ghost predicate Quiet(d: D.State, run: string) {
    forall w :: Busy(d, w) ==> d.workers[w].run != run
  }

  ghost predicate WorkerTrace(s: State, w: nat)
    requires Busy(s.disp, w) && w in s.stages
  {
    var run := s.disp.workers[w].run;
    MidTrace(At(s.disp.completed, run), At(s.hist.log, run), TaskOf(s.disp, w).env.eventId, s.stages[w], s.maxAttempts)
  }

  ghost predicate QuietTraces(s: State) {
    forall run :: Quiet(s.disp, run) ==> Explains(At(s.disp.completed, run), At(s.hist.log, run), s.maxAttempts)
  }

  ghost predicate WorkerTraces(s: State) {
    forall w :: Busy(s.disp, w) && w in s.stages ==> WorkerTrace(s, w)
  }

  /** Nothing ends early unless somebody cancelled or closed. */
  ghost predicate FlagsOk(s: State) {
    && s.maxAttempts >= 1
    && (s.front.cancelled || s.front.closed || s.front.pump.Exited? || s.disp.stopped || s.disp.done ==>
       s.front.interrupted)
    && (!s.front.running && !s.front.interrupted ==> s.disp == D.Init(s.queueSize))
  }

  ghost predicate TraceOk(s: State) {
    FlagsOk(s) && (!s.front.interrupted ==> WorkerTraces(s) && QuietTraces(s))
  }

  lemma InitTrace(maxAttempts: int, queueSize: int)
    ensures TraceOk(Init(maxAttempts, queueSize))
  {
  }

  /** Steps that leave deliveries, stages, completed tasks and logs alone. */
  lemma OutsideStep(s: State, t: State)
    requires TraceOk(s) && FlagsOk(t)
    requires SameBusy(s.disp, t.disp) && t.disp.completed == s.disp.completed
    requires t.stages == s.stages && t.hist.log == s.hist.log && t.maxAttempts == s.maxAttempts
    requires s.front.interrupted ==> t.front.interrupted
    ensures TraceOk(t)
  {
    hide MidTrace, Explains;
    if !t.front.interrupted {
      forall w | Busy(t.disp, w) && w in t.stages ensures WorkerTrace(t, w) {
        assert WorkerTrace(s, w);
      }
      forall run | Quiet(t.disp, run) ensures Explains(At(t.disp.completed, run), At(t.hist.log, run), t.maxAttempts) {
        assert Quiet(s.disp, run);
      }
    }
  }

  /** A step inside delivery w that comes out right for w. */
  lemma InsideStep(s: State, t: State, w: nat)
    requires D.Inv(s.disp) && TraceOk(s) && Busy(s.disp, w) && w in t.stages
    requires t.disp == s.disp && t.front == s.front && t.maxAttempts == s.maxAttempts && t.queueSize == s.queueSize
    requires forall v :: v in t.stages && v != w ==> v in s.stages && t.stages[v] == s.stages[v]
    requires forall run :: run != s.disp.workers[w].run ==> At(t.hist.log, run) == At(s.hist.log, run)
    requires !s.front.interrupted ==> WorkerTrace(t, w)
    ensures TraceOk(t)
  {
    hide MidTrace, Explains;
    if !t.front.interrupted {
      forall v | Busy(t.disp, v) && v in t.stages ensures WorkerTrace(t, v) {
        if v != w {
          assert WorkerTrace(s, v);
        }
      }
      forall run | Quiet(t.disp, run) ensures Explains(At(t.disp.completed, run), At(t.hist.log, run), t.maxAttempts) {
        assert Quiet(s.disp, run);
      }
    }
  }

  // ------------------------------------------------------------ step by step

  lemma QuietStageTrace(s: State, t: State, w: nat, to: Stage)
    requires D.Inv(s.disp) && TraceOk(s) && OnStage(s, w)
    requires t.disp == s.disp && t.front == s.front && t.maxAttempts == s.maxAttempts && t.queueSize == s.queueSize
    requires t.hist.log == s.hist.log && t.stages == s.stages[w := to]
    requires !s.front.interrupted ==> QuietMove(s.stages[w], to, s.maxAttempts)
    ensures TraceOk(t)
  {
    hide D.Inv, MidTrace, Explains, QuietMove;
    if !s.front.interrupted {
      assert WorkerTrace(s, w);
      var run := s.disp.workers[w].run;
      QuietTrace(At(s.disp.completed, run), At(s.hist.log, run), TaskOf(s.disp, w).env.eventId, s.stages[w], to,
        s.maxAttempts);
    }
    InsideStep(s, t, w);
  }

  lemma LoudStageTrace(s: State, t: State, w: nat, entry: Entry, to: Stage)
    requires D.Inv(s.disp) && TraceOk(s) && OnStage(s, w)
    requires t.disp == s.disp && t.front == s.front && t.maxAttempts == s.maxAttempts && t.queueSize == s.queueSize
    requires t.hist.log == Push(s.hist.log, s.disp.workers[w].run, entry) && t.stages == s.stages[w := to]
    requires !s.front.interrupted ==> LoudMove(TaskOf(s.disp, w).env.eventId, s.stages[w], entry, to, s.maxAttempts)
    ensures TraceOk(t)
  {
    hide D.Inv, MidTrace, Explains, LoudMove;
    if !s.front.interrupted {
      assert WorkerTrace(s, w);
      var run := s.disp.workers[w].run;
      LoudTrace(At(s.disp.completed, run), At(s.hist.log, run), TaskOf(s.disp, w).env.eventId, s.stages[w], entry, to,
        s.maxAttempts);
    }
    InsideStep(s, t, w);
  }

  lemma RunOfTask(s: State, w: nat)
    requires D.Inv(s.disp) && Busy(s.disp, w)
    ensures TaskOf(s.disp, w).env.runId == s.disp.workers[w].run
  {
    assert D.WorkerOk(s.disp, w);
  }

  lemma FireHookTrace(s: State, w: nat)
    requires Enabled(s, FireHook(w)) && D.Inv(s.disp) && TraceOk(s)
    ensures TraceOk(Apply(s, FireHook(w)))
  {
    hide D.Inv, TraceOk;
    QuietStageTrace(s, Apply(s, FireHook(w)), w, AfterHook(s.stages[w]));
  }

  lemma RecordTrace(s: State, w: nat)
    requires Enabled(s, Record(w)) && D.Inv(s.disp) && TraceOk(s)
    ensures TraceOk(Apply(s, Record(w)))
  {
    hide D.Inv, TraceOk;
    QuietStageTrace(s, DoRecord(s, w), w, AckHook(s.stages[w].attempt));
  }

  lemma WaitTrace(s: State, w: nat, cut: bool)
    requires Enabled(s, Wait(w, cut)) && D.Inv(s.disp) && TraceOk(s)
    ensures TraceOk(Apply(s, Wait(w, cut)))
  {
    hide D.Inv, WorkerTraces, QuietTraces;
    QuietStageTrace(s, DoWait(s, w, cut), w, if cut then Over else Invoke(s.stages[w].attempt + 1));
  }

  lemma CallHandlerTrace(s: State, w: nat, ok: bool)
    requires Enabled(s, CallHandler(w, ok)) && D.Inv(s.disp) && TraceOk(s)
    ensures TraceOk(Apply(s, CallHandler(w, ok)))
  {
    hide D.Inv, TraceOk, D.Enabled, D.Apply, D.TrySend, D.Take, Fails, ValidIdentity;
    RunOfTask(s, w);
    var n := s.stages[w].attempt;
    LoudStageTrace(s, DoCallHandler(s, w, ok), w, Tried(TaskOf(s.disp, w).env.eventId, n, ok),
      if ok then OkHook(n) else FailHook(n));
  }

  lemma DecideTrace(s: State, w: nat)
    requires Enabled(s, Decide(w)) && D.Inv(s.disp) && TraceOk(s)
    ensures TraceOk(Apply(s, Decide(w)))
  {
    hide D.Inv, WorkerTraces, QuietTraces, D.Enabled, D.Apply, D.TrySend, D.Take, ValidIdentity;
    RunOfTask(s, w);
    var n := s.stages[w].attempt;
    if s.front.cancelled {
      QuietStageTrace(s, DoDecide(s, w), w, Over);
    } else if n >= s.maxAttempts {
      LoudStageTrace(s, DoDecide(s, w), w, Dead(TaskOf(s.disp, w).env.eventId, n), DeadHook);
    } else {
      QuietStageTrace(s, DoDecide(s, w), w, RetryHook(n));
    }
  }

  /** A delivery alone with its event finds it in the seen set exactly when the log
      shows a success. */
  lemma SeenMeansSucceeded(s: State, w: nat)
    requires OnStage(s, w) && s.stages[w].Lookup? && Inv(s) && LogOk(s.hist.log, s.guard.commits)
    ensures var e := TaskOf(s.disp, w).env;
      s.guard.threads[w].event == e.eventId
      && (e.eventId in s.guard.seen <==> Succeeded(At(s.hist.log, e.runId), e.eventId))
  {
    DeliveryRun(s.disp, s.guard, w);
    assert G.Inv(s.guard);
    hide Serial, FrontValid;
  }

  lemma SerialExclusive(s: State)
    requires Inv(s)
    ensures D.Inv(s.disp)
  {
  }

  lemma FindDoneTrace(s: State, w: nat)
    requires Enabled(s, FindDone(w)) && Inv(s) && LogOk(s.hist.log, s.guard.commits) && TraceOk(s)
    ensures TraceOk(Apply(s, FindDone(w)))
  {
    hide Serial, FrontValid, LogOk, QuietTraces, MidTrace, Explains, Succeeded, D.Enabled, D.Apply, D.TrySend, D.Take;
    DeliveryRun(s.disp, s.guard, w);
    SerialExclusive(s);
    SeenMeansSucceeded(s, w);
    var t := DoFindDone(s, w);
    if !s.front.interrupted {
      assert WorkerTrace(s, w);
      var e := TaskOf(s.disp, w).env;
      FoundTrace(At(s.disp.completed, e.runId), At(s.hist.log, e.runId), e.eventId, s.maxAttempts);
      assert WorkerTrace(t, w);
    }
    InsideStep(s, t, w);
  }

  lemma TakeTrace(s: State, w: nat)
    requires Enabled(s, Take(w)) && D.Inv(s.disp) && TraceOk(s)
    ensures TraceOk(Apply(s, Take(w)))
  {
    hide MidTrace, Explains, D.WorkersOk, D.AllOwned, D.AllIdleOk;
    var t := DoTake(s, w);
    if !t.front.interrupted {
      var run := s.disp.workers[w].run;
      forall v | Busy(s.disp, v) ensures s.disp.workers[v].run != run {
      }
      assert Quiet(s.disp, run);
      StartTrace(At(s.disp.completed, run), At(s.hist.log, run), TaskOf(t.disp, w).env.eventId, s.maxAttempts);
      forall v | Busy(t.disp, v) && v in t.stages ensures WorkerTrace(t, v) {
        if v != w {
          assert Busy(s.disp, v) && WorkerTrace(s, v);
        }
      }
      forall r | Quiet(t.disp, r) ensures Quiet(s.disp, r) {
        forall v | Busy(s.disp, v) ensures s.disp.workers[v].run != r {
          assert Busy(t.disp, v);
        }
      }
    }
  }

  lemma ReturnTrace(s: State, w: nat)
    requires Enabled(s, Return(w)) && D.Inv(s.disp) && TraceOk(s)
    ensures TraceOk(Apply(s, Return(w)))
  {
    hide MidTrace, Explains, D.WorkersOk, D.AllOwned, D.AllIdleOk;
    var t := DoReturn(s, w);
    if !t.front.interrupted {
      var run := s.disp.workers[w].run;
      assert WorkerTrace(s, w);
      EndTrace(At(s.disp.completed, run), At(s.hist.log, run), TaskOf(s.disp, w), s.maxAttempts);
      forall v | Busy(t.disp, v) && v in t.stages ensures WorkerTrace(t, v) {
        assert Busy(s.disp, v) && WorkerTrace(s, v) && t.disp.workers[v].run != run;
      }
      forall r | Quiet(t.disp, r) ensures Explains(At(t.disp.completed, r), At(t.hist.log, r), t.maxAttempts) {
        if r != run {
          forall v | Busy(s.disp, v) ensures s.disp.workers[v].run != r {
            assert v != w ==> Busy(t.disp, v);
          }
          assert Quiet(s.disp, r);
        }
      }
    }
  }
}
