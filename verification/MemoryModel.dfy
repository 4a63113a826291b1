// The in-memory transport as a transition system: publishers, the pump, the per-run
// workers of the dispatcher, cancellation, Close and successive Consume loops, all
// interleaving.  A delivery is split wherever the source leaves a lock, calls the
// handler or fires a metrics hook.

module MemoryModel {
  import opened AttemptBounds
  import opened Identity
  import opened Sums
  import D = Dispatcher
  import G = Dedupe
  import opened SerialGuard

  /** The pump: not started, looking at the queue, holding a popped envelope, gone. */
  datatype Pump = Idle | Polling | Holding(env: Envelope) | Exited

  datatype Front = Front(
    pending: seq<Envelope>,
    pump: Pump,
    closed: bool,
    running: bool,
    cancelled: bool,
    interrupted: bool)  // history: some context was cancelled, or Close was called

  /** Where a running worker stands inside deliver. */
  datatype Stage =
    | Lookup                  // about to take the lock in alreadyDone
    | DupHook                 // found done: consume hook to fire
    | DupAck                  // found done: ack hook to fire
    | Invoke(attempt: nat)    // about to call the handler
    | OkHook(attempt: nat)    // handler succeeded: consume hook to fire
    | Mark(attempt: nat)      // about to take the lock in markDone
    | AckHook(attempt: nat)   // ack hook to fire
    | FailHook(attempt: nat)  // handler failed: consume hook to fire
    | Judge(attempt: nat)     // about to test the context and the budget
    | DeadHook                // dead-lettered: dlq hook to fire
    | RetryHook(attempt: nat) // retry hook to fire
    | Delay(attempt: nat)     // before the next in-place attempt
    | Over                    // deliver is returning

  function PhaseOf(stage: Stage): G.Phase {
    match stage
    case Lookup => G.Checking
    case Invoke(_) => G.Cleared
    case FailHook(_) => G.Cleared
    case Judge(_) => G.Cleared
    case RetryHook(_) => G.Cleared
    case Delay(_) => G.Cleared
    case OkHook(_) => G.Committed
    case Mark(_) => G.Committed
    case _ => G.Settled
  }

  /** What happened to a run's deliveries, as an observer of handler and DLQ sees it. */
  datatype Entry = Tried(event: string, attempt: nat, ok: bool) | Dead(event: string, attempt: nat)

  datatype DeadLetter = DeadLetter(event: string, run: string, attempts: nat)

  datatype History = History(
    published: map<string, seq<D.Task>>,
    log: map<string, seq<Entry>>,
    dlq: seq<DeadLetter>)

  /** The hook-fed counters, and two counts of deliveries cut by cancellation that no
      counter of the source records. */
  datatype Counters = Counters(
    published: nat, publishFailed: nat,
    consumed: nat, duplicates: nat, consumeFailed: nat,
    acked: nat, retried: nat, dead: nat,
    returned: nat, cutAfterFailure: nat, cutInDelay: nat)

  datatype State = State(
    maxAttempts: nat,
    queueSize: int,
    front: Front,
    disp: D.State,
    guard: G.Guard,
    stages: map<nat, Stage>,
    hist: History,
    counters: Counters)

  function Init(maxAttempts: int, queueSize: int): State {
    State(NormalizedAttempts(maxAttempts), queueSize,
          Front([], Idle, false, false, false, false),
          D.Init(queueSize), G.FRESH, map[],
          History(map[], map[], []),
          Counters(0, 0, 0, 0, 0, 0, 0, 0, 0, 0, 0))
  }

  /** The message the pump builds for an envelope. */
  function Delivery(env: Envelope): D.Task {
    D.Task(env, None, 1)
  }

  // ----------------------------------------------------- publishing, looping

  function Copies(env: Envelope, n: nat): (copies: seq<Envelope>)
    ensures |copies| == n && forall i :: 0 <= i < n ==> copies[i] == env
  {
    seq(n, _ => env)
  }

  function PublishHistory(published: map<string, seq<D.Task>>, env: Envelope, copies: nat): map<string, seq<D.Task>> {
    published[env.runId := At(published, env.runId) + seq(copies, _ => Delivery(env))]
  }

  datatype Action =
    | Publish(env: Envelope, copies: nat)
    | RefusePublish
    | StartConsume
    | Cancel
    | Close
    | EndConsume
    | Pop
    | PumpSend(q: nat, w: nat)
    | PumpExit
    | DispatcherMove(a: D.Action)
    | Take(w: nat)
    | Return(w: nat)
    | FindDone(w: nat)
    | CallHandler(w: nat, ok: bool)
    | Record(w: nat)
    | Decide(w: nat)
    | Wait(w: nat, cut: bool)
    | FireHook(w: nat)

  ghost predicate Enabled(s: State, a: Action) {
    match a
    case Publish(env, copies) => !s.front.closed && ValidIdentity(env) && env.attempt == 1 && copies >= 1
    case RefusePublish => true
    case StartConsume => !s.front.closed && !s.front.running
    case Cancel => s.front.running
    case Close => true
    case EndConsume => s.front.running && s.disp.stopped && s.disp.workers == map[] && s.front.pump.Exited?
    case Pop => s.front.pump.Polling? && !s.front.closed && s.front.pending != []
    case PumpSend(q, w) => s.front.pump.Holding? && D.Enabled(s.disp, D.DoDispatch(Delivery(s.front.pump.env), q, w))
    case PumpExit =>
      || (s.front.pump.Polling? && (s.front.closed || (s.front.pending == [] && s.front.cancelled)))
      || (s.front.pump.Holding? && (s.front.cancelled || s.disp.done))
    case DispatcherMove(a) => MayMove(s.front, a) && D.Enabled(s.disp, a)
    case Take(w) => D.Enabled(s.disp, D.DoTake(w))
    case Return(w) => OnStage(s, w) && s.stages[w].Over?
    case FindDone(w) => OnStage(s, w) && s.stages[w].Lookup?
    case CallHandler(w, ok) => OnStage(s, w) && s.stages[w].Invoke?
    case Record(w) => OnStage(s, w) && s.stages[w].Mark?
    case Decide(w) => OnStage(s, w) && s.stages[w].Judge?
    case Wait(w, cut) => OnStage(s, w) && s.stages[w].Delay? && (cut ==> s.front.cancelled || s.front.closed)
    case FireHook(w) => OnStage(s, w) && HasHook(s.stages[w])
  }

  /** Steps of the dispatcher that leave every delivery where it is.  stop is called
      once the context is cancelled or the bus is closed. */
  predicate MayMove(f: Front, a: D.Action) {
    IsMove(a) && (a.DoStop? || a.DoCloseDone? ==> f.cancelled || f.closed)
  }

  /** w is a worker inside deliver, known to the guard. */
  ghost predicate OnStage(s: State, w: nat) {
    && w in s.stages && w in s.guard.threads && s.guard.threads[w].phase == PhaseOf(s.stages[w])
    && Busy(s.disp, w)
  }

  predicate HasHook(stage: Stage) {
    stage.DupHook? || stage.DupAck? || stage.OkHook? || stage.AckHook? || stage.FailHook? || stage.DeadHook? ||
      stage.RetryHook?
  }

  // -------------------------------------------------------- inside a delivery

  /** The stage after a hook fired. */
  function AfterHook(stage: Stage): Stage
    requires HasHook(stage)
  {
    match stage
    case DupHook => DupAck
    case DupAck => Over
    case OkHook(n) => Mark(n)
    case AckHook(_) => Over
    case FailHook(n) => Judge(n)
    case DeadHook => Over
    case RetryHook(n) => Delay(n)
  }

  /** What the hook adds to the counters. */
  function Count(c: Counters, stage: Stage): Counters
    requires HasHook(stage)
  {
    match stage
    case DupHook => c.(consumed := c.consumed + 1, duplicates := c.duplicates + 1)
    case DupAck => c.(acked := c.acked + 1)
    case OkHook(_) => c.(consumed := c.consumed + 1)
    case AckHook(_) => c.(acked := c.acked + 1)
    case FailHook(_) => c.(consumed := c.consumed + 1, consumeFailed := c.consumeFailed + 1)
    case DeadHook => c.(dead := c.dead + 1)
    case RetryHook(_) => c.(retried := c.retried + 1)
  }

  function SetStage(s: State, w: nat, stage: Stage): State {
    s.(stages := s.stages[w := stage])
  }

  function Log(h: History, run: string, e: Entry): History {
    h.(log := Push(h.log, run, e))
  }

  /** alreadyDone. */
  function DoFindDone(s: State, w: nat): State
    requires OnStage(s, w) && s.stages[w].Lookup?
  {
    var g := G.Check(s.guard, w);
    SetStage(s.(guard := g), w, if g.threads[w].phase == G.Settled then DupHook else Invoke(1))
  }

  /** The handler, or the injected failure in front of it, returned. */
  function DoCallHandler(s: State, w: nat, ok: bool): State
    requires OnStage(s, w) && s.stages[w].Invoke?
  {
    var n, env := s.stages[w].attempt, TaskOf(s.disp, w).env;
    var t := s.(hist := Log(s.hist, env.runId, Tried(env.eventId, n, ok)));
    if ok then SetStage(t.(guard := G.Commit(s.guard, w)), w, OkHook(n)) else SetStage(t, w, FailHook(n))
  }

  /** markDone. */
  function DoRecord(s: State, w: nat): State
    requires OnStage(s, w) && s.stages[w].Mark?
  {
    SetStage(s.(guard := G.Mark(s.guard, w)), w, AckHook(s.stages[w].attempt))
  }

  /** After a failure: give up if the context is cancelled, else Nack. */
  function DoDecide(s: State, w: nat): State
    requires OnStage(s, w) && s.stages[w].Judge?
  {
    var n, env := s.stages[w].attempt, TaskOf(s.disp, w).env;
    if s.front.cancelled then
      var c := s.counters.(cutAfterFailure := s.counters.cutAfterFailure + 1);
      SetStage(s.(guard := G.GiveUp(s.guard, w), counters := c), w, Over)
    else if n >= s.maxAttempts then
      var h := Log(s.hist, env.runId, Dead(env.eventId, n));
      var dlq := h.dlq + [DeadLetter(env.eventId, env.runId, n)];
      SetStage(s.(guard := G.GiveUp(s.guard, w), hist := h.(dlq := dlq)), w, DeadHook)
    else
      SetStage(s, w, RetryHook(n))
  }

  /** The pause between two attempts; cut short by cancellation or Close. */
  function DoWait(s: State, w: nat, cut: bool): State
    requires OnStage(s, w) && s.stages[w].Delay?
  {
    if cut then
      var c := s.counters.(cutInDelay := s.counters.cutInDelay + 1);
      SetStage(s.(guard := G.GiveUp(s.guard, w), counters := c), w, Over)
    else
      SetStage(s, w, Invoke(s.stages[w].attempt + 1))
  }

  /** A worker takes a task and enters deliver. */
  function DoTake(s: State, w: nat): State
    requires D.Enabled(s.disp, D.DoTake(w))
  {
    var d := D.Take(s.disp, w);
    s.(disp := d, guard := G.Begin(s.guard, w, TaskOf(d, w).env.eventId), stages := s.stages[w := Lookup])
  }

  /** deliver returns to the worker loop. */
  function DoReturn(s: State, w: nat): State
    requires OnStage(s, w)
  {
    s.(disp := D.Complete(s.disp, w), guard := G.End(s.guard, w), stages := s.stages - {w},
       counters := s.counters.(returned := s.counters.returned + 1))
  }

  function Apply(s: State, a: Action): State
    requires Enabled(s, a)
  {
    var f, c := s.front, s.counters;
    match a
    case Publish(env, copies) =>
      s.(front := f.(pending := f.pending + Copies(env, copies)),
         hist := s.hist.(published := PublishHistory(s.hist.published, env, copies)),
         counters := c.(published := c.published + 1))
    case RefusePublish => s.(counters := c.(publishFailed := c.publishFailed + 1))
    case StartConsume =>
      s.(front := f.(running := true, cancelled := false, pump := Polling), disp := D.Init(s.queueSize))
    case Cancel => s.(front := f.(cancelled := true, interrupted := true))
    case Close => s.(front := f.(closed := true, interrupted := true, pending := if f.closed then f.pending else []))
    case EndConsume => s.(front := f.(running := false, pump := Idle))
    case Pop => s.(front := f.(pending := f.pending[1..], pump := Holding(f.pending[0])))
    case PumpSend(q, w) =>
      var (d, outcome) := D.TrySend(s.disp, Delivery(f.pump.env), q, w);
      s.(disp := d, front := f.(pump := match outcome case Sent => Polling case Full => f.pump case Closed => Exited))
    case PumpExit => s.(front := f.(pump := Exited))
    case DispatcherMove(m) => s.(disp := D.Apply(s.disp, m))
    case Take(w) => DoTake(s, w)
    case Return(w) => DoReturn(s, w)
    case FindDone(w) => DoFindDone(s, w)
    case CallHandler(w, ok) => DoCallHandler(s, w, ok)
    case Record(w) => DoRecord(s, w)
    case Decide(w) => DoDecide(s, w)
    case Wait(w, cut) => DoWait(s, w, cut)
    case FireHook(w) => SetStage(s.(counters := Count(c, s.stages[w])), w, AfterHook(s.stages[w]))
  }

  /** acts is a possible run from s, ending in t. */
  ghost predicate Steps(s: State, acts: seq<Action>, t: State)
    decreases |acts|
  {
    if acts == [] then s == t
    else Enabled(s, acts[0]) && Steps(Apply(s, acts[0]), acts[1..], t)
  }

  /** What a step does to the front of the bus: only Publish adds to the queue, its copies at
      the end; only the pump takes from it, at the head; Close empties it.  The pump goes on
      after a send that was accepted, tries a refused one again, and ends when the dispatcher
      is stopped or nothing may follow. */
  lemma FrontStepExactly(s: State, a: Action)
    requires Enabled(s, a)
    ensures var f, t := s.front, Apply(s, a).front;
      && t.closed == (f.closed || a.Close?)
      && t.running == ((f.running || a.StartConsume?) && !a.EndConsume?)
      && t.cancelled == ((f.cancelled && !a.StartConsume?) || a.Cancel?)
      && t.interrupted == (f.interrupted || a.Cancel? || a.Close?)
      && t.pending == (match a
                       case Publish(env, copies) => f.pending + seq(copies, _ => env)
                       case Pop => f.pending[1..]
                       case Close => if f.closed then f.pending else []
                       case _ => f.pending)
      && t.pump == match a
                   case StartConsume => Polling
                   case EndConsume => Idle
                   case Pop => Holding(f.pending[0])
                   case PumpSend(q, w) =>
                     var outcome := D.TrySend(s.disp, D.Task(f.pump.env, None, 1), q, w).1;
                     if outcome.Sent? then Polling else if outcome.Full? then f.pump else Exited
                   case PumpExit => Exited
                   case _ => f.pump
  {
    hide D.Enabled, D.Apply, D.TrySend, D.Take, D.Complete, ValidIdentity, OnStage, PublishHistory, Count;
  }

  lemma StepSettings(s: State, a: Action)
    requires Enabled(s, a)
    ensures Apply(s, a).maxAttempts == s.maxAttempts && Apply(s, a).queueSize == s.queueSize
  {
    hide D.Enabled, D.Apply, D.TrySend, D.Take, D.Complete, ValidIdentity, OnStage, Copies, PublishHistory, Count;
  }

  /** A bus keeps its configuration in every run. */
  lemma {:induction false} StepsSettings(s: State, acts: seq<Action>, t: State)
    requires Steps(s, acts, t)
    ensures t.maxAttempts == s.maxAttempts && t.queueSize == s.queueSize
    decreases |acts|
  {
    hide Enabled, Apply;
    if acts != [] {
      StepSettings(s, acts[0]);
      StepsSettings(Apply(s, acts[0]), acts[1..], t);
    }
  }

  /** The budget in force is the configured one, from 1 to 32, in every state. */
  lemma ConfiguredBudget(maxAttempts: int, queueSize: int, acts: seq<Action>, s: State)
    requires Steps(Init(maxAttempts, queueSize), acts, s)
    ensures 1 <= maxAttempts <= 32 ==> s.maxAttempts == maxAttempts
    ensures maxAttempts <= 0 ==> s.maxAttempts == 5
    ensures maxAttempts > 32 ==> s.maxAttempts == 32
  {
    StepsSettings(Init(maxAttempts, queueSize), acts, s);
    hide Steps;
  }
}
